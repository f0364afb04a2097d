/**
  The digest of the reviewed files. Three of them carry digests derived from it; they enter the stream
  with those fields blanked, which is what makes a self-referring digest possible. Bytes are modelled as
  characters, and JSON parsing is a parameter.
 */
module ReviewedDigest {
  import opened Wrappers
  import opened Json
  import Framing

  const NUL: char := '\U{00}'

  const NORMALIZED_ARTIFACTS: set<string> := {
    "docs/templates/h11_v4_g075_frozen_generation.json",
    "docs/templates/h11_v4_g075_runtime_commissioning_evidence.json",
    "docs/templates/h11_v4_g075_independent_review_attestation.json"}

  const BINDING_FIELDS: set<string> := {
    "artifact_digest", "generation_digest", "implementation_digest", "reviewed_files_digest",
    "runtime_commissioning_evidence_digest", "successor_halt_release_digest"}

  /** What a path holds: a regular file, or nothing the digest may read (missing, not a file, a symlink). */
  datatype Entry = Regular(content: string) | Unreadable

  type Repository = map<string, Entry>
  type Parser = string -> Option<Json>
  type Hash = string -> string

  datatype DigestError = FileInvalid | ArtifactInvalid

  // ----- the hash object

  /** `hashlib.sha256()`: remembers what it has been fed. */
  class Hasher {
    var fed: string

    constructor ()
      ensures fed == []
    {
      fed := [];
    }

    method Update(text: string)
      modifies this
      ensures fed == old(fed) + text
    {
      fed := fed + text;
    }

    method HexDigest(hash: Hash) returns (hex: string)
      ensures hex == hash(fed)
    {
      hex := hash(fed);
    }
  }

  // ----- normalisation

  /** An object with every binding field it has set to null. */
  function Blanked(fields: map<string, Json>): map<string, Json> {
    map k | k in fields :: if k in BINDING_FIELDS then Null else fields[k]
  }

  function Normalized(content: string, parse: Parser): Result<string, DigestError> {
    match parse(content)
    case Some(Obj(fields)) => Ok(Encode(Obj(Blanked(fields)), true))
    case _ => Err(ArtifactInvalid)
  }

  /** What one file contributes between its two separators. */
  function Contribution(path: string, repo: Repository, parse: Parser): Result<string, DigestError> {
    if path !in repo || repo[path].Unreadable? then Err(FileInvalid)
    else if path in NORMALIZED_ARTIFACTS then Normalized(repo[path].content, parse)
    else Ok(repo[path].content)
  }

  /** The whole pre-hash stream: path, NUL, content, NUL for each file; the first bad file is the error. */
  function Stream(paths: seq<string>, repo: Repository, parse: Parser): Result<string, DigestError> {
    if paths == [] then Ok([])
    else match Contribution(paths[0], repo, parse)
      case Err(e) => Err(e)
      case Ok(content) =>
        match Stream(paths[1..], repo, parse)
        case Err(e) => Err(e)
        case Ok(rest) => Ok(paths[0] + [NUL] + content + [NUL] + rest)
  }

  function Digest(paths: seq<string>, repo: Repository, parse: Parser, hash: Hash): Result<string, DigestError> {
    match Stream(paths, repo, parse)
    case Err(e) => Err(e)
    case Ok(stream) => Ok("sha256:" + hash(stream))
  }

  /** Overwrite the binding fields one by one, as the loop over them does. */
  method NormalizePayload(fields: map<string, Json>) returns (payload: map<string, Json>)
    ensures payload == Blanked(fields)
  {
    payload := fields;
    var remaining := BINDING_FIELDS;
    while remaining != {}
      invariant remaining <= BINDING_FIELDS
      invariant payload == map k | k in fields :: if k in BINDING_FIELDS - remaining then Null else fields[k]
      decreases |remaining|
    {
      var field :| field in remaining;
      if field in payload {
        payload := payload[field := Null];
      }
      remaining := remaining - {field};
    }
  }

  /** The file parses to an object. */
  predicate HoldsObject(content: string, parse: Parser) {
    parse(content).Some? && parse(content).value.Obj?
  }

  /**
    The content of a readable file, as it enters the stream. It tells the file exactly up to its binding
    fields, an artifact's content is free of NULs, and the only error is an artifact that is no object.
   */
  method ReadContent(path: string, repo: Repository, parse: Parser) returns (content: Result<string, DigestError>)
    requires path in repo && repo[path].Regular?
    ensures content == Contribution(path, repo, parse)
    ensures content.Err? <==> path in NORMALIZED_ARTIFACTS && !HoldsObject(repo[path].content, parse)
    ensures content.Ok? ==> forall other ::
      Contribution(path, other, parse) == content <==> SameUpToNormalization(path, repo, other, parse)
    ensures content.Ok? && path in NORMALIZED_ARTIFACTS ==> NulFree(content.value)
  {
    ContributionTells(path, repo, parse);
    if path !in NORMALIZED_ARTIFACTS {
      return Ok(repo[path].content);
    }
    var parsed := parse(repo[path].content);
    if parsed.None? || !parsed.value.Obj? {
      return Err(ArtifactInvalid);
    }
    var payload := NormalizePayload(parsed.value.fields);
    content := Ok(Encode(Obj(payload), true));
  }

  lemma {:induction false} ContributionTells(path: string, repo: Repository, parse: Parser)
    ensures Contribution(path, repo, parse).Ok? ==> forall other ::
      Contribution(path, other, parse) == Contribution(path, repo, parse) <==>
      SameUpToNormalization(path, repo, other, parse)
    ensures Contribution(path, repo, parse).Ok? && path in NORMALIZED_ARTIFACTS ==>
      NulFree(Contribution(path, repo, parse).value)
  {
    if Contribution(path, repo, parse).Ok? {
      forall other
        ensures Contribution(path, other, parse) == Contribution(path, repo, parse) <==>
          SameUpToNormalization(path, repo, other, parse)
      {
        if Contribution(path, other, parse) == Contribution(path, repo, parse) {
          SameContribution(path, repo, other, parse);
        }
      }
      if path in NORMALIZED_ARTIFACTS {
        ContributionNulFree(path, repo, parse);
      }
    }
  }

  /** The first `i` files have been fed: what remains decides between the whole stream and an error. */
  ghost predicate Fed(paths: seq<string>, i: nat, repo: Repository, parse: Parser, fed: string)
    requires i <= |paths|
  {
    match Stream(paths[i..], repo, parse)
    case Err(e) => Stream(paths, repo, parse) == Err(e)
    case Ok(rest) => Stream(paths, repo, parse) == Ok(fed + rest)
  }

  lemma {:induction false} FeedStart(paths: seq<string>, repo: Repository, parse: Parser)
    ensures Fed(paths, 0, repo, parse, [])
  {
    assert paths[0..] == paths;
    assert Stream(paths, repo, parse).Ok? ==> [] + Stream(paths, repo, parse).value == Stream(paths, repo, parse).value;
  }

  lemma {:induction false} FeedStep(paths: seq<string>, i: nat, repo: Repository, parse: Parser, fed: string)
    requires i < |paths| && Fed(paths, i, repo, parse, fed)
    ensures match Contribution(paths[i], repo, parse)
      case Err(e) => Stream(paths, repo, parse) == Err(e)
      case Ok(content) => Fed(paths, i + 1, repo, parse, fed + paths[i] + [NUL] + content + [NUL])
  {
    assert paths[i..] != [] && paths[i..][0] == paths[i] && paths[i..][1..] == paths[i + 1..];
    if Contribution(paths[i], repo, parse).Ok? && Stream(paths[i + 1..], repo, parse).Ok? {
      FeedOne(fed, paths[i], Contribution(paths[i], repo, parse).value, Stream(paths[i + 1..], repo, parse).value);
    }
  }

  lemma {:induction false} FeedOne(fed: string, path: string, content: string, rest: string)
    ensures fed + (path + [NUL] + content + [NUL] + rest) == fed + path + [NUL] + content + [NUL] + rest
  {
  }

  method ComputeReviewedFilesDigest(paths: seq<string>, repo: Repository, parse: Parser, hash: Hash)
    returns (result: Result<string, DigestError>)
    ensures result == Digest(paths, repo, parse, hash)
  {
    var digest := new Hasher();
    FeedStart(paths, repo, parse);
    for i := 0 to |paths|
      invariant fresh(digest) && Fed(paths, i, repo, parse, digest.fed)
    {
      FeedStep(paths, i, repo, parse, digest.fed);
      var path := paths[i];
      if path !in repo || repo[path].Unreadable? {
        return Err(FileInvalid);
      }
      digest.Update(path);
      digest.Update([NUL]);
      var content := ReadContent(path, repo, parse);
      if content.Err? {
        return Err(content.error);
      }
      digest.Update(content.value);
      digest.Update([NUL]);
    }
    var hex := digest.HexDigest(hash);
    assert paths[|paths|..] == [] && digest.fed + [] == digest.fed;
    result := Ok("sha256:" + hex);
  }

  // ----- errors

  /** A file the stream can take: there, regular, and an object where it is one of the three artifacts. */
  predicate Usable(path: string, repo: Repository, parse: Parser) {
    && path in repo && repo[path].Regular?
    && (path in NORMALIZED_ARTIFACTS ==> HoldsObject(repo[path].content, parse))
  }

  /** `i` is the first file the stream cannot take, and `e` says whether it could not be read. */
  ghost predicate FirstBad(paths: seq<string>, repo: Repository, parse: Parser, i: nat, e: DigestError) {
    && i < |paths| && !Usable(paths[i], repo, parse)
    && (forall j :: 0 <= j < i ==> Usable(paths[j], repo, parse))
    && (e == FileInvalid <==> paths[i] !in repo || repo[paths[i]] == Unreadable)
  }

  lemma {:induction false} UsableIff(path: string, repo: Repository, parse: Parser)
    ensures match Contribution(path, repo, parse)
      case Ok(_) => Usable(path, repo, parse)
      case Err(e) => !Usable(path, repo, parse) && (e == FileInvalid <==> path !in repo || repo[path] == Unreadable)
  {
  }

  lemma {:induction false} FirstBadShifts(paths: seq<string>, repo: Repository, parse: Parser, i: nat, e: DigestError)
    requires paths != [] && Usable(paths[0], repo, parse) && FirstBad(paths[1..], repo, parse, i, e)
    ensures FirstBad(paths, repo, parse, i + 1, e)
  {
    assert forall j :: 1 <= j < |paths| ==> paths[j] == paths[1..][j - 1];
  }

  ghost predicate AllUsable(paths: seq<string>, repo: Repository, parse: Parser) {
    forall i :: 0 <= i < |paths| ==> Usable(paths[i], repo, parse)
  }

  lemma {:induction false} StreamFails(paths: seq<string>, repo: Repository, parse: Parser)
    ensures match Stream(paths, repo, parse)
      case Ok(_) => AllUsable(paths, repo, parse)
      case Err(e) => exists i: nat :: FirstBad(paths, repo, parse, i, e)
  {
    if paths != [] {
      UsableIff(paths[0], repo, parse);
      StreamFails(paths[1..], repo, parse);
      if !Usable(paths[0], repo, parse) {
        assert Stream(paths, repo, parse) == Err(Contribution(paths[0], repo, parse).error);
        assert FirstBad(paths, repo, parse, 0, Contribution(paths[0], repo, parse).error);
      } else if Stream(paths[1..], repo, parse).Err? {
        var e := Stream(paths[1..], repo, parse).error;
        var i: nat :| FirstBad(paths[1..], repo, parse, i, e);
        FirstBadShifts(paths, repo, parse, i, e);
        assert Stream(paths, repo, parse) == Err(e);
      } else {
        assert paths == [paths[0]] + paths[1..];
      }
    }
  }

  /** The digest fails exactly when some file is bad, with the error of the first one. */
  lemma {:induction false} FirstBadFileIsTheError(paths: seq<string>, repo: Repository, parse: Parser, hash: Hash)
    ensures Digest(paths, repo, parse, hash).Ok? <==> AllUsable(paths, repo, parse)
    ensures Digest(paths, repo, parse, hash).Err? ==>
      exists i: nat :: FirstBad(paths, repo, parse, i, Digest(paths, repo, parse, hash).error)
  {
    StreamFails(paths, repo, parse);
  }

  // ----- the binding fields do not matter

  /** Two payloads with the same fields, equal outside the binding ones. */
  ghost predicate AgreeOutsideBinding(f: map<string, Json>, g: map<string, Json>) {
    f.Keys == g.Keys && forall k :: k in f && k !in BINDING_FIELDS ==> f[k] == g[k]
  }

  /** Two repositories that differ at most in binding fields of normalised artifacts. */
  ghost predicate DifferInBindingOnly(paths: seq<string>, repo: Repository, other: Repository, parse: Parser) {
    forall i :: 0 <= i < |paths| ==> SameButBinding(paths[i], repo, other, parse)
  }

  ghost predicate SameButBinding(path: string, repo: Repository, other: Repository, parse: Parser) {
    || (path !in repo && path !in other)
    || (path in repo && path in other && repo[path] == other[path])
    || (&& path in NORMALIZED_ARTIFACTS && path in repo && path in other
        && repo[path].Regular? && other[path].Regular?
        && match (parse(repo[path].content), parse(other[path].content))
           case (Some(Obj(f)), Some(Obj(g))) => AgreeOutsideBinding(f, g)
           case _ => false)
  }

  lemma {:induction false} BlankedForgetsBinding(f: map<string, Json>, g: map<string, Json>)
    ensures AgreeOutsideBinding(f, g) <==> Blanked(f) == Blanked(g) && f.Keys == g.Keys
  {
    if f.Keys == g.Keys && Blanked(f) == Blanked(g) {
      forall k | k in f && k !in BINDING_FIELDS
        ensures f[k] == g[k]
      {
        assert Blanked(f)[k] == f[k] && Blanked(g)[k] == g[k];
      }
    }
  }

  /** New values in already present binding fields leave the stream, and so the digest, unchanged. */
  lemma {:induction false} StreamIgnoresBinding(paths: seq<string>, repo: Repository, other: Repository, parse: Parser)
    requires DifferInBindingOnly(paths, repo, other, parse)
    ensures Stream(paths, repo, parse) == Stream(paths, other, parse)
  {
    if paths != [] {
      var path := paths[0];
      assert SameButBinding(path, repo, other, parse);
      forall i | 0 <= i < |paths[1..]|
        ensures SameButBinding(paths[1..][i], repo, other, parse)
      {
        assert SameButBinding(paths[i + 1], repo, other, parse);
      }
      StreamIgnoresBinding(paths[1..], repo, other, parse);
      if path in repo && path in other && repo[path] != other[path] {
        BlankedForgetsBinding(parse(repo[path].content).value.fields, parse(other[path].content).value.fields);
      }
    }
  }

  /** Writing the computed digest into an artifact's binding field leaves the digest fixed. */
  lemma {:induction false} WritingBackIsAFixpoint(
    paths: seq<string>, repo: Repository, parse: Parser, hash: Hash, path: string, field: string, rewritten: string)
    requires path in NORMALIZED_ARTIFACTS && field in BINDING_FIELDS
    requires path in repo && repo[path].Regular?
    requires parse(repo[path].content).Some? && parse(repo[path].content).value.Obj?
    requires field in parse(repo[path].content).value.fields
    requires Digest(paths, repo, parse, hash).Ok?
    requires parse(rewritten) ==
      Some(Obj(parse(repo[path].content).value.fields[field := Str(Digest(paths, repo, parse, hash).value)]))
    ensures Digest(paths, repo[path := Regular(rewritten)], parse, hash) == Digest(paths, repo, parse, hash)
  {
    var other := repo[path := Regular(rewritten)];
    forall i | 0 <= i < |paths|
      ensures SameButBinding(paths[i], repo, other, parse)
    {
    }
    StreamIgnoresBinding(paths, repo, other, parse);
  }

  // ----- the stream determines the contents

  predicate NulFree(text: string) {
    forall i :: 0 <= i < |text| ==> text[i] != NUL
  }

  /** Raw contents are NUL-free; normalised ones always are. */
  ghost predicate RawContentsNulFree(paths: seq<string>, repo: Repository) {
    forall i :: 0 <= i < |paths| && paths[i] in repo && repo[paths[i]].Regular? && paths[i] !in NORMALIZED_ARTIFACTS ==>
      NulFree(repo[paths[i]].content)
  }

  lemma {:induction false} NulSplits(x: string, y: string, s: string, t: string)
    requires NulFree(x) && NulFree(y) && x + [NUL] + s == y + [NUL] + t
    ensures x == y && s == t
  {
    var text := x + [NUL] + s;
    assert text[|x|] == NUL && text[|y|] == NUL;
    assert forall i :: 0 <= i < |x| ==> text[i] == x[i];
    assert forall i :: 0 <= i < |y| ==> text[i] == y[i];
    SplitAt(x + [NUL], s, y + [NUL], t);
    assert (x + [NUL])[..|x|] == x && (y + [NUL])[..|y|] == y;
  }

  lemma {:induction false} DigitsNulFree(n: nat)
    ensures NulFree(Digits(n))
  {
  }

  lemma {:induction false} HexNulFree(n: nat)
    requires n < 0x1_0000
    ensures NulFree(['\\', 'u'] + Hex4(n))
  {
    assert forall m: nat :: m < 16 ==> HexDigit(m) != NUL;
  }

  lemma {:induction false} NulFreeConcat(x: string, y: string)
    requires NulFree(x) && NulFree(y)
    ensures NulFree(x + y)
  {
  }

  lemma {:induction false} PairNulFree(m: nat, n: nat)
    requires m < 0x1_0000 && n < 0x1_0000
    ensures NulFree(['\\', 'u'] + Hex4(m) + ['\\', 'u'] + Hex4(n))
  {
    HexNulFree(m);
    HexNulFree(n);
    NulFreeConcat(['\\', 'u'] + Hex4(m), ['\\', 'u'] + Hex4(n));
    assert ['\\', 'u'] + Hex4(m) + ['\\', 'u'] + Hex4(n) == ['\\', 'u'] + Hex4(m) + (['\\', 'u'] + Hex4(n));
  }

  lemma {:induction false} EscapeNulFree(c: char, ascii: bool)
    ensures NulFree(Escape(c, ascii))
  {
    if FormOf(c, ascii).Unit? {
      HexNulFree(FirstUnit(c));
    } else if FormOf(c, ascii).Pair? {
      PairNulFree(FirstUnit(c), LowUnit(c));
    }
  }

  lemma {:induction false} BodyNulFree(s: string, ascii: bool)
    ensures NulFree(Body(s, ascii))
  {
    if s != [] {
      EscapeNulFree(s[0], ascii);
      BodyNulFree(s[1..], ascii);
    }
  }

  /** The canonical text never contains a NUL. */
  lemma {:induction false} EncodingNulFree(j: Json, ascii: bool)
    ensures NulFree(Encode(j, ascii))
    decreases j, 1, 0
  {
    match j
    case Null =>
    case Bool(_) =>
    case Int(i) => DigitsNulFree(if i < 0 then -i else i);
    case Str(s) => BodyNulFree(s, ascii);
    case Arr(_) => ItemsNulFree(j, 0, ascii);
    case Obj(fields) => FieldsNulFree(j, Sorted(fields.Keys), true, ascii);
  }

  lemma {:induction false} ItemsNulFree(j: Json, k: nat, ascii: bool)
    requires j.Arr? && k <= |j.items|
    ensures NulFree(EncodeItems(j, k, ascii))
    decreases j, 0, |j.items| - k
  {
    if k < |j.items| {
      EncodingNulFree(j.items[k], ascii);
      ItemsNulFree(j, k + 1, ascii);
    }
  }

  lemma {:induction false} FieldsNulFree(j: Json, keys: seq<string>, first: bool, ascii: bool)
    requires j.Obj? && forall k :: k in keys ==> k in j.fields
    ensures NulFree(EncodeFields(j, keys, first, ascii))
    decreases j, 0, |keys|
  {
    if keys != [] {
      BodyNulFree(keys[0], ascii);
      EncodingNulFree(j.fields[keys[0]], ascii);
      FieldsNulFree(j, keys[1..], false, ascii);
    }
  }

  /** The same file up to normalisation. */
  ghost predicate SameUpToNormalization(path: string, repo: Repository, other: Repository, parse: Parser) {
    && path in repo && path in other && repo[path].Regular? && other[path].Regular?
    && if path !in NORMALIZED_ARTIFACTS then repo[path] == other[path]
       else match (parse(repo[path].content), parse(other[path].content))
         case (Some(Obj(f)), Some(Obj(g))) => Blanked(f) == Blanked(g)
         case _ => false
  }

  lemma {:induction false} SameContribution(path: string, repo: Repository, other: Repository, parse: Parser)
    requires Contribution(path, repo, parse).Ok? && Contribution(path, repo, parse) == Contribution(path, other, parse)
    ensures SameUpToNormalization(path, repo, other, parse)
  {
    if path in NORMALIZED_ARTIFACTS {
      var f, g := parse(repo[path].content).value.fields, parse(other[path].content).value.fields;
      EncodingIsInjective(Obj(Blanked(f)), Obj(Blanked(g)), true);
    }
  }

  lemma {:induction false} ContributionNulFree(path: string, repo: Repository, parse: Parser)
    requires Contribution(path, repo, parse).Ok?
    requires path !in NORMALIZED_ARTIFACTS ==> NulFree(repo[path].content)
    ensures NulFree(Contribution(path, repo, parse).value)
  {
    if path in NORMALIZED_ARTIFACTS {
      EncodingNulFree(Obj(Blanked(parse(repo[path].content).value.fields)), true);
    }
  }

  // ----- counting NULs

  function Nuls(text: string): nat {
    if text == [] then 0 else (if text[0] == NUL then 1 else 0) + Nuls(text[1..])
  }

  lemma {:induction false} NulsOfConcat(x: string, y: string)
    ensures Nuls(x + y) == Nuls(x) + Nuls(y)
  {
    if x == [] {
      assert x + y == y;
    } else {
      assert (x + y)[1..] == x[1..] + y;
      NulsOfConcat(x[1..], y);
    }
  }

  lemma {:induction false} NoNulsIff(text: string)
    ensures Nuls(text) == 0 <==> NulFree(text)
  {
    if text != [] {
      NoNulsIff(text[1..]);
      assert NulFree(text) <==> text[0] != NUL && NulFree(text[1..]);
    }
  }

  /** The NULs of all contents, and those of the paths and their separators. */
  function ContentNuls(paths: seq<string>, repo: Repository, parse: Parser): nat {
    if paths == [] then 0
    else
      (match Contribution(paths[0], repo, parse) case Ok(content) => Nuls(content) case Err(_) => 0) +
      ContentNuls(paths[1..], repo, parse)
  }

  function FrameNuls(paths: seq<string>): nat {
    if paths == [] then 0 else Nuls(paths[0]) + 2 + FrameNuls(paths[1..])
  }

  lemma {:induction false} NulsOfFile(path: string, content: string, rest: string)
    ensures Nuls(path + [NUL] + content + [NUL] + rest) == Nuls(path) + 2 + Nuls(content) + Nuls(rest)
  {
    NulsOfConcat(path + [NUL] + content + [NUL], rest);
    NulsOfConcat(path + [NUL] + content, [NUL]);
    NulsOfConcat(path + [NUL], content);
    NulsOfConcat(path, [NUL]);
    assert [NUL][1..] == [];
    assert Nuls([NUL]) == 1 + Nuls([]);
  }

  lemma {:induction false} StreamNuls(paths: seq<string>, repo: Repository, parse: Parser)
    requires Stream(paths, repo, parse).Ok?
    ensures Nuls(Stream(paths, repo, parse).value) == FrameNuls(paths) + ContentNuls(paths, repo, parse)
  {
    if paths != [] {
      StreamNuls(paths[1..], repo, parse);
      NulsOfFile(
        paths[0], Contribution(paths[0], repo, parse).value, Stream(paths[1..], repo, parse).value);
    }
  }

  /** Every file's contribution is free of NULs. */
  ghost predicate AllNulFree(paths: seq<string>, repo: Repository, parse: Parser) {
    forall i :: 0 <= i < |paths| && Contribution(paths[i], repo, parse).Ok? ==>
      NulFree(Contribution(paths[i], repo, parse).value)
  }

  lemma {:induction false} NulFreeIffNoContentNuls(paths: seq<string>, repo: Repository, parse: Parser)
    requires Stream(paths, repo, parse).Ok?
    ensures ContentNuls(paths, repo, parse) == 0 <==> AllNulFree(paths, repo, parse)
  {
    if paths != [] {
      NulFreeIffNoContentNuls(paths[1..], repo, parse);
      NoNulsIff(Contribution(paths[0], repo, parse).value);
      NulFreeTail(paths, repo, parse);
    }
  }

  lemma {:induction false} NulFreeTail(paths: seq<string>, repo: Repository, parse: Parser)
    requires paths != [] && Contribution(paths[0], repo, parse).Ok?
    ensures AllNulFree(paths, repo, parse) <==>
      NulFree(Contribution(paths[0], repo, parse).value) && AllNulFree(paths[1..], repo, parse)
  {
    if AllNulFree(paths, repo, parse) {
      forall i | 0 <= i < |paths[1..]| && Contribution(paths[1..][i], repo, parse).Ok?
        ensures NulFree(Contribution(paths[1..][i], repo, parse).value)
      {
        assert paths[1..][i] == paths[i + 1];
      }
    }
    if NulFree(Contribution(paths[0], repo, parse).value) && AllNulFree(paths[1..], repo, parse) {
      forall i | 0 <= i < |paths| && Contribution(paths[i], repo, parse).Ok?
        ensures NulFree(Contribution(paths[i], repo, parse).value)
      {
        if i > 0 {
          assert paths[1..][i - 1] == paths[i];
        }
      }
    }
  }

  /** Equal streams have equally many NULs: if one repository's contents have none, neither do the other's. */
  lemma {:induction false} NulFreedomIsShared(
    paths: seq<string>, repo: Repository, other: Repository, parse: Parser)
    requires Stream(paths, repo, parse).Ok? && Stream(paths, repo, parse) == Stream(paths, other, parse)
    requires AllNulFree(paths, repo, parse)
    ensures AllNulFree(paths, other, parse)
  {
    StreamNuls(paths, repo, parse);
    StreamNuls(paths, other, parse);
    NulFreeIffNoContentNuls(paths, repo, parse);
    NulFreeIffNoContentNuls(paths, other, parse);
  }

  lemma {:induction false} RawNulFreeMeansAll(paths: seq<string>, repo: Repository, parse: Parser)
    requires RawContentsNulFree(paths, repo)
    ensures AllNulFree(paths, repo, parse)
  {
    forall i | 0 <= i < |paths| && Contribution(paths[i], repo, parse).Ok?
      ensures NulFree(Contribution(paths[i], repo, parse).value)
    {
      ContributionNulFree(paths[i], repo, parse);
    }
  }

  /** Equal streams of NUL-free contents agree on the first file, and on the rest. */
  lemma {:induction false} PeelFile(paths: seq<string>, repo: Repository, other: Repository, parse: Parser)
    requires paths != [] && AllNulFree(paths, repo, parse) && AllNulFree(paths, other, parse)
    requires Stream(paths, repo, parse).Ok? && Stream(paths, repo, parse) == Stream(paths, other, parse)
    ensures Contribution(paths[0], repo, parse).Ok?
    ensures Contribution(paths[0], repo, parse) == Contribution(paths[0], other, parse)
    ensures Stream(paths[1..], repo, parse).Ok? && Stream(paths[1..], repo, parse) == Stream(paths[1..], other, parse)
  {
    var path, rest := paths[0], paths[1..];
    var x, y := Contribution(path, repo, parse).value, Contribution(path, other, parse).value;
    var s, t := Stream(rest, repo, parse).value, Stream(rest, other, parse).value;
    NulFreeTail(paths, repo, parse);
    NulFreeTail(paths, other, parse);
    Reassociate(path, x, s);
    Reassociate(path, y, t);
    SplitAt(path + [NUL], x + [NUL] + s, path + [NUL], y + [NUL] + t);
    NulSplits(x, y, s, t);
  }

  lemma {:induction false} Reassociate(path: string, x: string, s: string)
    ensures path + [NUL] + x + [NUL] + s == (path + [NUL]) + (x + [NUL] + s)
  {
  }

  lemma {:induction false} SameFile(
    paths: seq<string>, repo: Repository, other: Repository, parse: Parser, i: nat)
    requires AllNulFree(paths, repo, parse) && AllNulFree(paths, other, parse)
    requires Stream(paths, repo, parse).Ok? && Stream(paths, repo, parse) == Stream(paths, other, parse)
    requires i < |paths|
    ensures SameUpToNormalization(paths[i], repo, other, parse)
  {
    PeelFile(paths, repo, other, parse);
    if i == 0 {
      SameContribution(paths[0], repo, other, parse);
    } else {
      NulFreeTail(paths, repo, parse);
      NulFreeTail(paths, other, parse);
      SameFile(paths[1..], repo, other, parse, i - 1);
    }
  }

  /**
    Where one repository's raw contents are NUL-free, any repository with the same stream has the same files
    up to normalisation, whatever it holds.
   */
  lemma {:induction false} StreamDeterminesContents(
    paths: seq<string>, repo: Repository, other: Repository, parse: Parser, i: nat)
    requires RawContentsNulFree(paths, repo)
    requires Stream(paths, repo, parse).Ok? && Stream(paths, repo, parse) == Stream(paths, other, parse)
    requires i < |paths|
    ensures SameUpToNormalization(paths[i], repo, other, parse)
  {
    RawNulFreeMeansAll(paths, repo, parse);
    NulFreedomIsShared(paths, repo, other, parse);
    SameFile(paths, repo, other, parse, i);
  }

  // ----- the exact condition

  ghost predicate Distinct(paths: seq<string>) {
    forall i, j :: 0 <= i < j < |paths| ==> paths[i] != paths[j]
  }

  ghost predicate AllRaw(paths: seq<string>) {
    forall i :: 0 <= i < |paths| ==> paths[i] !in NORMALIZED_ARTIFACTS
  }

  ghost predicate AllOk(paths: seq<string>, repo: Repository, parse: Parser) {
    forall i :: 0 <= i < |paths| ==> Contribution(paths[i], repo, parse).Ok?
  }

  lemma {:induction false} OkMeansAllOk(paths: seq<string>, repo: Repository, parse: Parser)
    requires Stream(paths, repo, parse).Ok?
    ensures AllOk(paths, repo, parse)
  {
    if paths != [] {
      OkMeansAllOk(paths[1..], repo, parse);
      forall i | 0 <= i < |paths|
        ensures Contribution(paths[i], repo, parse).Ok?
      {
        if i > 0 {
          assert paths[i] == paths[1..][i - 1];
        }
      }
    }
  }

  /** What stands between the contents of two files: NUL, the second path, NUL. */
  function Frames(paths: seq<string>): (frames: seq<string>)
    requires paths != []
    ensures |frames| + 1 == |paths|
  {
    seq(|paths| - 1, i requires 0 <= i < |paths| - 1 => [NUL] + paths[i + 1] + [NUL])
  }

  ghost function Contents(paths: seq<string>, repo: Repository, parse: Parser): (contents: seq<string>)
    requires AllOk(paths, repo, parse)
    ensures |contents| == |paths|
  {
    seq(|paths|, i requires 0 <= i < |paths| => Contribution(paths[i], repo, parse).value)
  }

  lemma {:induction false} FrameTexts(p: string, c: string, q: string, joined: string)
    ensures p + [NUL] + c + [NUL] + (q + [NUL] + joined + [NUL]) ==
      p + [NUL] + (c + ([NUL] + q + [NUL]) + joined) + [NUL]
  {
  }

  /** The stream is the contents joined by the frames. */
  lemma {:induction false} StreamIsJoined(paths: seq<string>, repo: Repository, parse: Parser)
    requires paths != [] && AllOk(paths, repo, parse)
    ensures Stream(paths, repo, parse) ==
      Ok(paths[0] + [NUL] + Framing.Joined(Frames(paths), Contents(paths, repo, parse)) + [NUL])
  {
    var c := Contribution(paths[0], repo, parse).value;
    if |paths| == 1 {
      assert paths[1..] == [];
      assert paths[0] + [NUL] + c + [NUL] + [] == paths[0] + [NUL] + c + [NUL];
    } else {
      var rest := paths[1..];
      assert AllOk(rest, repo, parse);
      StreamIsJoined(rest, repo, parse);
      assert Frames(paths)[1..] == Frames(rest);
      assert Contents(paths, repo, parse)[1..] == Contents(rest, repo, parse);
      FrameTexts(paths[0], c, rest[0], Framing.Joined(Frames(rest), Contents(rest, repo, parse)));
    }
  }

  /** The same files up to normalisation, path by path. */
  ghost predicate SameFiles(paths: seq<string>, repo: Repository, other: Repository, parse: Parser) {
    forall i :: 0 <= i < |paths| ==> SameUpToNormalization(paths[i], repo, other, parse)
  }

  /** Any repository with the same stream has the same files. */
  ghost predicate StreamPins(paths: seq<string>, repo: Repository, parse: Parser) {
    forall other :: Stream(paths, other, parse) == Stream(paths, repo, parse) ==> SameFiles(paths, repo, other, parse)
  }

  /** Each path's frame stands out between the content of the file before it and its own. */
  ghost predicate FramesUnique(paths: seq<string>, repo: Repository, parse: Parser)
    requires paths != [] && AllOk(paths, repo, parse)
  {
    Framing.AllFramesUnique(Frames(paths), Contents(paths, repo, parse))
  }

  lemma {:induction false} UnwrapEnds(p: string, x: string, y: string)
    requires p + [NUL] + x + [NUL] == p + [NUL] + y + [NUL]
    ensures x == y
  {
    var head := p + [NUL];
    assert |x| == |y|;
    SplitAt(head + x, [NUL], head + y, [NUL]);
    SplitAt(head, x, head, y);
  }

  /** Where every frame stands out, the stream determines the files, normalised artifacts included. */
  lemma {:induction false} UniqueFramesPin(paths: seq<string>, repo: Repository, other: Repository, parse: Parser)
    requires paths != [] && AllOk(paths, repo, parse) && FramesUnique(paths, repo, parse)
    requires Stream(paths, other, parse) == Stream(paths, repo, parse)
    ensures SameFiles(paths, repo, other, parse)
  {
    StreamIsJoined(paths, repo, parse);
    OkMeansAllOk(paths, other, parse);
    StreamIsJoined(paths, other, parse);
    var contents, contents' := Contents(paths, repo, parse), Contents(paths, other, parse);
    UnwrapEnds(paths[0], Framing.Joined(Frames(paths), contents), Framing.Joined(Frames(paths), contents'));
    Framing.UniqueFramesPin(Frames(paths), contents, contents');
    forall i | 0 <= i < |paths|
      ensures SameUpToNormalization(paths[i], repo, other, parse)
    {
      assert contents[i] == contents'[i];
      SameContribution(paths[i], repo, other, parse);
    }
  }

  /** Two neighbouring raw files of a list. */
  ghost predicate RawNeighbours(paths: seq<string>, i: nat) {
    i + 1 < |paths| && paths[i] !in NORMALIZED_ARTIFACTS && paths[i + 1] !in NORMALIZED_ARTIFACTS
  }

  function Rewrite(paths: seq<string>, repo: Repository, i: nat, first: string, second: string): Repository
    requires i + 1 < |paths|
  {
    repo[paths[i] := Regular(first)][paths[i + 1] := Regular(second)]
  }

  lemma {:induction false} RewriteReads(
    paths: seq<string>, repo: Repository, parse: Parser, i: nat, first: string, second: string)
    requires AllOk(paths, repo, parse) && Distinct(paths) && RawNeighbours(paths, i)
    ensures AllOk(paths, Rewrite(paths, repo, i, first, second), parse)
    ensures Contents(paths, Rewrite(paths, repo, i, first, second), parse) ==
      Contents(paths, repo, parse)[i := first][i + 1 := second]
  {
    var other := Rewrite(paths, repo, i, first, second);
    forall k | 0 <= k < |paths|
      ensures Contribution(paths[k], other, parse) ==
        if k == i then Ok(first) else if k == i + 1 then Ok(second) else Contribution(paths[k], repo, parse)
    {
      assert k != i ==> paths[k] != paths[i];
      assert k != i + 1 ==> paths[k] != paths[i + 1];
    }
  }

  /** An ambiguous frame between raw neighbours: the two, and nothing else, can be filled differently for one stream. */
  lemma {:induction false} AmbiguousNeighbours(paths: seq<string>, repo: Repository, parse: Parser, i: nat)
    returns (first: string, second: string)
    requires AllOk(paths, repo, parse) && Distinct(paths) && RawNeighbours(paths, i)
    requires !Framing.FrameIsUnique(
      repo[paths[i]].content, [NUL] + paths[i + 1] + [NUL], repo[paths[i + 1]].content)
    ensures Stream(paths, Rewrite(paths, repo, i, first, second), parse) == Stream(paths, repo, parse)
    ensures first != repo[paths[i]].content
  {
    var frames, contents := Frames(paths), Contents(paths, repo, parse);
    first, second := Framing.AmbiguousFrame(contents[i], frames[i], contents[i + 1]);
    RewriteReads(paths, repo, parse, i, first, second);
    Framing.SecondReadingJoins(frames, contents, i, first, second);
    StreamIsJoined(paths, repo, parse);
    StreamIsJoined(paths, Rewrite(paths, repo, i, first, second), parse);
  }

  /**
    The stream of raw files determines them exactly when every frame stands out: NUL, path, NUL occurs in the
    content before it and the frame only at the end, and in the frame and the content after it only at the start.
   */
  lemma {:induction false} RawStreamPinsIff(paths: seq<string>, repo: Repository, parse: Parser)
    requires paths != [] && AllRaw(paths) && AllOk(paths, repo, parse) && Distinct(paths)
    ensures StreamPins(paths, repo, parse) <==> FramesUnique(paths, repo, parse)
  {
    if FramesUnique(paths, repo, parse) {
      FramesPin(paths, repo, parse);
    } else {
      var frames, contents := Frames(paths), Contents(paths, repo, parse);
      var i :| 0 <= i < |frames| && !Framing.FrameIsUnique(contents[i], frames[i], contents[i + 1]);
      PinsFail(paths, repo, parse, i);
    }
  }

  lemma {:induction false} FramesPin(paths: seq<string>, repo: Repository, parse: Parser)
    requires paths != [] && AllOk(paths, repo, parse) && FramesUnique(paths, repo, parse)
    ensures StreamPins(paths, repo, parse)
  {
    forall other | Stream(paths, other, parse) == Stream(paths, repo, parse)
      ensures SameFiles(paths, repo, other, parse)
    {
      UniqueFramesPin(paths, repo, other, parse);
    }
  }

  lemma {:induction false} PinsFail(paths: seq<string>, repo: Repository, parse: Parser, i: nat)
    requires AllOk(paths, repo, parse) && Distinct(paths) && RawNeighbours(paths, i)
    requires !Framing.FrameIsUnique(
      repo[paths[i]].content, [NUL] + paths[i + 1] + [NUL], repo[paths[i + 1]].content)
    ensures !StreamPins(paths, repo, parse)
  {
    var first, second := AmbiguousNeighbours(paths, repo, parse, i);
    var other := Rewrite(paths, repo, i, first, second);
    assert paths[i] != paths[i + 1];
    assert !SameUpToNormalization(paths[i], repo, other, parse);
    assert !SameFiles(paths, repo, other, parse);
  }

  /**
    With NULs allowed, any list in which two raw files are neighbours is ambiguous: whatever the other files
    hold, the two can be filled in two ways that give one stream.
   */
  lemma {:induction false} NulBreaksFraming(paths: seq<string>, i: nat, base: Repository, parse: Parser)
    returns (first: string, second: string, first': string, second': string)
    requires AllOk(paths, base, parse) && Distinct(paths) && RawNeighbours(paths, i)
    ensures first' != first
    ensures Stream(paths, Rewrite(paths, base, i, first, second), parse).Ok?
    ensures Stream(paths, Rewrite(paths, base, i, first, second), parse) ==
      Stream(paths, Rewrite(paths, base, i, first', second'), parse)
  {
    var frame := [NUL] + paths[i + 1] + [NUL];
    first, second := frame, [];
    assert Framing.OccursAt(frame, frame + frame, 0);
    RewriteReads(paths, base, parse, i, first, second);
    var repo := Rewrite(paths, base, i, first, second);
    assert paths[i] != paths[i + 1];
    StreamIsJoined(paths, repo, parse);
    first', second' := AmbiguousNeighbours(paths, repo, parse, i);
    assert Rewrite(paths, repo, i, first', second') == Rewrite(paths, base, i, first', second');
  }
}
