/** One concrete bundle: what the validators accept together is not empty. */
module BundleExample {
  import opened Wrappers
  import opened Json
  import opened Labels
  import opened Evidence
  import Profile
  import Manifest
  import Bundle

  // ----- evidence that is accepted

  /** Every capability confirmed, except that excess size cannot reverse a position. */
  function Answer(name: string): Json {
    if name == KeyName(ExcessSizeCanReversePosition) then Str("CONFIRMED_NO") else Str(CONFIRMED_YES)
  }

  const REFS: Json := Arr([Str("REF")])

  ghost const ANSWERS: Json := Obj(map name | name in CAPABILITY_KEYS :: Answer(name))

  ghost function Record(name: string): Json {
    Obj(map[
      "schema" := Str(Evidence.SCHEMA), "profile_label" := Str(name), "capabilities" := ANSWERS,
      "official_evidence_refs" := REFS])
  }

  /** A label a frozen profile may carry. */
  predicate IsFreezable(name: string) {
    IsSafeLabel(name) && !Profile.IsPending(name)
  }

  lemma {:induction false} RecordReads(name: string)
    ensures IsExactMapping(Record(name), {"schema", "profile_label", "capabilities", "official_evidence_refs"})
    ensures Member(Record(name), "schema") == Str(Evidence.SCHEMA) && Member(Record(name), "profile_label") == Str(name)
    ensures Member(Record(name), "capabilities") == ANSWERS && Member(Record(name), "official_evidence_refs") == REFS
  {
    assert "schema"[0] == 's' && "profile_label"[0] == 'p' && "capabilities"[0] == 'c';
    assert "official_evidence_refs"[0] == 'o';
  }

  lemma {:induction false} ExcessIsApart(k: Key)
    ensures KeyName(k) == KeyName(ExcessSizeCanReversePosition) ==> k == ExcessSizeCanReversePosition
  {
    assert k != ExcessSizeCanReversePosition ==> KeyName(k)[0] != 'e';
    assert KeyName(ExcessSizeCanReversePosition)[0] == 'e';
  }

  lemma {:induction false} AnswerRead(name: string, k: Key)
    ensures CapabilityIn(Record(name), k) ==
      Some(if k == ExcessSizeCanReversePosition then ConfirmedNo else ConfirmedYes)
  {
    RecordReads(name);
    ExcessIsApart(k);
    assert KeyName(k) in CAPABILITY_KEYS;
    assert Text(ANSWERS, KeyName(k)) == Some(Answer(KeyName(k)).s);
    assert |"CONFIRMED_NO"| == 12 && |CONFIRMED_YES| == 13;
  }

  lemma {:induction false} RefsAreRefs()
    ensures AreEvidenceRefs(REFS) && REFS.items != []
  {
    assert "REF"[0] == 'R' && "REF"[1] == 'E' && "REF"[2] == 'F' && |"REF"| == 3;
  }

  lemma {:induction false} SafeX()
    ensures IsSafeLabel("X") && !Profile.IsPending("X") && !Manifest.IsPending(Str("X"))
  {
    assert "X"[0] == 'X' && |"X"| == 1 && |"PENDING_"| == 8 && |"PENDING"| == 7;
  }

  lemma {:induction false} AnswersAreAccepted(c: Capabilities)
    requires forall k :: c(k) == if k == ExcessSizeCanReversePosition then ConfirmedNo else ConfirmedYes
    ensures VerdictOf(c, true) == Accept
  {
    assert ExpiryGate(c) == Pass && FillGate(c) == Pass;
    forall code
      ensures !Rejects(code, c) && !AsksFollowup(code, c, true)
    {
    }
  }

  lemma {:induction false} IsAccepted(record: Json, hash: Hash, name: string)
    requires IsFreezable(name)
    requires IsExactMapping(record, {"schema", "profile_label", "capabilities", "official_evidence_refs"})
    requires Member(record, "schema") == Str(Evidence.SCHEMA) && Member(record, "profile_label") == Str(name)
    requires IsExactMapping(Member(record, "capabilities"), CAPABILITY_KEYS)
    requires Member(record, "official_evidence_refs") == REFS
    requires forall k ::
      CapabilityIn(record, k) == Some(if k == ExcessSizeCanReversePosition then ConfirmedNo else ConfirmedYes)
    ensures Evaluate(hash, record) == Some(Acceptance(name, DigestOf(hash, record), Accept))
  {
    RefsAreRefs();
    AnswersAreAccepted(CapabilitiesOf(record));
  }

  lemma {:induction false} RecordIsAccepted(hash: Hash, name: string)
    requires IsFreezable(name)
    ensures Evaluate(hash, Record(name)) == Some(Acceptance(name, DigestOf(hash, Record(name)), Accept))
    ensures CapabilityIn(Record(name), NoPendingEntry) == Some(ConfirmedYes)
    ensures Member(Record(name), "official_evidence_refs") == REFS
  {
    RecordReads(name);
    forall k
      ensures CapabilityIn(Record(name), k) ==
      Some(if k == ExcessSizeCanReversePosition then ConfirmedNo else ConfirmedYes)
    {
      AnswerRead(name, k);
    }
    IsAccepted(Record(name), hash, name);
  }

  // ----- a profile that binds it

  const SPECIAL_KEYS: set<string> := {
    "profile_schema", "profile_status", "profile_label", "entry_mode", "ownership_contract",
    "official_evidence_refs", "accepted_evidence_digest", "safety"}

  /** Label fields, capability flags and the other fields have different names. */
  ghost predicate NamesApart(names: Profile.FieldNames) {
    && names.all == names.labels + names.flags + SPECIAL_KEYS
    && names.labels !! names.flags && names.labels !! SPECIAL_KEYS && names.flags !! SPECIAL_KEYS
  }

  ghost function Special(names: Profile.FieldNames, hash: Hash, name: string): map<string, Json> {
    map[
      "profile_schema" := Str(Profile.FROZEN_SCHEMA), "profile_status" := Str(Profile.FROZEN_STATUS),
      "profile_label" := Str(name), "entry_mode" := Str("IMMEDIATE"),
      "ownership_contract" := Str("DEDICATED_ACCOUNT"), "official_evidence_refs" := REFS,
      "accepted_evidence_digest" := Str(DigestOf(hash, Record(name))),
      "safety" := Obj(map k | k in names.safety :: Bool(false))]
  }

  ghost function ProfileFor(names: Profile.FieldNames, hash: Hash, name: string): Json {
    Obj((map k | k in names.labels :: Str("X")) + (map k | k in names.flags :: Bool(true)) + Special(names, hash, name))
  }

  lemma {:induction false} SpecialKeysDiffer()
    ensures "profile_schema" != "profile_status"
    ensures "profile_label" !in {"profile_schema", "profile_status"}
    ensures {"entry_mode", "ownership_contract", "official_evidence_refs", "accepted_evidence_digest", "safety"} !!
      {"profile_schema", "profile_status", "profile_label"}
    ensures "ownership_contract" != "official_evidence_refs"
    ensures {"entry_mode", "accepted_evidence_digest", "safety"} !! {"ownership_contract", "official_evidence_refs"}
    ensures "entry_mode" != "safety" && "accepted_evidence_digest" !in {"entry_mode", "safety"}
  {
    assert "profile_schema"[9] == 'c' && "profile_status"[9] == 't';
    assert |"profile_schema"| == |"profile_status"| == 14 && |"profile_label"| == 13 && |"entry_mode"| == 10;
    assert |"ownership_contract"| == 18 && |"official_evidence_refs"| == 22;
    assert |"accepted_evidence_digest"| == 24 && |"safety"| == 6;
  }

  lemma {:induction false} SpecialReads(names: Profile.FieldNames, hash: Hash, name: string)
    ensures var special := Special(names, hash, name);
      && special.Keys == SPECIAL_KEYS
      && special["profile_schema"] == Str(Profile.FROZEN_SCHEMA)
      && special["profile_status"] == Str(Profile.FROZEN_STATUS)
      && special["profile_label"] == Str(name) && special["entry_mode"] == Str("IMMEDIATE")
      && special["ownership_contract"] == Str("DEDICATED_ACCOUNT") && special["official_evidence_refs"] == REFS
      && special["accepted_evidence_digest"] == Str(DigestOf(hash, Record(name)))
      && special["safety"] == Obj(map k | k in names.safety :: Bool(false))
  {
    SpecialKeysDiffer();
  }

  /** What a profile of this shape holds. */
  ghost predicate IsProfileFor(names: Profile.FieldNames, p: Json, digest: string, name: string) {
    && IsExactMapping(p, names.all)
    && (forall k :: k in names.labels ==> Member(p, k) == Str("X"))
    && (forall k :: k in names.flags ==> Member(p, k) == Bool(true))
    && Member(p, "profile_schema") == Str(Profile.FROZEN_SCHEMA)
    && Member(p, "profile_status") == Str(Profile.FROZEN_STATUS)
    && Member(p, "profile_label") == Str(name) && Member(p, "entry_mode") == Str("IMMEDIATE")
    && Member(p, "ownership_contract") == Str("DEDICATED_ACCOUNT")
    && Member(p, "official_evidence_refs") == REFS && Member(p, "accepted_evidence_digest") == Str(digest)
    && Member(p, "safety") == Obj(map k | k in names.safety :: Bool(false))
  }

  /** Merging three maps with no key in common. */
  lemma {:induction false} MergedReads(labels: set<string>, flags: set<string>, special: map<string, Json>)
    requires labels !! flags && labels !! special.Keys && flags !! special.Keys
    ensures var p := Obj((map k | k in labels :: Str("X")) + (map k | k in flags :: Bool(true)) + special);
      && p.fields.Keys == labels + flags + special.Keys
      && (forall k :: k in labels ==> Member(p, k) == Str("X"))
      && (forall k :: k in flags ==> Member(p, k) == Bool(true))
      && (forall k :: k in special ==> Member(p, k) == special[k])
  {
  }

  lemma {:induction false} ProfileReads(names: Profile.FieldNames, hash: Hash, name: string)
    requires NamesApart(names)
    ensures IsProfileFor(names, ProfileFor(names, hash, name), DigestOf(hash, Record(name)), name)
  {
    SpecialReads(names, hash, name);
    MergedReads(names.labels, names.flags, Special(names, hash, name));
  }

  lemma {:induction false} SafeWords()
    ensures IsSafeLabel("IMMEDIATE") && !Profile.IsPending("IMMEDIATE")
    ensures IsSafeLabel("DEDICATED_ACCOUNT") && !Profile.IsPending("DEDICATED_ACCOUNT")
    ensures !Profile.IsPending(Profile.FROZEN_SCHEMA) && !Profile.IsPending(Profile.FROZEN_STATUS)
    ensures !Profile.IsPending("REF")
  {
    assert "PENDING_"[0] == 'P' && "IMMEDIATE"[0] == 'I' && "DEDICATED_ACCOUNT"[0] == 'D' && "REF"[0] == 'R';
    assert Profile.FROZEN_SCHEMA[0] == 'H' && Profile.FROZEN_STATUS[0] == 'O';
  }

  lemma {:induction false} ShaIsNotPending(digest: string)
    requires IsSha256Label(digest)
    ensures !Profile.IsPending(digest)
  {
    assert digest[0] == 's' && "PENDING_"[0] == 'P';
  }

  lemma {:induction false} IsWellFormedProfile(names: Profile.FieldNames, p: Json, digest: string, name: string)
    requires NamesApart(names) && IsProfileFor(names, p, digest, name) && IsFreezable(name) && IsSha256Label(digest)
    ensures Profile.IsWellFormed(names, p, Acceptance(name, digest, Accept), false)
  {
    SafeX();
    SafeWords();
    RefsAreRefs();
  }

  lemma {:induction false} NothingPending(names: Profile.FieldNames, p: Json, digest: string, name: string)
    requires NamesApart(names) && IsProfileFor(names, p, digest, name) && IsFreezable(name) && IsSha256Label(digest)
    ensures !Profile.ContainsPending(p)
  {
    SafeX();
    SafeWords();
    ShaIsNotPending(digest);
    assert !Profile.ContainsPending(REFS);
    assert !Profile.ContainsPending(Obj(map k | k in names.safety :: Bool(false)));
    forall k | k in p.fields
      ensures !Profile.ContainsPending(p.fields[k])
    {
      assert k in names.labels || k in names.flags || k in SPECIAL_KEYS;
      assert p.fields[k] == Member(p, k);
    }
  }

  lemma {:induction false} Binds(names: Profile.FieldNames, hash: Hash, p: Json, record: Json, name: string)
    requires NamesApart(names) && IsProfileFor(names, p, DigestOf(hash, record), name) && IsFreezable(name)
    requires IsSha256Label(DigestOf(hash, record))
    requires Evaluate(hash, record) == Some(Acceptance(name, DigestOf(hash, record), Accept))
    requires CapabilityIn(record, NoPendingEntry) == Some(ConfirmedYes)
    requires Member(record, "official_evidence_refs") == REFS
    ensures Profile.ValidateAndBind(names, hash, p, record, false).Some?
  {
    IsWellFormedProfile(names, p, DigestOf(hash, record), name);
    NothingPending(names, p, DigestOf(hash, record), name);
    ModesDiffer();
  }

  lemma {:induction false} ProfileBinds(names: Profile.FieldNames, hash: Hash, name: string)
    requires NamesApart(names) && Bundle.IsHexHash(hash) && IsFreezable(name)
    ensures Profile.ValidateAndBind(names, hash, ProfileFor(names, hash, name), Record(name), false).Some?
    ensures Text(ProfileFor(names, hash, name), "ownership_contract") == Some("DEDICATED_ACCOUNT")
    ensures Member(ProfileFor(names, hash, name), "profile_label") == Str(name)
  {
    ProfileReads(names, hash, name);
    assert IsSha256Label(SHA256_PREFIX + hash(Encode(Record(name), false)));
    RecordIsAccepted(hash, name);
    Binds(names, hash, ProfileFor(names, hash, name), Record(name), name);
  }

  lemma {:induction false} ModesDiffer()
    ensures "PENDING" != "IMMEDIATE"
  {
    assert "PENDING"[0] == 'P' && "IMMEDIATE"[0] == 'I';
  }

  // ----- the real names

  predicate LabelShape(k: string) {
    |k| in {12, 19, 21, 23, 24, 27, 28, 29} && k[0] != 'a' && k[0] != 's' && (|k| == 28 ==> k[1] == 'r')
  }

  predicate FlagShape(k: string) {
    |k| in {21, 23, 28, 32} && (k[0] == 'a' || k[0] == 's' || (|k| == 28 && k[1] == 'o'))
  }

  predicate SpecialShape(k: string) {
    |k| in {6, 10, 13, 14, 18, 22, 24} && (|k| == 24 ==> k[0] == 'a')
  }

  lemma {:induction false} LabelShapes()
    ensures forall k :: k in Profile.LABEL_KEYS ==> LabelShape(k)
  {
  }

  lemma {:induction false} FlagShapes()
    ensures forall k :: k in Profile.CAPABILITY_FLAGS ==> FlagShape(k)
  {
  }

  lemma {:induction false} SpecialShapes()
    ensures forall k :: k in SPECIAL_KEYS ==> SpecialShape(k)
  {
  }

  lemma {:induction false} ShapesApart(labels: set<string>, flags: set<string>, special: set<string>)
    requires forall k :: k in labels ==> LabelShape(k)
    requires forall k :: k in flags ==> FlagShape(k)
    requires forall k :: k in special ==> SpecialShape(k)
    ensures labels !! flags && labels !! special && flags !! special
  {
  }

  lemma {:induction false} RealNamesApart()
    ensures NamesApart(Profile.NAMES)
  {
    LabelShapes();
    FlagShapes();
    SpecialShapes();
    ShapesApart(Profile.LABEL_KEYS, Profile.CAPABILITY_FLAGS, SPECIAL_KEYS);
  }

  /** With any hash that answers in hexadecimal, some bundle verifies against the real tables. */
  lemma {:induction false} SomeBundleVerifies(hash: Hash) returns (m: Json, p: Json, e: Json)
    requires Bundle.IsHexHash(hash)
    ensures Bundle.VerifyFrozenBundle(Bundle.TABLES, hash, m, p, e).Some?
  {
    p, e := ProfileFor(Profile.NAMES, hash, "X"), Record("X");
    SafeX();
    RealNamesApart();
    ProfileBinds(Profile.NAMES, hash, "X");
    Bundle.TablesQualify();
    m := Bundle.BundleCanBeMade(Bundle.TABLES, hash, p, e);
  }

  // ----- a frozen profile that no manifest can name

  const UNNAMEABLE: string := "PENDINGS"

  lemma {:induction false} UnnameableIsFreezable()
    ensures IsFreezable(UNNAMEABLE) && Manifest.IsPending(Str(UNNAMEABLE))
  {
    assert |UNNAMEABLE| == 8 && |"PENDING_ENTRY"| == 13;
    assert UNNAMEABLE[7] == 'S' && "PENDING_"[7] == '_';
  }

  /**
    The validators disagree on what is pending: this profile freezes, bound to its accepted evidence and on a
    dedicated account, yet no manifest verifies with it.
   */
  lemma {:induction false} FrozenButNeverBundled(hash: Hash) returns (p: Json, e: Json)
    requires Bundle.IsHexHash(hash)
    ensures Profile.ValidateAndBind(Profile.NAMES, hash, p, e, false).Some?
    ensures Text(p, "profile_label") == Some("PENDINGS") && Text(p, "ownership_contract") == Some("DEDICATED_ACCOUNT")
    ensures forall m :: Bundle.VerifyFrozenBundle(Bundle.TABLES, hash, m, p, e).None?
  {
    p, e := ProfileFor(Profile.NAMES, hash, UNNAMEABLE), Record(UNNAMEABLE);
    UnnameableIsFreezable();
    RealNamesApart();
    ProfileBinds(Profile.NAMES, hash, UNNAMEABLE);
    Bundle.TablesQualify();
    Bundle.BundlableIff(Bundle.TABLES, hash, p, e);
  }
}
