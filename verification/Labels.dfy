/** The string shapes the frozen artifacts are made of, and the digests that pin them. */
module Labels {
  import opened Json

  predicate IsAlphanumeric(c: char) {
    '0' <= c <= '9' || 'A' <= c <= 'Z' || 'a' <= c <= 'z'
  }

  /** `^[A-Za-z0-9][A-Za-z0-9_.:/-]{0,127}$` */
  predicate IsSafeLabel(s: string) {
    && 1 <= |s| <= 128
    && IsAlphanumeric(s[0])
    && forall i :: 0 <= i < |s| ==> IsAlphanumeric(s[i]) || s[i] in {'_', '.', ':', '/', '-'}
  }

  const SHA256_PREFIX: string := "sha256:"

  /** `^sha256:[0-9a-f]{64}$` */
  predicate IsSha256Label(s: string) {
    && |s| == 71
    && SHA256_PREFIX <= s
    && forall i :: 7 <= i < 71 ==> '0' <= s[i] <= '9' || 'a' <= s[i] <= 'f'
  }

  /** A JSON object with exactly the given keys. */
  predicate IsExactMapping(j: Json, keys: set<string>) {
    j.Obj? && j.fields.Keys == keys
  }

  predicate NoDuplicates(items: seq<Json>) {
    forall i, j :: 0 <= i < j < |items| ==> items[i] != items[j]
  }

  /** A list of at most 32 distinct labels. */
  predicate AreEvidenceRefs(j: Json) {
    && j.Arr? && |j.items| <= 32
    && (forall i :: 0 <= i < |j.items| ==> j.items[i].Str? && IsSafeLabel(j.items[i].s))
    && NoDuplicates(j.items)
  }

  // ----- digests

  /** The hash is a parameter: any function from texts to hexadecimal strings. */
  type Hash = string -> string

  ghost function DigestOf(hash: Hash, payload: Json): string {
    SHA256_PREFIX + hash(Encode(payload, false))
  }

  ghost predicate Collide(hash: Hash, a: Json, b: Json) {
    Encode(a, false) != Encode(b, false) && hash(Encode(a, false)) == hash(Encode(b, false))
  }

  /** Equal digests mean equal payloads, or a collision of the hash on their two texts. */
  lemma {:induction false} DigestPins(hash: Hash, a: Json, b: Json)
    requires DigestOf(hash, a) == DigestOf(hash, b)
    ensures a == b || Collide(hash, a, b)
  {
    assert DigestOf(hash, a)[7..] == hash(Encode(a, false));
    assert DigestOf(hash, b)[7..] == hash(Encode(b, false));
    if Encode(a, false) == Encode(b, false) {
      EncodingIsInjective(a, b, false);
    }
  }
}
