/** The frozen bundle: manifest, profile and evidence verified against each other. */
module Bundle {
  import opened Wrappers
  import opened Json
  import opened Labels
  import Evidence
  import Profile
  import Manifest

  const BUNDLE_SCHEMA: string := "H11_AUTO_FROZEN_ARTIFACT_BUNDLE_V1"

  /** The manifest's field table and the profile's field names; the laws below hold for every pair. */
  datatype Tables = Tables(schema: Manifest.Schema, names: Profile.FieldNames)

  const TABLES: Tables := Tables(Manifest.SCHEMA, Profile.NAMES)

  datatype Verification = Verification(
    generationLabel: string, profileLabel: string, entryStyle: string,
    manifestDigest: string, profileDigest: string, evidenceDigest: string, bundleDigest: string)

  function ExpectedStyle(entryMode: string): string {
    if entryMode == "PENDING" then "PENDING_ENTRY" else "IMMEDIATE_ENTRY"
  }

  /** The manifest names this profile, by label, digest, entry style and ownership. */
  ghost predicate Coherent(hash: Hash, m: Json, p: Json) {
    && Manifest.Field(m, "entry", "execution_profile_label") == Evidence.Member(p, "profile_label")
    && Manifest.Field(m, "entry", "execution_profile_hash") == Str(DigestOf(hash, p))
    && Evidence.Text(p, "entry_mode").Some?
    && Manifest.Field(m, "entry", "entry_style") == Str(ExpectedStyle(Evidence.Text(p, "entry_mode").value))
    && (Manifest.Field(m, "ownership", "account_mode") == Str("DEDICATED") ==>
          Evidence.Text(p, "ownership_contract") == Some("DEDICATED_ACCOUNT"))
  }

  ghost function DigestPayload(hash: Hash, m: Json, p: Json, e: Json): Json {
    Obj(map[
      "bundle_schema" := Str(BUNDLE_SCHEMA),
      "generation_label" := Manifest.Field(m, "identity", "generation_label"),
      "profile_digest" := Str(DigestOf(hash, p)),
      "evidence_digest" := Str(DigestOf(hash, e)),
      "manifest_digest" := Str(DigestOf(hash, m))])
  }

  ghost predicate Verifies(tables: Tables, hash: Hash, m: Json, p: Json, e: Json) {
    && Manifest.IsValid(tables.schema, m, false)
    && Profile.ValidateAndBind(tables.names, hash, p, e, false).Some?
    && Profile.ValidateAndBind(tables.names, hash, p, e, false).value.verdict == Evidence.Accept
    && Coherent(hash, m, p)
  }

  ghost function TextOf(j: Json): string {
    if j.Str? then j.s else ""
  }

  /** Verify one bundle; `None` is the error. */
  ghost function VerifyFrozenBundle(tables: Tables, hash: Hash, m: Json, p: Json, e: Json): Option<Verification> {
    if !Verifies(tables, hash, m, p, e) then None
    else Some(Verification(
      TextOf(Manifest.Field(m, "identity", "generation_label")),
      TextOf(Evidence.Member(p, "profile_label")),
      TextOf(Manifest.Field(m, "entry", "entry_style")),
      DigestOf(hash, m), DigestOf(hash, p), DigestOf(hash, e),
      DigestOf(hash, DigestPayload(hash, m, p, e))))
  }

  /** What a verification reports: the labels and style of the artifacts, and the digest of each. */
  lemma {:induction false} VerificationReports(tables: Tables, hash: Hash, m: Json, p: Json, e: Json)
    requires VerifyFrozenBundle(tables, hash, m, p, e).Some?
    ensures var v := VerifyFrozenBundle(tables, hash, m, p, e).value;
      && Evidence.Text(p, "profile_label") == Some(v.profileLabel)
      && Manifest.Field(m, "entry", "execution_profile_label") == Str(v.profileLabel)
      && Manifest.Field(m, "entry", "entry_style") == Str(v.entryStyle)
      && (v.entryStyle == "PENDING_ENTRY" <==> Evidence.Text(p, "entry_mode") == Some("PENDING"))
      && (v.entryStyle == "IMMEDIATE_ENTRY" <==> Evidence.Text(p, "entry_mode") == Some("IMMEDIATE"))
      && v.manifestDigest == DigestOf(hash, m)
      && Manifest.Field(m, "entry", "execution_profile_hash") == Str(v.profileDigest) == Str(DigestOf(hash, p))
      && Evidence.Text(p, "accepted_evidence_digest") == Some(v.evidenceDigest) == Some(DigestOf(hash, e))
  {
    StylesDiffer();
    Profile.FrozenModeIsBacked(tables.names, hash, p, e);
    Profile.PinnedDigest(tables.names, hash, p, e);
    assert "PENDING"[0] == 'P' && "IMMEDIATE"[0] == 'I';
  }

  /** No two of the texts that were hashed collide. */
  ghost predicate NoCollision(hash: Hash, a: Json, b: Json) {
    !Collide(hash, a, b)
  }

  /** A manifest pins its whole bundle: whatever verifies against it is the same profile and the same evidence. */
  lemma {:induction false} ManifestPinsBundle(tables: Tables, hash: Hash, m: Json, p: Json, e: Json, p': Json, e': Json)
    requires VerifyFrozenBundle(tables, hash, m, p, e).Some? && VerifyFrozenBundle(tables, hash, m, p', e').Some?
    requires NoCollision(hash, p, p') && NoCollision(hash, e, e')
    ensures p == p' && e == e'
    ensures VerifyFrozenBundle(tables, hash, m, p, e) == VerifyFrozenBundle(tables, hash, m, p', e')
  {
    DigestPins(hash, p, p');
    Profile.ProfilePinsEvidence(tables.names, hash, p, e, e');
  }

  lemma {:induction false} PayloadNamesManifest(hash: Hash, m: Json, p: Json, e: Json, m': Json, p': Json, e': Json)
    requires DigestPayload(hash, m, p, e) == DigestPayload(hash, m', p', e')
    ensures DigestOf(hash, m) == DigestOf(hash, m')
  {
    assert DigestPayload(hash, m, p, e).fields["manifest_digest"] == Str(DigestOf(hash, m));
    assert DigestPayload(hash, m', p', e').fields["manifest_digest"] == Str(DigestOf(hash, m'));
  }

  /** The bundle digest pins all three artifacts. */
  lemma {:induction false} BundleDigestPinsArtifacts(
    tables: Tables, hash: Hash, m: Json, p: Json, e: Json, m': Json, p': Json, e': Json)
    requires VerifyFrozenBundle(tables, hash, m, p, e).Some? && VerifyFrozenBundle(tables, hash, m', p', e').Some?
    requires VerifyFrozenBundle(tables, hash, m, p, e).value.bundleDigest ==
      VerifyFrozenBundle(tables, hash, m', p', e').value.bundleDigest
    requires NoCollision(hash, DigestPayload(hash, m, p, e), DigestPayload(hash, m', p', e'))
    requires NoCollision(hash, m, m') && NoCollision(hash, p, p') && NoCollision(hash, e, e')
    ensures m == m' && p == p' && e == e'
  {
    DigestPins(hash, DigestPayload(hash, m, p, e), DigestPayload(hash, m', p', e'));
    PayloadNamesManifest(hash, m, p, e, m', p', e');
    DigestPins(hash, m, m');
    ManifestPinsBundle(tables, hash, m, p, e, p', e');
  }

  lemma {:induction false} StyleIsBacked(tables: Tables, hash: Hash, m: Json, p: Json, e: Json)
    requires Profile.ValidateAndBind(tables.names, hash, p, e, false).Some? && Coherent(hash, m, p)
    ensures var style := TextOf(Manifest.Field(m, "entry", "entry_style"));
      && style in {"PENDING_ENTRY", "IMMEDIATE_ENTRY"}
      && (style == "PENDING_ENTRY" ==>
            Evidence.CapabilityIn(e, Evidence.ShortPendingExpiry) == Some(Evidence.ConfirmedYes))
      && (style == "IMMEDIATE_ENTRY" ==>
            Evidence.CapabilityIn(e, Evidence.NoPendingEntry) == Some(Evidence.ConfirmedYes))
  {
    StylesDiffer();
    Profile.FrozenModeIsBacked(tables.names, hash, p, e);
  }

  /**
    In a verified bundle the entry style is backed by the evidence, the account is dedicated, the evidence
    is accepted for the labelled profile, and nothing in the profile is pending.
   */
  lemma {:induction false} VerifiedBundleIsBacked(tables: Tables, hash: Hash, m: Json, p: Json, e: Json)
    requires Manifest.NamesDedicated(tables.schema) && VerifyFrozenBundle(tables, hash, m, p, e).Some?
    ensures var v := VerifyFrozenBundle(tables, hash, m, p, e).value;
      && v.entryStyle in {"PENDING_ENTRY", "IMMEDIATE_ENTRY"}
      && (v.entryStyle == "PENDING_ENTRY" ==>
            Evidence.CapabilityIn(e, Evidence.ShortPendingExpiry) == Some(Evidence.ConfirmedYes))
      && (v.entryStyle == "IMMEDIATE_ENTRY" ==>
            Evidence.CapabilityIn(e, Evidence.NoPendingEntry) == Some(Evidence.ConfirmedYes))
    ensures Evidence.Text(p, "ownership_contract") == Some("DEDICATED_ACCOUNT")
    ensures Evidence.Evaluate(hash, e).Some? && Evidence.Evaluate(hash, e).value.verdict == Evidence.Accept
    ensures Evidence.Text(p, "profile_label") == Some(Evidence.Evaluate(hash, e).value.profileLabel)
    ensures !Profile.ContainsPending(p)
    ensures Manifest.NamesDisarmed(tables.schema) ==>
      forall k :: k in Manifest.ARMING_FLAGS ==> Manifest.Field(m, "safety", k) == Bool(false)
  {
    Manifest.FrozenIsDedicated(tables.schema, m);
    if Manifest.NamesDisarmed(tables.schema) {
      Manifest.FrozenIsDisarmed(tables.schema, m);
    }
    StyleIsBacked(tables, hash, m, p, e);
    Profile.FrozenModeIsBacked(tables.names, hash, p, e);
  }

  lemma {:induction false} StylesDiffer()
    ensures "PENDING_ENTRY" != "IMMEDIATE_ENTRY"
  {
    assert "PENDING_ENTRY"[0] == 'P' && "IMMEDIATE_ENTRY"[0] == 'I';
  }

  // ----- which profiles can be bundled

  /** The hash answers with 64 lower-case hexadecimal digits, as SHA-256 does. */
  ghost predicate IsHexHash(hash: Hash) {
    forall text :: IsSha256Label(SHA256_PREFIX + hash(text))
  }

  lemma {:induction false} StyleIsKnown(mode: string)
    ensures Manifest.Known(Manifest.OneOf(Manifest.EntryStyles()), Str(ExpectedStyle(mode)))
  {
    assert |"PENDING_ENTRY"| == 13 && |"IMMEDIATE_ENTRY"| == 15;
    assert "IMMEDIATE_ENTRY"[0] == 'I';
  }

  lemma {:induction false} DigestIsKnown(hash: Hash, p: Json)
    requires IsHexHash(hash)
    ensures Manifest.Known(Manifest.Sha256, Str(DigestOf(hash, p)))
  {
    assert IsSha256Label(SHA256_PREFIX + hash(Encode(p, false)));
    assert DigestOf(hash, p)[0] == 's';
  }

  /** A manifest can name the profile's label: it is not one the manifest takes to be pending. */
  predicate IsNameable(p: Json) {
    !Manifest.IsPending(Evidence.Member(p, "profile_label"))
  }

  lemma {:induction false} NameIsKnown(tables: Tables, hash: Hash, p: Json, e: Json)
    requires Profile.ValidateAndBind(tables.names, hash, p, e, false).Some? && IsNameable(p)
    ensures Manifest.Known(Manifest.Label, Evidence.Member(p, "profile_label"))
    ensures Evidence.Text(p, "entry_mode").Some?
  {
  }

  /** Every bound profile on a dedicated account, with a label the manifest can name, has a manifest that verifies. */
  lemma {:induction false} BundleCanBeMade(tables: Tables, hash: Hash, p: Json, e: Json) returns (m: Json)
    requires Manifest.IsTable(tables.schema) && Manifest.NamesProfile(tables.schema) && IsHexHash(hash)
    requires Profile.ValidateAndBind(tables.names, hash, p, e, false).Some? && IsNameable(p)
    requires Evidence.Text(p, "ownership_contract") == Some("DEDICATED_ACCOUNT")
    ensures Verifies(tables, hash, m, p, e)
  {
    NameIsKnown(tables, hash, p, e);
    DigestIsKnown(hash, p);
    StyleIsKnown(Evidence.Text(p, "entry_mode").value);
    Profile.FrozenModeIsBacked(tables.names, hash, p, e);
    m := Manifest.FrozenForProfile(
      tables.schema, Evidence.Member(p, "profile_label"), Str(DigestOf(hash, p)),
      Str(ExpectedStyle(Evidence.Text(p, "entry_mode").value)));
  }

  lemma {:induction false} BundledIsNameable(tables: Tables, hash: Hash, m: Json, p: Json, e: Json)
    requires Manifest.NamesProfile(tables.schema) && Verifies(tables, hash, m, p, e)
    ensures IsNameable(p)
  {
    var entry := tables.schema["entry"];
    assert Manifest.FieldOk(
      entry["execution_profile_label"], Manifest.Field(m, "entry", "execution_profile_label"), false);
  }

  /**
    A profile and its evidence can be part of a verified bundle exactly when they bind, the profile claims a
    dedicated account, and its label does not begin with "PENDING": the profile validator only refuses labels
    that begin with "PENDING_", so some frozen profiles can never be bundled.
   */
  lemma {:induction false} BundlableIff(tables: Tables, hash: Hash, p: Json, e: Json)
    requires Manifest.IsTable(tables.schema) && Manifest.NamesProfile(tables.schema)
    requires Manifest.NamesDedicated(tables.schema) && IsHexHash(hash)
    ensures (exists m :: VerifyFrozenBundle(tables, hash, m, p, e).Some?) <==>
      && Profile.ValidateAndBind(tables.names, hash, p, e, false).Some?
      && Evidence.Text(p, "ownership_contract") == Some("DEDICATED_ACCOUNT")
      && IsNameable(p)
  {
    forall m | VerifyFrozenBundle(tables, hash, m, p, e).Some?
      ensures Evidence.Text(p, "ownership_contract") == Some("DEDICATED_ACCOUNT") && IsNameable(p)
    {
      Manifest.FrozenIsDedicated(tables.schema, m);
      BundledIsNameable(tables, hash, m, p, e);
    }
    if Profile.ValidateAndBind(tables.names, hash, p, e, false).Some? && IsNameable(p)
      && Evidence.Text(p, "ownership_contract") == Some("DEDICATED_ACCOUNT")
    {
      var m := BundleCanBeMade(tables, hash, p, e);
      assert VerifyFrozenBundle(tables, hash, m, p, e).Some?;
    }
  }

  /** The real tables are among those the law above covers. */
  lemma {:induction false} TablesQualify()
    ensures Manifest.IsTable(TABLES.schema)
    ensures Manifest.NamesDedicated(TABLES.schema) && Manifest.NamesDisarmed(TABLES.schema)
    ensures Manifest.NamesProfile(TABLES.schema)
  {
    Manifest.SchemaIsTable();
  }
}
