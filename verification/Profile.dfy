/** Draft and frozen validation of an execution profile, bound to accepted capability evidence. */
module Profile {
  import opened Wrappers
  import opened Json
  import opened Labels
  import opened Evidence

  const DRAFT_SCHEMA: string := "H11_AUTO_EXECUTION_PROFILE_V1_DRAFT"
  const FROZEN_SCHEMA: string := "H11_AUTO_EXECUTION_PROFILE_V1"
  const DRAFT_STATUS: string := "PENDING_BROKER_AND_OPERATOR"
  const FROZEN_STATUS: string := "OPERATOR_FROZEN_NOT_ACTIVATED"

  /**
    The field names of a profile: all of them, those that only need to hold a label, the capability flags,
    and the flags of the safety section. The laws below hold for every such table.
   */
  datatype FieldNames = FieldNames(all: set<string>, labels: set<string>, flags: set<string>, safety: set<string>)

  const LABEL_KEYS: set<string> := {
    "broker_label", "pending_expiry_contract", "fill_atomicity_contract", "protection_creation_contract",
    "protection_size_contract", "minimum_permission_contract", "rate_limit_contract",
    "fee_and_holding_cost_contract", "operator_approval_ref"}

  const CAPABILITY_FLAGS: set<string> := {
    "server_side_stop_loss", "server_side_take_profit", "position_specific_settlement",
    "authoritative_read_after_unknown"}

  const PROFILE_KEYS: set<string> := LABEL_KEYS + CAPABILITY_FLAGS + {
    "profile_schema", "profile_status", "profile_label", "entry_mode", "ownership_contract",
    "official_evidence_refs", "accepted_evidence_digest", "safety"}

  const SAFETY_KEYS: set<string> := {
    "actual_adapter_authorized", "broker_read_authorized", "broker_write_authorized", "credential_read_authorized",
    "actual_post_authorized", "live_ready", "unattended_live_supported"}

  /** The names the validator checks. */
  const NAMES: FieldNames := FieldNames(PROFILE_KEYS, LABEL_KEYS, CAPABILITY_FLAGS, SAFETY_KEYS)

  predicate IsPending(s: string) {
    "PENDING_" <= s
  }

  /** A pending string anywhere inside a value. */
  predicate ContainsPending(j: Json) {
    match j
    case Str(s) => IsPending(s)
    case Arr(items) => exists i :: 0 <= i < |items| && ContainsPending(items[i])
    case Obj(fields) => exists k :: k in fields && ContainsPending(fields[k])
    case _ => false
  }

  predicate IsLabel(value: Option<string>, draft: bool) {
    value.Some? && IsSafeLabel(value.value) && (draft || !IsPending(value.value))
  }

  function AllowedEntryModes(draft: bool): set<string> {
    if draft then {"PENDING_BROKER_ANSWER", "PENDING", "IMMEDIATE"} else {"PENDING", "IMMEDIATE"}
  }

  /** What both modes require, given the acceptance of the evidence. */
  predicate IsWellFormed(names: FieldNames, p: Json, acceptance: Acceptance, draft: bool) {
    && IsExactMapping(p, names.all)
    && Text(p, "profile_schema") == Some(if draft then DRAFT_SCHEMA else FROZEN_SCHEMA)
    && Text(p, "profile_status") == Some(if draft then DRAFT_STATUS else FROZEN_STATUS)
    && IsLabel(Text(p, "profile_label"), draft) && Text(p, "profile_label").value == acceptance.profileLabel
    && (forall k :: k in names.labels ==> IsLabel(Text(p, k), draft))
    && IsLabel(Text(p, "entry_mode"), draft) && Text(p, "entry_mode").value in AllowedEntryModes(draft)
    && IsLabel(Text(p, "ownership_contract"), draft)
    && (!draft ==> Text(p, "ownership_contract").value in {"DEDICATED_ACCOUNT", "OFFICIAL_UNIQUE_OWNERSHIP"})
    && AreEvidenceRefs(Member(p, "official_evidence_refs"))
    && Text(p, "accepted_evidence_digest").Some?
    && (IsSha256Label(Text(p, "accepted_evidence_digest").value)
        || (draft && IsPending(Text(p, "accepted_evidence_digest").value)))
    && IsExactMapping(Member(p, "safety"), names.safety)
    && (forall k :: k in names.safety ==> Member(Member(p, "safety"), k) == Bool(false))
    && (forall k :: k in names.flags ==> Member(p, k).Bool?)
  }

  /** What freezing adds: accepted evidence, pinned by digest and references, and nothing pending anywhere. */
  predicate IsFrozenBinding(names: FieldNames, p: Json, record: Json, acceptance: Acceptance) {
    && acceptance.verdict == Accept
    && Text(p, "accepted_evidence_digest") == Some(acceptance.evidenceDigest)
    && Member(p, "official_evidence_refs") == Member(record, "official_evidence_refs")
    && (forall k :: k in names.flags ==> Member(p, k) == Bool(true))
    && (Text(p, "entry_mode") == Some("PENDING") ==> CapabilityIn(record, ShortPendingExpiry) == Some(ConfirmedYes))
    && (Text(p, "entry_mode") == Some("IMMEDIATE") ==> CapabilityIn(record, NoPendingEntry) == Some(ConfirmedYes))
    && !ContainsPending(p)
  }

  datatype Binding = Binding(profileDigest: string, verdict: Verdict)

  /** Validate a profile against its evidence; `None` is the error. */
  ghost function ValidateAndBind(names: FieldNames, hash: Hash, p: Json, record: Json, draft: bool): Option<Binding> {
    match Evaluate(hash, record)
    case None => None
    case Some(acceptance) =>
      if IsWellFormed(names, p, acceptance, draft) && (draft || IsFrozenBinding(names, p, record, acceptance)) then
        Some(Binding(DigestOf(hash, p), acceptance.verdict))
      else None
  }

  /** A frozen profile pins its evidence: two records that bind the same profile are equal, or their texts collide. */
  lemma {:induction false} ProfilePinsEvidence(names: FieldNames, hash: Hash, p: Json, record: Json, record': Json)
    requires ValidateAndBind(names, hash, p, record, false).Some?
    requires ValidateAndBind(names, hash, p, record', false).Some?
    ensures record == record' || Collide(hash, record, record')
  {
    PinnedDigest(names, hash, p, record);
    PinnedDigest(names, hash, p, record');
    DigestPins(hash, record, record');
  }

  lemma {:induction false} PinnedDigest(names: FieldNames, hash: Hash, p: Json, record: Json)
    requires ValidateAndBind(names, hash, p, record, false).Some?
    ensures Text(p, "accepted_evidence_digest") == Some(DigestOf(hash, record))
  {
  }

  /** The entry mode of a frozen profile rests on a confirmed capability. */
  lemma {:induction false} FrozenModeIsBacked(names: FieldNames, hash: Hash, p: Json, record: Json)
    requires ValidateAndBind(names, hash, p, record, false).Some?
    ensures Text(p, "entry_mode") == Some("PENDING") || Text(p, "entry_mode") == Some("IMMEDIATE")
    ensures Text(p, "entry_mode") == Some("PENDING") ==> CapabilityIn(record, ShortPendingExpiry) == Some(ConfirmedYes)
    ensures Text(p, "entry_mode") == Some("IMMEDIATE") ==> CapabilityIn(record, NoPendingEntry) == Some(ConfirmedYes)
    ensures Evaluate(hash, record).Some? && Evaluate(hash, record).value.verdict == Accept
    ensures Text(p, "profile_label") == Some(Evaluate(hash, record).value.profileLabel) && !ContainsPending(p)
  {
  }

  /** A profile, draft or frozen: its identity, labels that are labels, and no safety flag set. */
  lemma {:induction false} BoundProfileSays(names: FieldNames, hash: Hash, p: Json, record: Json, draft: bool)
    requires ValidateAndBind(names, hash, p, record, draft).Some?
    ensures Text(p, "profile_schema") ==
      Some(if draft then "H11_AUTO_EXECUTION_PROFILE_V1_DRAFT" else "H11_AUTO_EXECUTION_PROFILE_V1")
    ensures Text(p, "profile_status") ==
      Some(if draft then "PENDING_BROKER_AND_OPERATOR" else "OPERATOR_FROZEN_NOT_ACTIVATED")
    ensures Text(p, "profile_label") == Text(record, "profile_label")
    ensures forall k :: k in names.safety ==> Member(Member(p, "safety"), k) == Bool(false)
    ensures forall k :: k in names.labels ==> Text(p, k).Some? && IsSafeLabel(Text(p, k).value)
    ensures forall k :: k in names.flags ==> Member(p, k) == Bool(true) || Member(p, k) == Bool(false)
  {
  }

  /** What freezing adds: every capability claimed, the evidence named by digest and references, nothing pending. */
  lemma {:induction false} FrozenProfileSays(names: FieldNames, hash: Hash, p: Json, record: Json)
    requires ValidateAndBind(names, hash, p, record, false).Some?
    ensures forall k :: k in names.flags ==> Member(p, k) == Bool(true)
    ensures Member(p, "official_evidence_refs") == Member(record, "official_evidence_refs")
    ensures Text(p, "accepted_evidence_digest") == Some(DigestOf(hash, record)) && !ContainsPending(p)
    ensures Text(p, "ownership_contract") == Some("DEDICATED_ACCOUNT") ||
      Text(p, "ownership_contract") == Some("OFFICIAL_UNIQUE_OWNERSHIP")
  {
  }
}
