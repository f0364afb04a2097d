/** Three-valued classification of one sanitized capability record. */
module Evidence {
  import opened Wrappers
  import opened Json
  import opened Labels

  datatype Capability = ConfirmedYes | ConfirmedNo | Ambiguous | NotAnswered

  datatype Key =
    | ShortPendingExpiry
    | NoPendingEntry
    | FullFillOrNone
    | AtomicProtectionWithEntry
    | ProtectionSizeMatchesActualFill
    | ServerSideStopLoss
    | ServerSideTakeProfit
    | PositionSpecificSettlement
    | AuthoritativeReadAfterUnknown
    | BrokerStateReadable
    | ProtectedSizeReadable
    | ExcessSizeCanReversePosition
    | MinimumPermissionKnown
    | PrivateGetRateLimitKnown
    | PrivatePostRateLimitKnown
    | TosAutomaticTradingAllowed
    | FeeModelKnown
    | OwnershipIsolationSupported

  type Capabilities = Key -> Capability

  /** The capabilities that must each be confirmed. */
  const DIRECT_YES: seq<Key> := [
    ServerSideStopLoss, ServerSideTakeProfit, PositionSpecificSettlement, AuthoritativeReadAfterUnknown,
    BrokerStateReadable, ProtectedSizeReadable, MinimumPermissionKnown, PrivateGetRateLimitKnown,
    PrivatePostRateLimitKnown, TosAutomaticTradingAllowed, FeeModelKnown, OwnershipIsolationSupported]

  datatype Code =
    | ShortExpiryOrNoPendingEntryNotConfirmed
    | FillOrAtomicProtectionNotConfirmed
    | DirectNotConfirmed(key: Key)
    | ExcessSizeCanReverse
    | ExcessSizeReversalNotConfirmed
    | OfficialEvidenceRefsMissing

  datatype Verdict = Accept | NeedsFollowup | Reject

  datatype Gate = Pass | GateReject | Followup

  // ----- the classification

  predicate AllConfirmed(path: seq<Capability>) {
    forall i :: 0 <= i < |path| ==> path[i] == ConfirmedYes
  }

  predicate SomeDenied(path: seq<Capability>) {
    exists i :: 0 <= i < |path| && path[i] == ConfirmedNo
  }

  /** One of two paths must be confirmed throughout; both blocked is a rejection. */
  function AlternativeGate(first: seq<Capability>, second: seq<Capability>): Gate {
    if AllConfirmed(first) || AllConfirmed(second) then Pass
    else if SomeDenied(first) && SomeDenied(second) then GateReject
    else Followup
  }

  function ExpiryGate(c: Capabilities): Gate {
    AlternativeGate([c(ShortPendingExpiry)], [c(NoPendingEntry)])
  }

  function FillGate(c: Capabilities): Gate {
    AlternativeGate([c(FullFillOrNone)], [c(AtomicProtectionWithEntry), c(ProtectionSizeMatchesActualFill)])
  }

  predicate Definite(v: Capability) {
    v == ConfirmedYes || v == ConfirmedNo
  }

  /** Which codes reject a record. */
  predicate Rejects(code: Code, c: Capabilities) {
    match code
    case ShortExpiryOrNoPendingEntryNotConfirmed => ExpiryGate(c) == GateReject
    case FillOrAtomicProtectionNotConfirmed => FillGate(c) == GateReject
    case DirectNotConfirmed(key) => key in DIRECT_YES && c(key) == ConfirmedNo
    case ExcessSizeCanReverse => c(ExcessSizeCanReversePosition) == ConfirmedYes
    case ExcessSizeReversalNotConfirmed => false
    case OfficialEvidenceRefsMissing => false
  }

  /** Which codes ask for a follow-up. */
  predicate AsksFollowup(code: Code, c: Capabilities, hasRefs: bool) {
    match code
    case ShortExpiryOrNoPendingEntryNotConfirmed => ExpiryGate(c) == Followup
    case FillOrAtomicProtectionNotConfirmed => FillGate(c) == Followup
    case DirectNotConfirmed(key) => key in DIRECT_YES && !Definite(c(key))
    case ExcessSizeCanReverse => false
    case ExcessSizeReversalNotConfirmed => !Definite(c(ExcessSizeCanReversePosition))
    case OfficialEvidenceRefsMissing => !hasRefs
  }

  ghost predicate Rejected(c: Capabilities) {
    exists code :: Rejects(code, c)
  }

  ghost predicate Open(c: Capabilities, hasRefs: bool) {
    exists code :: AsksFollowup(code, c, hasRefs)
  }

  ghost function VerdictOf(c: Capabilities, hasRefs: bool): Verdict {
    if Rejected(c) then Reject else if Open(c, hasRefs) then NeedsFollowup else Accept
  }

  /** The loop over the capabilities that must each be confirmed. */
  method ClassifyDirect(c: Capabilities, keys: seq<Key>) returns (rejected: set<Code>, followup: set<Code>)
    ensures forall code :: code in rejected <==>
      code.DirectNotConfirmed? && code.key in keys && c(code.key) == ConfirmedNo
    ensures forall code :: code in followup <==>
      code.DirectNotConfirmed? && code.key in keys && !Definite(c(code.key))
  {
    rejected, followup := {}, {};
    for i := 0 to |keys|
      invariant forall code :: code in rejected <==>
        code.DirectNotConfirmed? && code.key in keys[..i] && c(code.key) == ConfirmedNo
      invariant forall code :: code in followup <==>
        code.DirectNotConfirmed? && code.key in keys[..i] && !Definite(c(code.key))
    {
      var key := keys[i];
      assert keys[..i + 1] == keys[..i] + [key];
      if c(key) == ConfirmedNo {
        rejected := rejected + {DirectNotConfirmed(key)};
      } else if c(key) in {Ambiguous, NotAnswered} {
        followup := followup + {DirectNotConfirmed(key)};
      }
    }
    assert keys[..|keys|] == keys;
  }

  /** All checks; a gate is one code, the excess question has a code of its own for each bad answer. */
  method CollectCodes(c: Capabilities, hasRefs: bool) returns (rejected: set<Code>, followup: set<Code>)
    ensures forall code :: code in rejected <==> Rejects(code, c)
    ensures forall code :: code in followup <==> AsksFollowup(code, c, hasRefs)
  {
    rejected, followup := ClassifyDirect(c, DIRECT_YES);
    match ExpiryGate(c) {
      case Pass =>
      case GateReject => rejected := rejected + {ShortExpiryOrNoPendingEntryNotConfirmed};
      case Followup => followup := followup + {ShortExpiryOrNoPendingEntryNotConfirmed};
    }
    match FillGate(c) {
      case Pass =>
      case GateReject => rejected := rejected + {FillOrAtomicProtectionNotConfirmed};
      case Followup => followup := followup + {FillOrAtomicProtectionNotConfirmed};
    }
    var excess := c(ExcessSizeCanReversePosition);
    if excess == ConfirmedYes {
      rejected := rejected + {ExcessSizeCanReverse};
    } else if excess in {Ambiguous, NotAnswered} {
      followup := followup + {ExcessSizeReversalNotConfirmed};
    }
    if !hasRefs {
      followup := followup + {OfficialEvidenceRefsMissing};
    }
  }

  /** The verdict and the codes that block it; codes come out as the sorted, duplicate-free set they are reported as. */
  method Classify(c: Capabilities, hasRefs: bool) returns (verdict: Verdict, blocking: set<Code>)
    ensures verdict == VerdictOf(c, hasRefs)
    ensures forall code :: code in blocking <==> Rejects(code, c) || AsksFollowup(code, c, hasRefs)
    ensures blocking == {} <==> verdict == Accept
  {
    var rejected, followup := CollectCodes(c, hasRefs);
    if rejected != {} {
      var code :| code in rejected;
      verdict, blocking := Reject, rejected + followup;
    } else if followup != {} {
      var code :| code in followup;
      verdict, blocking := NeedsFollowup, followup;
    } else {
      verdict, blocking := Accept, {};
    }
  }

  // ----- the verdict in terms of the answers

  lemma {:induction false} GatesInAnswers(c: Capabilities)
    ensures ExpiryGate(c) == Pass <==> c(ShortPendingExpiry) == ConfirmedYes || c(NoPendingEntry) == ConfirmedYes
    ensures ExpiryGate(c) == GateReject <==> c(ShortPendingExpiry) == ConfirmedNo && c(NoPendingEntry) == ConfirmedNo
    ensures FillGate(c) == Pass <==>
      || c(FullFillOrNone) == ConfirmedYes
      || (c(AtomicProtectionWithEntry) == ConfirmedYes && c(ProtectionSizeMatchesActualFill) == ConfirmedYes)
    ensures FillGate(c) == GateReject <==>
      && c(FullFillOrNone) == ConfirmedNo
      && (c(AtomicProtectionWithEntry) == ConfirmedNo || c(ProtectionSizeMatchesActualFill) == ConfirmedNo)
  {
    var one, two := [c(ShortPendingExpiry)], [c(NoPendingEntry)];
    assert one[0] == c(ShortPendingExpiry) && two[0] == c(NoPendingEntry);
    var three, four := [c(FullFillOrNone)], [c(AtomicProtectionWithEntry), c(ProtectionSizeMatchesActualFill)];
    assert three[0] == c(FullFillOrNone);
    assert four[0] == c(AtomicProtectionWithEntry) && four[1] == c(ProtectionSizeMatchesActualFill);
  }

  /** The twelve capabilities that each decide alone. */
  predicate DecidesAlone(key: Key) {
    key !in {ShortPendingExpiry, NoPendingEntry, FullFillOrNone, AtomicProtectionWithEntry,
             ProtectionSizeMatchesActualFill, ExcessSizeCanReversePosition}
  }

  lemma {:induction false} DirectKeys(key: Key)
    ensures key in DIRECT_YES <==> DecidesAlone(key)
  {
    assert DIRECT_YES[0] == ServerSideStopLoss && DIRECT_YES[1] == ServerSideTakeProfit;
    assert DIRECT_YES[2] == PositionSpecificSettlement && DIRECT_YES[3] == AuthoritativeReadAfterUnknown;
    assert DIRECT_YES[4] == BrokerStateReadable && DIRECT_YES[5] == ProtectedSizeReadable;
    assert DIRECT_YES[6] == MinimumPermissionKnown && DIRECT_YES[7] == PrivateGetRateLimitKnown;
    assert DIRECT_YES[8] == PrivatePostRateLimitKnown && DIRECT_YES[9] == TosAutomaticTradingAllowed;
    assert DIRECT_YES[10] == FeeModelKnown && DIRECT_YES[11] == OwnershipIsolationSupported;
  }

  lemma {:induction false} RejectedInAnswers(c: Capabilities)
    ensures Rejected(c) <==>
      || ExpiryGate(c) == GateReject || FillGate(c) == GateReject || c(ExcessSizeCanReversePosition) == ConfirmedYes
      || exists key :: DecidesAlone(key) && c(key) == ConfirmedNo
  {
    if Rejected(c) {
      var code :| Rejects(code, c);
      if code.DirectNotConfirmed? {
        DirectKeys(code.key);
      }
    }
    if key :| DecidesAlone(key) && c(key) == ConfirmedNo {
      DirectKeys(key);
      assert Rejects(DirectNotConfirmed(key), c);
    }
    assert Rejects(ShortExpiryOrNoPendingEntryNotConfirmed, c) <==> ExpiryGate(c) == GateReject;
    assert Rejects(FillOrAtomicProtectionNotConfirmed, c) <==> FillGate(c) == GateReject;
    assert Rejects(ExcessSizeCanReverse, c) <==> c(ExcessSizeCanReversePosition) == ConfirmedYes;
  }

  lemma {:induction false} OpenInAnswers(c: Capabilities, hasRefs: bool)
    ensures Open(c, hasRefs) <==>
      || ExpiryGate(c) == Followup || FillGate(c) == Followup || !Definite(c(ExcessSizeCanReversePosition)) || !hasRefs
      || exists key :: DecidesAlone(key) && !Definite(c(key))
  {
    if Open(c, hasRefs) {
      var code :| AsksFollowup(code, c, hasRefs);
      if code.DirectNotConfirmed? {
        DirectKeys(code.key);
      }
    }
    if key :| DecidesAlone(key) && !Definite(c(key)) {
      DirectKeys(key);
      assert AsksFollowup(DirectNotConfirmed(key), c, hasRefs);
    }
    assert AsksFollowup(ShortExpiryOrNoPendingEntryNotConfirmed, c, hasRefs) <==> ExpiryGate(c) == Followup;
    assert AsksFollowup(FillOrAtomicProtectionNotConfirmed, c, hasRefs) <==> FillGate(c) == Followup;
    assert AsksFollowup(ExcessSizeReversalNotConfirmed, c, hasRefs) <==> !Definite(c(ExcessSizeCanReversePosition));
    assert AsksFollowup(OfficialEvidenceRefsMissing, c, hasRefs) <==> !hasRefs;
  }

  /**
    ACCEPT asks for references, one confirmed way around a pending entry, a full fill or an atomic protection of
    the size filled, every other capability, and a denied reversal; REJECT for one answer, or pair, that rules it out.
   */
  lemma {:induction false} VerdictInAnswers(c: Capabilities, hasRefs: bool)
    ensures VerdictOf(c, hasRefs) == Accept <==>
      && hasRefs
      && (c(ShortPendingExpiry) == ConfirmedYes || c(NoPendingEntry) == ConfirmedYes)
      && (|| c(FullFillOrNone) == ConfirmedYes
          || (c(AtomicProtectionWithEntry) == ConfirmedYes && c(ProtectionSizeMatchesActualFill) == ConfirmedYes))
      && (forall key :: DecidesAlone(key) ==> c(key) == ConfirmedYes)
      && c(ExcessSizeCanReversePosition) == ConfirmedNo
    ensures VerdictOf(c, hasRefs) == Reject <==>
      || (c(ShortPendingExpiry) == ConfirmedNo && c(NoPendingEntry) == ConfirmedNo)
      || (&& c(FullFillOrNone) == ConfirmedNo
          && (c(AtomicProtectionWithEntry) == ConfirmedNo || c(ProtectionSizeMatchesActualFill) == ConfirmedNo))
      || (exists key :: DecidesAlone(key) && c(key) == ConfirmedNo)
      || c(ExcessSizeCanReversePosition) == ConfirmedYes
  {
    GatesInAnswers(c);
    RejectedInAnswers(c);
    OpenInAnswers(c, hasRefs);
  }

  // ----- exact three-valued reasoning

  /** Every open answer settled one way or the other, every settled answer kept. */
  ghost predicate Resolves(r: Capabilities, c: Capabilities) {
    forall k :: Definite(r(k)) && (Definite(c(k)) ==> r(k) == c(k))
  }

  /** Every open answer settled the favourable way. */
  function Favourable(c: Capabilities): Capabilities {
    (k: Key) =>
      if Definite(c(k)) then c(k)
      else if k == ExcessSizeCanReversePosition then ConfirmedNo
      else ConfirmedYes
  }

  lemma {:induction false} ResolvingKeepsGates(r: Capabilities, c: Capabilities)
    requires Resolves(r, c)
    ensures ExpiryGate(c) == Pass ==> ExpiryGate(r) == Pass
    ensures FillGate(c) == Pass ==> FillGate(r) == Pass
    ensures ExpiryGate(c) == GateReject ==> ExpiryGate(r) == GateReject
    ensures FillGate(c) == GateReject ==> FillGate(r) == GateReject
  {
    var one, two := [c(ShortPendingExpiry)], [c(NoPendingEntry)];
    var one', two' := [r(ShortPendingExpiry)], [r(NoPendingEntry)];
    assert one[0] == c(ShortPendingExpiry) && two[0] == c(NoPendingEntry);
    assert one'[0] == r(ShortPendingExpiry) && two'[0] == r(NoPendingEntry);
    var three, four := [c(FullFillOrNone)], [c(AtomicProtectionWithEntry), c(ProtectionSizeMatchesActualFill)];
    var three', four' := [r(FullFillOrNone)], [r(AtomicProtectionWithEntry), r(ProtectionSizeMatchesActualFill)];
    assert three[0] == c(FullFillOrNone) && three'[0] == r(FullFillOrNone);
    assert four[0] == c(AtomicProtectionWithEntry) && four[1] == c(ProtectionSizeMatchesActualFill);
    assert four'[0] == r(AtomicProtectionWithEntry) && four'[1] == r(ProtectionSizeMatchesActualFill);
  }

  lemma {:induction false} RejectionIsFinal(r: Capabilities, c: Capabilities, hasRefs: bool)
    requires Resolves(r, c) && Rejected(c)
    ensures VerdictOf(r, hasRefs) == Reject
  {
    var code :| Rejects(code, c);
    ResolvingKeepsGates(r, c);
    assert Rejects(code, r);
  }

  lemma {:induction false} AcceptanceIsKept(r: Capabilities, c: Capabilities, hasRefs: bool)
    requires Resolves(r, c) && VerdictOf(c, hasRefs) == Accept
    ensures VerdictOf(r, true) == Accept
  {
    ResolvingKeepsGates(r, c);
    forall code
      ensures !Rejects(code, r) && !AsksFollowup(code, r, true)
    {
      assert !Rejects(code, c) && !AsksFollowup(code, c, hasRefs);
      assert !Rejects(ExcessSizeCanReverse, c) && !AsksFollowup(ExcessSizeReversalNotConfirmed, c, hasRefs);
    }
  }

  lemma {:induction false} GateOpens(
    first: seq<Capability>, second: seq<Capability>, first': seq<Capability>, second': seq<Capability>)
    requires |first| == |first'| && |second| == |second'|
    requires forall i :: 0 <= i < |first| ==> first'[i] == if Definite(first[i]) then first[i] else ConfirmedYes
    requires forall i :: 0 <= i < |second| ==> second'[i] == if Definite(second[i]) then second[i] else ConfirmedYes
    requires AlternativeGate(first, second) != GateReject
    ensures AlternativeGate(first', second') == Pass
  {
    if !SomeDenied(first) {
      assert AllConfirmed(first');
    } else {
      assert !SomeDenied(second) || AllConfirmed(first) || AllConfirmed(second);
      if !SomeDenied(second) {
        assert AllConfirmed(second');
      }
    }
  }

  lemma {:induction false} FavourableIsAccepted(c: Capabilities)
    requires !Rejected(c)
    ensures Resolves(Favourable(c), c) && VerdictOf(Favourable(c), true) == Accept
  {
    var r := Favourable(c);
    assert !Rejects(ShortExpiryOrNoPendingEntryNotConfirmed, c) && !Rejects(FillOrAtomicProtectionNotConfirmed, c);
    GateOpens([c(ShortPendingExpiry)], [c(NoPendingEntry)], [r(ShortPendingExpiry)], [r(NoPendingEntry)]);
    GateOpens(
      [c(FullFillOrNone)], [c(AtomicProtectionWithEntry), c(ProtectionSizeMatchesActualFill)],
      [r(FullFillOrNone)], [r(AtomicProtectionWithEntry), r(ProtectionSizeMatchesActualFill)]);
    forall code
      ensures !Rejects(code, r) && !AsksFollowup(code, r, true)
    {
      assert !Rejects(code, c);
    }
  }

  /**
    REJECT exactly when no way of settling the open answers, references supplied, is accepted;
    ACCEPT is kept by every such way; and a follow-up can always still end in acceptance.
   */
  lemma {:induction false} VerdictIsExact(c: Capabilities, hasRefs: bool)
    ensures VerdictOf(c, hasRefs) == Reject <==> forall r :: Resolves(r, c) ==> VerdictOf(r, true) != Accept
    ensures VerdictOf(c, hasRefs) == Accept ==> forall r :: Resolves(r, c) ==> VerdictOf(r, true) == Accept
    ensures VerdictOf(c, hasRefs) == NeedsFollowup ==> exists r :: Resolves(r, c) && VerdictOf(r, true) == Accept
  {
    if Rejected(c) {
      forall r | Resolves(r, c)
        ensures VerdictOf(r, true) != Accept
      {
        RejectionIsFinal(r, c, true);
      }
    } else {
      FavourableIsAccepted(c);
      assert Resolves(Favourable(c), c);
    }
    if VerdictOf(c, hasRefs) == Accept {
      forall r | Resolves(r, c)
        ensures VerdictOf(r, true) == Accept
      {
        AcceptanceIsKept(r, c, hasRefs);
      }
    }
  }

  // ----- the record itself

  const SCHEMA: string := "H11_AUTO_EXECUTION_PROFILE_EVIDENCE_V1"

  function KeyName(k: Key): string {
    match k
    case ShortPendingExpiry => "short_pending_expiry"
    case NoPendingEntry => "no_pending_entry"
    case FullFillOrNone => "full_fill_or_none"
    case AtomicProtectionWithEntry => "atomic_protection_with_entry"
    case ProtectionSizeMatchesActualFill => "protection_size_matches_actual_fill"
    case ServerSideStopLoss => "server_side_stop_loss"
    case ServerSideTakeProfit => "server_side_take_profit"
    case PositionSpecificSettlement => "position_specific_settlement"
    case AuthoritativeReadAfterUnknown => "authoritative_read_after_unknown"
    case BrokerStateReadable => "broker_state_readable"
    case ProtectedSizeReadable => "protected_size_readable"
    case ExcessSizeCanReversePosition => "excess_size_can_reverse_position"
    case MinimumPermissionKnown => "minimum_permission_known"
    case PrivateGetRateLimitKnown => "private_get_rate_limit_known"
    case PrivatePostRateLimitKnown => "private_post_rate_limit_known"
    case TosAutomaticTradingAllowed => "tos_automatic_trading_allowed"
    case FeeModelKnown => "fee_model_known"
    case OwnershipIsolationSupported => "ownership_isolation_supported"
  }

  ghost const CAPABILITY_KEYS: set<string> := set k: Key :: KeyName(k)

  const CONFIRMED_YES: string := "CONFIRMED_YES"

  function CapabilityNamed(name: string): Option<Capability> {
    if name == CONFIRMED_YES then Some(ConfirmedYes)
    else if name == "CONFIRMED_NO" then Some(ConfirmedNo)
    else if name == "AMBIGUOUS" then Some(Ambiguous)
    else if name == "NOT_ANSWERED" then Some(NotAnswered)
    else None
  }

  /** A string field of an object, if it has one. */
  function Text(j: Json, key: string): Option<string> {
    if j.Obj? && key in j.fields && j.fields[key].Str? then Some(j.fields[key].s) else None
  }

  function Member(j: Json, key: string): Json {
    if j.Obj? && key in j.fields then j.fields[key] else Null
  }

  function CapabilityIn(record: Json, k: Key): Option<Capability> {
    match Text(Member(record, "capabilities"), KeyName(k))
    case None => None
    case Some(name) => CapabilityNamed(name)
  }

  ghost predicate IsRecord(record: Json) {
    && IsExactMapping(record, {"schema", "profile_label", "capabilities", "official_evidence_refs"})
    && Text(record, "schema") == Some(SCHEMA)
    && Text(record, "profile_label").Some? && IsSafeLabel(Text(record, "profile_label").value)
    && IsExactMapping(Member(record, "capabilities"), CAPABILITY_KEYS)
    && (forall k :: CapabilityIn(record, k).Some?)
    && AreEvidenceRefs(Member(record, "official_evidence_refs"))
  }

  function CapabilitiesOf(record: Json): Capabilities {
    (k: Key) => match CapabilityIn(record, k) case Some(v) => v case None => NotAnswered
  }

  datatype Acceptance = Acceptance(profileLabel: string, evidenceDigest: string, verdict: Verdict)

  /** Validate and classify one record; `None` is the error. */
  ghost function Evaluate(hash: Hash, record: Json): Option<Acceptance> {
    if !IsRecord(record) then None
    else Some(Acceptance(
      Text(record, "profile_label").value, DigestOf(hash, record),
      VerdictOf(CapabilitiesOf(record), Member(record, "official_evidence_refs").items != [])))
  }

  /** What a record that is evaluated at all says: its schema, its label, and at most 32 distinct references. */
  lemma {:induction false} RecordSays(hash: Hash, record: Json)
    requires Evaluate(hash, record).Some?
    ensures Text(record, "schema") == Some("H11_AUTO_EXECUTION_PROFILE_EVIDENCE_V1")
    ensures Text(record, "profile_label") == Some(Evaluate(hash, record).value.profileLabel)
    ensures IsSafeLabel(Evaluate(hash, record).value.profileLabel)
    ensures Evaluate(hash, record).value.evidenceDigest == DigestOf(hash, record)
    ensures var refs := Member(record, "official_evidence_refs");
      && refs.Arr? && |refs.items| <= 32
      && (forall i :: 0 <= i < |refs.items| ==> refs.items[i].Str? && IsSafeLabel(refs.items[i].s))
      && (forall i, j :: 0 <= i < j < |refs.items| ==> refs.items[i] != refs.items[j])
      && Evaluate(hash, record).value.verdict == VerdictOf(CapabilitiesOf(record), |refs.items| > 0)
  {
  }

  /** Every question has one of the four answers, read as it is named. */
  lemma {:induction false} AnswersSay(record: Json, k: Key)
    requires IsRecord(record)
    ensures var answer := Text(Member(record, "capabilities"), KeyName(k));
      && answer.Some?
      && match CapabilitiesOf(record)(k)
         case ConfirmedYes => answer.value == "CONFIRMED_YES"
         case ConfirmedNo => answer.value == "CONFIRMED_NO"
         case Ambiguous => answer.value == "AMBIGUOUS"
         case NotAnswered => answer.value == "NOT_ANSWERED"
  {
    assert CapabilityIn(record, k).Some?;
    NamesAnswer(Text(Member(record, "capabilities"), KeyName(k)).value);
  }

  lemma {:induction false} NamesAnswer(name: string)
    requires CapabilityNamed(name).Some?
    ensures match CapabilityNamed(name).value
      case ConfirmedYes => name == "CONFIRMED_YES"
      case ConfirmedNo => name == "CONFIRMED_NO"
      case Ambiguous => name == "AMBIGUOUS"
      case NotAnswered => name == "NOT_ANSWERED"
  {
  }
}
