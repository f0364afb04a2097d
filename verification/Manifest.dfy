/**
  Draft and frozen validation of a generation manifest. The field table `SCHEMA` is data; the laws are
  stated for every table of its shape and then read off for the real one.
 */
module Manifest {
  import opened Wrappers
  import opened Json
  import opened Labels
  import JsonTexts

  const DRAFT_SCHEMA: string := "H11_AUTO_GENERATION_V1_DRAFT"
  const FROZEN_SCHEMA: string := "H11_AUTO_GENERATION_V1"
  const DRAFT_STATUS: string := "PENDING_OPERATOR_APPROVAL"
  const FROZEN_STATUS: string := "OPERATOR_FROZEN_NOT_ACTIVATED"

  /** What one manifest field must hold once it is settled. */
  datatype FieldKind =
    | Label
    | OneOf(allowed: Choices)
    | Sha256
    | PositiveInt
    | NonNegativeInt
    | ExactlyOne
    | AnyBool
    | Must(b: bool)
    | Probability

  predicate OffersLabel(allowed: set<string>) {
    exists x :: x in allowed && IsSafeLabel(x) && !IsPending(Str(x))
  }

  /** The labels a field may choose from; at least one is not itself pending. */
  type Choices = allowed: set<string> | OffersLabel(allowed) ghost witness SomeChoice()

  ghost function SomeChoice(): (allowed: set<string>)
    ensures OffersLabel(allowed)
  {
    assert "X" in {"X"} && "X"[0] == 'X';
    {"X"}
  }

  type Section = map<string, FieldKind>
  type Schema = map<string, Section>

  // ----- pending values and settled values

  predicate IsPending(v: Json) {
    v.Str? && "PENDING" <= v.s && v.s != "PENDING_ENTRY"
  }

  /** Value of the digits after the decimal point. */
  function Fraction(digits: string): real {
    if digits == [] || !IsDigit(digits[0]) then 0.0
    else ((digits[0] as int - '0' as int) as real + Fraction(digits[1..])) / 10.0
  }

  function PowerOfTen(n: nat): nat {
    if n == 0 then 1 else 10 * PowerOfTen(n - 1)
  }

  lemma {:induction false} ValueFromFront(digits: string)
    requires digits != [] && forall i :: 0 <= i < |digits| ==> IsDigit(digits[i])
    ensures JsonTexts.Value(digits) ==
      JsonTexts.DigitValue(digits[0]) * PowerOfTen(|digits| - 1) + JsonTexts.Value(digits[1..])
  {
    var n := |digits| - 1;
    if n == 0 {
      assert digits[..0] == [] && digits[1..] == [];
      assert JsonTexts.Value(digits[..0]) == 0 && JsonTexts.Value(digits[1..]) == 0;
    } else {
      ValueFromFront(digits[..n]);
      assert digits[..n][1..] == digits[1..][..n - 1];
      TenTimes(JsonTexts.DigitValue(digits[0]), PowerOfTen(n - 1), JsonTexts.Value(digits[..n][1..]));
    }
  }

  /** `x` is the whole number over the power. */
  predicate IsQuotient(x: real, whole: nat, power: nat) {
    x * power as real == whole as real
  }

  /** The digits after the point are worth the number they spell over the power of ten of their length. */
  lemma {:induction false} FractionIsDecimal(digits: string)
    requires forall i :: 0 <= i < |digits| ==> IsDigit(digits[i])
    ensures IsQuotient(Fraction(digits), JsonTexts.Value(digits), PowerOfTen(|digits|))
  {
    if digits == [] {
      assert Fraction(digits) == 0.0 && JsonTexts.Value(digits) == 0;
    } else {
      var rest := digits[1..];
      var first, power, whole := JsonTexts.DigitValue(digits[0]), PowerOfTen(|rest|), JsonTexts.Value(rest);
      FractionIsDecimal(rest);
      ValueFromFront(digits);
      assert Fraction(digits) == (first as real + Fraction(rest)) / 10.0;
      FractionStep(Fraction(digits), first, Fraction(rest), power, whole);
      assert PowerOfTen(|digits|) == 10 * power && JsonTexts.Value(digits) == first * power + whole;
    }
  }

  lemma {:induction false} TenTimes(first: nat, power: nat, rest: nat)
    ensures 10 * (first * power + rest) == first * (10 * power) + 10 * rest
  {
  }

  lemma {:induction false} FractionStep(x: real, first: nat, y: real, power: nat, rest: nat)
    requires x == (first as real + y) / 10.0 && IsQuotient(y, rest, power)
    ensures IsQuotient(x, first * power + rest, 10 * power)
  {
    assert (first * power) as real == first as real * power as real;
    assert (10 * power) as real == 10.0 * power as real;
    assert x * (10.0 * power as real) == (x * 10.0) * power as real;
  }

  function LeadingZeros(digits: string): (n: nat)
    ensures n <= |digits|
  {
    if digits == [] || digits[0] != '0' then 0 else 1 + LeadingZeros(digits[1..])
  }

  /**
    A canonical decimal strictly between 0 and 1, as Python's `Decimal` prints its normal form: "0.",
    digits not ending in zero, at most 28 of them significant.
   */
  predicate IsCanonicalProbability(s: string) {
    && |s| >= 3 && s[..2] == "0."
    && (forall i :: 2 <= i < |s| ==> IsDigit(s[i]))
    && s[|s| - 1] != '0'
    && |s| - 2 - LeadingZeros(s[2..]) <= 28
  }

  function ProbabilityValue(s: string): real
    requires IsCanonicalProbability(s)
  {
    Fraction(s[2..])
  }

  predicate Settled(kind: FieldKind, v: Json) {
    match kind
    case Label => v.Str? && IsSafeLabel(v.s)
    case OneOf(allowed) => v.Str? && IsSafeLabel(v.s) && v.s in allowed
    case Sha256 => v.Str? && IsSha256Label(v.s)
    case PositiveInt => v.Int? && v.i >= 1
    case NonNegativeInt => v.Int? && v.i >= 0
    case ExactlyOne => v.Int? && v.i == 1
    case AnyBool => v.Bool?
    case Must(b) => v.Bool? && v.b == b
    case Probability => v.Str? && IsCanonicalProbability(v.s)
  }

  /** What a field accepts, kind by kind; a pending value is for drafts alone, whatever the kind. */
  lemma {:induction false} KindsAccept(v: Json, i: int, b: bool, allowed: Choices, draft: bool)
    ensures IsPending(v) ==> forall kind :: FieldOk(kind, v, draft) <==> draft
    ensures !IsPending(Int(i)) && !IsPending(Bool(b)) && !IsPending(Null)
    ensures FieldOk(PositiveInt, Int(i), draft) <==> i > 0
    ensures FieldOk(NonNegativeInt, Int(i), draft) <==> i >= 0
    ensures FieldOk(ExactlyOne, Int(i), draft) <==> i == 1
    ensures FieldOk(Must(b), v, draft) && !IsPending(v) <==> v == Bool(b)
    ensures FieldOk(AnyBool, Bool(b), draft) && !FieldOk(AnyBool, Int(i), draft)
    ensures !FieldOk(PositiveInt, Bool(b), draft)
    ensures FieldOk(OneOf(allowed), v, draft) && !IsPending(v) ==> v.Str? && v.s in allowed && IsSafeLabel(v.s)
    ensures FieldOk(Label, v, draft) && !IsPending(v) <==> v.Str? && IsSafeLabel(v.s) && !IsPending(v)
    ensures FieldOk(Sha256, v, draft) && !IsPending(v) <==> v.Str? && IsSha256Label(v.s)
  {
    if v.Str? && IsSha256Label(v.s) {
      assert v.s[0] == 's';
    }
  }

  predicate FieldOk(kind: FieldKind, v: Json, draft: bool) {
    if IsPending(v) then draft else Settled(kind, v)
  }

  // ----- shape of a manifest

  predicate HasShape(schema: Schema, m: Json) {
    && m.Obj?
    && m.fields.Keys == schema.Keys + {"manifest_schema", "manifest_status"}
    && forall s :: s in schema ==> IsExactMapping(m.fields[s], schema[s].Keys)
  }

  predicate HasIdentity(m: Json, schemaName: string, status: string) {
    && m.Obj? && "manifest_schema" in m.fields && "manifest_status" in m.fields
    && m.fields["manifest_schema"] == Str(schemaName) && m.fields["manifest_status"] == Str(status)
  }

  function Field(m: Json, s: string, k: string): Json {
    if m.Obj? && s in m.fields && m.fields[s].Obj? && k in m.fields[s].fields then m.fields[s].fields[k] else Null
  }

  ghost predicate FieldsOk(schema: Schema, m: Json, draft: bool) {
    forall s, k :: s in schema && k in schema[s] ==> FieldOk(schema[s][k], Field(m, s, k), draft)
  }

  // ----- the three rules across fields, each skipped while a member is pending

  function Buy(m: Json): Json { Field(m, "signal", "buy_threshold") }
  function Sell(m: Json): Json { Field(m, "signal", "sell_threshold") }
  function PerTrade(m: Json): Json { Field(m, "risk", "per_trade_loss_bound_jpy") }
  function Daily(m: Json): Json { Field(m, "risk", "daily_loss_limit_jpy") }
  function Monthly(m: Json): Json { Field(m, "risk", "monthly_loss_limit_jpy") }
  function Interval(m: Json): Json { Field(m, "dead_man", "heartbeat_interval_seconds") }
  function MaximumAge(m: Json): Json { Field(m, "dead_man", "maximum_heartbeat_age_seconds") }

  predicate Known(kind: FieldKind, v: Json) {
    !IsPending(v) && Settled(kind, v)
  }

  predicate ThresholdsStraddle(buy: Json, sell: Json) {
    Known(Probability, buy) && Known(Probability, sell) ==> ProbabilityValue(sell.s) < 0.5 < ProbabilityValue(buy.s)
  }

  predicate LimitsMonotone(perTrade: Json, daily: Json, monthly: Json) {
    Known(PositiveInt, perTrade) && Known(PositiveInt, daily) && Known(PositiveInt, monthly) ==>
      perTrade.i <= daily.i <= monthly.i
  }

  predicate AgeExceedsInterval(interval: Json, maximumAge: Json) {
    Known(PositiveInt, interval) && Known(PositiveInt, maximumAge) ==> maximumAge.i > interval.i
  }

  predicate CrossOk(m: Json) {
    && ThresholdsStraddle(Buy(m), Sell(m))
    && LimitsMonotone(PerTrade(m), Daily(m), Monthly(m))
    && AgeExceedsInterval(Interval(m), MaximumAge(m))
  }

  ghost predicate IsValid(schema: Schema, m: Json, draft: bool) {
    && HasShape(schema, m)
    && (if draft then HasIdentity(m, DRAFT_SCHEMA, DRAFT_STATUS) else HasIdentity(m, FROZEN_SCHEMA, FROZEN_STATUS))
    && FieldsOk(schema, m, draft)
    && CrossOk(m)
  }

  // ----- tables of the right shape

  /** The seven fields the cross rules read have the kinds those rules expect. */
  predicate CrossFieldsTyped(schema: Schema) {
    && {"signal", "risk", "dead_man"} <= schema.Keys
    && "buy_threshold" in schema["signal"] && schema["signal"]["buy_threshold"] == Probability
    && "sell_threshold" in schema["signal"] && schema["signal"]["sell_threshold"] == Probability
    && "per_trade_loss_bound_jpy" in schema["risk"] && schema["risk"]["per_trade_loss_bound_jpy"] == PositiveInt
    && "daily_loss_limit_jpy" in schema["risk"] && schema["risk"]["daily_loss_limit_jpy"] == PositiveInt
    && "monthly_loss_limit_jpy" in schema["risk"] && schema["risk"]["monthly_loss_limit_jpy"] == PositiveInt
    && "heartbeat_interval_seconds" in schema["dead_man"]
    && schema["dead_man"]["heartbeat_interval_seconds"] == PositiveInt
    && "maximum_heartbeat_age_seconds" in schema["dead_man"]
    && schema["dead_man"]["maximum_heartbeat_age_seconds"] == PositiveInt
  }

  ghost predicate IsTable(schema: Schema) {
    && "manifest_schema" !in schema && "manifest_status" !in schema
    && CrossFieldsTyped(schema)
  }

  /** The table leaves the account mode one choice. */
  ghost predicate NamesDedicated(schema: Schema) {
    && "ownership" in schema && "account_mode" in schema["ownership"]
    && schema["ownership"]["account_mode"] == OneOf(AccountModes())
  }

  /** The table asks for the execution profile by label, digest and entry style. */
  ghost predicate NamesProfile(schema: Schema) {
    && "entry" in schema
    && "execution_profile_label" in schema["entry"] && schema["entry"]["execution_profile_label"] == Label
    && "execution_profile_hash" in schema["entry"] && schema["entry"]["execution_profile_hash"] == Sha256
    && "entry_style" in schema["entry"] && schema["entry"]["entry_style"] == OneOf(EntryStyles())
  }

  lemma {:induction false} EntryStylesOffer()
    ensures OffersLabel({"PENDING_ENTRY", "IMMEDIATE_ENTRY"})
  {
    assert "IMMEDIATE_ENTRY"[0] == 'I';
    assert "IMMEDIATE_ENTRY" in {"PENDING_ENTRY", "IMMEDIATE_ENTRY"};
  }

  function EntryStyles(): Choices {
    EntryStylesOffer();
    {"PENDING_ENTRY", "IMMEDIATE_ENTRY"}
  }

  const ARMING_FLAGS: set<string> := {"actual_post_authorized", "live_ready", "unattended_live_supported"}

  /** The table has the arming flags, and wants each of them false. */
  ghost predicate NamesDisarmed(schema: Schema) {
    && "safety" in schema && schema["safety"].Keys == ARMING_FLAGS
    && forall k :: k in schema["safety"] ==> schema["safety"][k] == Must(false)
  }

  lemma {:induction false} AccountModesOffer()
    ensures OffersLabel({"DEDICATED"})
  {
    assert "DEDICATED"[0] == 'D';
    assert "DEDICATED" in {"DEDICATED"};
  }

  function AccountModes(): Choices {
    AccountModesOffer();
    {"DEDICATED"}
  }

  /** A frozen manifest always claims a dedicated account. */
  lemma {:induction false} FrozenIsDedicated(schema: Schema, m: Json)
    requires NamesDedicated(schema) && IsValid(schema, m, false)
    ensures Field(m, "ownership", "account_mode") == Str("DEDICATED")
  {
    assert FieldOk(schema["ownership"]["account_mode"], Field(m, "ownership", "account_mode"), false);
  }

  /** No frozen manifest authorises a post, claims to be live-ready, or claims unattended support. */
  lemma {:induction false} FrozenIsDisarmed(schema: Schema, m: Json)
    requires NamesDisarmed(schema) && IsValid(schema, m, false)
    ensures forall k :: k in ARMING_FLAGS ==> Field(m, "safety", k) == Bool(false)
  {
    forall k | k in schema["safety"]
      ensures Field(m, "safety", k) == Bool(false)
    {
      assert FieldOk(schema["safety"][k], Field(m, "safety", k), false);
    }
  }

  // ----- frozen is draft without pending values

  /** The same manifest under the draft identity strings, or back under the frozen ones. */
  function WithIdentity(m: Json, schemaName: string, status: string): Json
    requires m.Obj?
  {
    Obj(m.fields["manifest_schema" := Str(schemaName)]["manifest_status" := Str(status)])
  }

  ghost predicate NothingPending(schema: Schema, m: Json) {
    forall s, k :: s in schema && k in schema[s] ==> !IsPending(Field(m, s, k))
  }

  lemma {:induction false} IdentityLeavesFields(schema: Schema, m: Json, schemaName: string, status: string)
    requires m.Obj? && "manifest_schema" !in schema && "manifest_status" !in schema && CrossFieldsTyped(schema)
    ensures forall s, k :: s in schema ==> Field(WithIdentity(m, schemaName, status), s, k) == Field(m, s, k)
    ensures CrossOk(WithIdentity(m, schemaName, status)) == CrossOk(m)
  {
    var w := WithIdentity(m, schemaName, status);
    forall s, k | s in schema
      ensures Field(w, s, k) == Field(m, s, k)
    {
      assert s != "manifest_schema" && s != "manifest_status";
    }
    assert "signal" in schema && "risk" in schema && "dead_man" in schema;
  }

  lemma {:induction false} IdentityLeavesShape(schema: Schema, m: Json, schemaName: string, status: string)
    requires m.Obj? && "manifest_schema" in m.fields && "manifest_status" in m.fields
    requires "manifest_schema" !in schema && "manifest_status" !in schema
    ensures HasShape(schema, WithIdentity(m, schemaName, status)) <==> HasShape(schema, m)
  {
    var w := WithIdentity(m, schemaName, status);
    assert w.fields.Keys == m.fields.Keys;
    assert forall s :: s in schema && s in m.fields ==> w.fields[s] == m.fields[s];
  }

  /** Frozen-valid exactly when the draft twin is draft-valid and no field is pending. */
  lemma {:induction false} FrozenIffDraftAndSettled(schema: Schema, m: Json)
    requires IsTable(schema)
    ensures IsValid(schema, m, false) <==>
      && HasIdentity(m, FROZEN_SCHEMA, FROZEN_STATUS)
      && IsValid(schema, WithIdentity(m, DRAFT_SCHEMA, DRAFT_STATUS), true)
      && NothingPending(schema, m)
  {
    if HasIdentity(m, FROZEN_SCHEMA, FROZEN_STATUS) {
      IdentityLeavesFields(schema, m, DRAFT_SCHEMA, DRAFT_STATUS);
      IdentityLeavesShape(schema, m, DRAFT_SCHEMA, DRAFT_STATUS);
      SettledFields(schema, m, WithIdentity(m, DRAFT_SCHEMA, DRAFT_STATUS));
    }
  }

  lemma {:induction false} SettledFields(schema: Schema, m: Json, w: Json)
    requires forall s, k :: s in schema ==> Field(w, s, k) == Field(m, s, k)
    ensures FieldsOk(schema, m, false) <==> FieldsOk(schema, w, true) && NothingPending(schema, m)
  {
  }

  // ----- blanking a frozen manifest

  /** A manifest of the same shape in which every field is kept or made pending. */
  ghost predicate Blanks(schema: Schema, d: Json, m: Json) {
    && HasShape(schema, d) && HasIdentity(d, DRAFT_SCHEMA, DRAFT_STATUS)
    && forall s, k :: s in schema && k in schema[s] ==> Field(d, s, k) == Field(m, s, k) || IsPending(Field(d, s, k))
  }

  /** Making any fields of a frozen manifest pending leaves a valid draft. */
  lemma {:induction false} BlankingLeavesDraft(schema: Schema, m: Json, d: Json)
    requires IsTable(schema) && IsValid(schema, m, false) && Blanks(schema, d, m)
    ensures IsValid(schema, d, true)
  {
    forall s, k | s in schema && k in schema[s]
      ensures FieldOk(schema[s][k], Field(d, s, k), true)
    {
      assert FieldOk(schema[s][k], Field(m, s, k), false);
    }
    BlankingKeepsCross(schema, m, d);
  }

  lemma {:induction false} BlankingKeepsCross(schema: Schema, m: Json, d: Json)
    requires IsTable(schema) && CrossOk(m) && Blanks(schema, d, m)
    ensures CrossOk(d)
  {
    assert Buy(d) == Buy(m) || IsPending(Buy(d));
    assert Sell(d) == Sell(m) || IsPending(Sell(d));
    assert PerTrade(d) == PerTrade(m) || IsPending(PerTrade(d));
    assert Daily(d) == Daily(m) || IsPending(Daily(d));
    assert Monthly(d) == Monthly(m) || IsPending(Monthly(d));
    assert Interval(d) == Interval(m) || IsPending(Interval(d));
    assert MaximumAge(d) == MaximumAge(m) || IsPending(MaximumAge(d));
  }

  // ----- which drafts can be frozen

  /** A frozen manifest that keeps everything the draft has settled. */
  ghost predicate Completes(schema: Schema, m: Json, d: Json) {
    && IsValid(schema, m, false)
    && forall s, k :: s in schema && k in schema[s] && !IsPending(Field(d, s, k)) ==> Field(m, s, k) == Field(d, s, k)
  }

  predicate ThresholdsLeaveRoom(buy: Json, sell: Json) {
    && (Known(Probability, buy) ==> ProbabilityValue(buy.s) > 0.5)
    && (Known(Probability, sell) ==> ProbabilityValue(sell.s) < 0.5)
  }

  predicate LimitsLeaveRoom(perTrade: Json, daily: Json, monthly: Json) {
    && (Known(PositiveInt, perTrade) && Known(PositiveInt, daily) ==> perTrade.i <= daily.i)
    && (Known(PositiveInt, daily) && Known(PositiveInt, monthly) ==> daily.i <= monthly.i)
    && (Known(PositiveInt, perTrade) && Known(PositiveInt, monthly) ==> perTrade.i <= monthly.i)
  }

  predicate AgeLeavesRoom(maximumAge: Json) {
    Known(PositiveInt, maximumAge) ==> maximumAge.i >= 2
  }

  /**
    The settled members of each cross rule leave room for the pending ones: each threshold is on its own
    side of one half, any two known limits are in order, and a known maximum age is at least 2 seconds.
   */
  predicate LeavesRoom(d: Json) {
    && ThresholdsLeaveRoom(Buy(d), Sell(d))
    && LimitsLeaveRoom(PerTrade(d), Daily(d), Monthly(d))
    && AgeLeavesRoom(MaximumAge(d))
  }

  /** A value for a field of this kind that nothing else constrains. */
  ghost function Default(kind: FieldKind): Json
  {
    match kind
    case Label => Str("X")
    case OneOf(allowed) =>
      var x :| x in allowed && IsSafeLabel(x) && !IsPending(Str(x));
      Str(x)
    case Sha256 => Str(SHA256_PREFIX + seq(64, _ => '0'))
    case PositiveInt => Int(1)
    case NonNegativeInt => Int(0)
    case ExactlyOne => Int(1)
    case AnyBool => Bool(false)
    case Must(b) => Bool(b)
    case Probability => Str("0.4")
  }

  lemma {:induction false} DefaultIsSettled(kind: FieldKind)
    ensures Known(kind, Default(kind))
  {
    LowProbability();
    if kind.Label? {
      assert Default(kind).s[0] == 'X';
    } else if kind.Sha256? {
      var text := SHA256_PREFIX + seq(64, _ => '0');
      assert |text| == 71 && text[..7] == SHA256_PREFIX && text[0] == 's';
      assert forall i :: 7 <= i < 71 ==> text[i] == '0';
    }
  }

  lemma {:induction false} LowProbability()
    ensures IsCanonicalProbability("0.4") && ProbabilityValue("0.4") < 0.5 && !IsPending(Str("0.4"))
  {
    assert "0.4"[2..] == "4";
    assert "4"[1..] == [];
    assert Fraction("4") == 4.0 / 10.0;
  }

  lemma {:induction false} HighProbability()
    ensures IsCanonicalProbability("0.6") && ProbabilityValue("0.6") > 0.5 && !IsPending(Str("0.6"))
  {
    assert "0.6"[2..] == "6";
    assert "6"[1..] == [];
    assert Fraction("6") == 6.0 / 10.0;
  }

  function Larger(x: int, y: int): int {
    if x < y then y else x
  }

  /** Pending limits fill upwards from the per-trade bound; a pending maximum age exceeds the interval by one. */
  ghost function Fill(kind: FieldKind, d: Json, s: string, k: string): Json
  {
    var perTrade := if Known(PositiveInt, PerTrade(d)) then PerTrade(d).i else 1;
    var daily := if Known(PositiveInt, Daily(d)) then Daily(d).i else perTrade;
    var interval := if Known(PositiveInt, Interval(d)) then Interval(d).i else 1;
    if !IsPending(Field(d, s, k)) then Field(d, s, k)
    else if s == "signal" && k == "buy_threshold" then Str("0.6")
    else if s == "risk" && k == "daily_loss_limit_jpy" then Int(daily)
    else if s == "risk" && k == "monthly_loss_limit_jpy" then Int(Larger(perTrade, daily))
    else if s == "dead_man" && k == "maximum_heartbeat_age_seconds" then Int(interval + 1)
    else Default(kind)
  }

  ghost function Completed(schema: Schema, d: Json): Json
    requires IsTable(schema)
  {
    Obj((map s | s in schema :: Obj(map k | k in schema[s] :: Fill(schema[s][k], d, s, k)))
      ["manifest_schema" := Str(FROZEN_SCHEMA)]["manifest_status" := Str(FROZEN_STATUS)])
  }

  lemma {:induction false} CompletedFields(schema: Schema, d: Json, s: string, k: string)
    requires IsTable(schema) && s in schema && k in schema[s]
    ensures Field(Completed(schema, d), s, k) == Fill(schema[s][k], d, s, k)
  {
  }

  lemma {:induction false} CompletedShape(schema: Schema, d: Json)
    requires IsTable(schema)
    ensures HasShape(schema, Completed(schema, d)) && HasIdentity(Completed(schema, d), FROZEN_SCHEMA, FROZEN_STATUS)
  {
    var m := Completed(schema, d);
    assert m.fields.Keys == schema.Keys + {"manifest_schema", "manifest_status"};
    forall s | s in schema
      ensures IsExactMapping(m.fields[s], schema[s].Keys)
    {
      assert m.fields[s] == Obj(map k | k in schema[s] :: Fill(schema[s][k], d, s, k));
    }
  }

  lemma {:induction false} FillIsSettled(schema: Schema, d: Json, s: string, k: string)
    requires IsTable(schema) && IsValid(schema, d, true) && s in schema && k in schema[s]
    ensures Known(schema[s][k], Fill(schema[s][k], d, s, k))
  {
    assert FieldOk(schema[s][k], Field(d, s, k), true);
    DefaultIsSettled(schema[s][k]);
    HighProbability();
  }

  lemma {:induction false} FillKeepsThresholds(schema: Schema, d: Json)
    requires IsTable(schema) && IsValid(schema, d, true) && LeavesRoom(d)
    ensures ThresholdsStraddle(
      Fill(Probability, d, "signal", "buy_threshold"), Fill(Probability, d, "signal", "sell_threshold"))
  {
    LowProbability();
    HighProbability();
  }

  /** Whatever is pending among three limits, filling upwards from the per-trade bound puts them in order. */
  lemma {:induction false} FilledLimits(perTrade: Json, daily: Json, monthly: Json)
    requires IsPending(perTrade) || Settled(PositiveInt, perTrade)
    requires IsPending(daily) || Settled(PositiveInt, daily)
    requires IsPending(monthly) || Settled(PositiveInt, monthly)
    requires LimitsLeaveRoom(perTrade, daily, monthly)
    ensures
      var first := if IsPending(perTrade) then 1 else perTrade.i;
      var second := if IsPending(daily) then first else daily.i;
      LimitsMonotone(
        if IsPending(perTrade) then Int(1) else perTrade, if IsPending(daily) then Int(second) else daily,
        if IsPending(monthly) then Int(Larger(first, second)) else monthly)
  {
  }

  lemma {:induction false} FillKeepsLimits(schema: Schema, d: Json)
    requires IsTable(schema) && IsValid(schema, d, true) && LeavesRoom(d)
    ensures LimitsMonotone(
      Fill(PositiveInt, d, "risk", "per_trade_loss_bound_jpy"), Fill(PositiveInt, d, "risk", "daily_loss_limit_jpy"),
      Fill(PositiveInt, d, "risk", "monthly_loss_limit_jpy"))
  {
    assert FieldOk(PositiveInt, PerTrade(d), true) && FieldOk(PositiveInt, Daily(d), true);
    assert FieldOk(PositiveInt, Monthly(d), true);
    FilledLimits(PerTrade(d), Daily(d), Monthly(d));
    LimitNamesDiffer();
  }

  lemma {:induction false} FillKeepsAge(schema: Schema, d: Json)
    requires IsTable(schema) && IsValid(schema, d, true) && LeavesRoom(d)
    ensures AgeExceedsInterval(
      Fill(PositiveInt, d, "dead_man", "heartbeat_interval_seconds"),
      Fill(PositiveInt, d, "dead_man", "maximum_heartbeat_age_seconds"))
  {
    assert FieldOk(PositiveInt, Interval(d), true) && FieldOk(PositiveInt, MaximumAge(d), true);
  }

  lemma {:induction false} RoomCanBeFilled(schema: Schema, d: Json)
    requires IsTable(schema) && IsValid(schema, d, true) && LeavesRoom(d)
    ensures Completes(schema, Completed(schema, d), d)
  {
    var m := Completed(schema, d);
    CompletedShape(schema, d);
    forall s, k | s in schema && k in schema[s]
      ensures Known(schema[s][k], Field(m, s, k)) && Field(m, s, k) == Fill(schema[s][k], d, s, k)
    {
      CompletedFields(schema, d, s, k);
      FillIsSettled(schema, d, s, k);
    }
    FillKeepsThresholds(schema, d);
    FillKeepsLimits(schema, d);
    FillKeepsAge(schema, d);
  }

  /** What a completion has in a field: a settled value, the draft's own where it had one. */
  ghost predicate Kept(kind: FieldKind, v: Json, was: Json) {
    Known(kind, v) && (IsPending(was) || v == was)
  }

  lemma {:induction false} CompletionKeeps(schema: Schema, m: Json, d: Json, s: string, k: string)
    requires Completes(schema, m, d) && s in schema && k in schema[s]
    ensures Kept(schema[s][k], Field(m, s, k), Field(d, s, k))
  {
    assert FieldOk(schema[s][k], Field(m, s, k), false);
  }

  lemma {:induction false} KeptThresholds(buy: Json, sell: Json, wasBuy: Json, wasSell: Json)
    requires Kept(Probability, buy, wasBuy) && Kept(Probability, sell, wasSell) && ThresholdsStraddle(buy, sell)
    ensures ThresholdsLeaveRoom(wasBuy, wasSell)
  {
  }

  lemma {:induction false} KeptLimits(
    perTrade: Json, daily: Json, monthly: Json, wasPerTrade: Json, wasDaily: Json, wasMonthly: Json)
    requires Kept(PositiveInt, perTrade, wasPerTrade) && Kept(PositiveInt, daily, wasDaily)
    requires Kept(PositiveInt, monthly, wasMonthly) && LimitsMonotone(perTrade, daily, monthly)
    ensures LimitsLeaveRoom(wasPerTrade, wasDaily, wasMonthly)
  {
  }

  lemma {:induction false} KeptAge(interval: Json, maximumAge: Json, wasMaximumAge: Json)
    requires Known(PositiveInt, interval) && Kept(PositiveInt, maximumAge, wasMaximumAge)
    requires AgeExceedsInterval(interval, maximumAge)
    ensures AgeLeavesRoom(wasMaximumAge)
  {
  }

  lemma {:induction false} CompletionLeavesRoom(schema: Schema, m: Json, d: Json)
    requires IsTable(schema) && Completes(schema, m, d)
    ensures LeavesRoom(d)
  {
    CompletionKeeps(schema, m, d, "signal", "buy_threshold");
    CompletionKeeps(schema, m, d, "signal", "sell_threshold");
    KeptThresholds(Buy(m), Sell(m), Buy(d), Sell(d));
    CompletionKeeps(schema, m, d, "risk", "per_trade_loss_bound_jpy");
    CompletionKeeps(schema, m, d, "risk", "daily_loss_limit_jpy");
    CompletionKeeps(schema, m, d, "risk", "monthly_loss_limit_jpy");
    KeptLimits(PerTrade(m), Daily(m), Monthly(m), PerTrade(d), Daily(d), Monthly(d));
    CompletionKeeps(schema, m, d, "dead_man", "heartbeat_interval_seconds");
    CompletionKeeps(schema, m, d, "dead_man", "maximum_heartbeat_age_seconds");
    KeptAge(Interval(m), MaximumAge(m), MaximumAge(d));
  }

  /** A valid draft can be completed to a frozen manifest exactly when its settled cross-rule members leave room. */
  lemma {:induction false} FreezableIffRoom(schema: Schema, d: Json)
    requires IsTable(schema) && IsValid(schema, d, true)
    ensures (exists m :: Completes(schema, m, d)) <==> LeavesRoom(d)
  {
    if LeavesRoom(d) {
      RoomCanBeFilled(schema, d);
    }
    forall m | Completes(schema, m, d)
      ensures LeavesRoom(d)
    {
      CompletionLeavesRoom(schema, m, d);
    }
  }

  function AllPendingSection(section: Section): Json {
    Obj(map k | k in section :: Str("PENDING"))
  }

  /** Every field still open. */
  function AllPending(schema: Schema): Json {
    Obj((map s | s in schema :: AllPendingSection(schema[s]))
      ["manifest_schema" := Str(DRAFT_SCHEMA)]["manifest_status" := Str(DRAFT_STATUS)])
  }

  lemma {:induction false} AllPendingReads(schema: Schema)
    requires IsTable(schema)
    ensures HasShape(schema, AllPending(schema)) && HasIdentity(AllPending(schema), DRAFT_SCHEMA, DRAFT_STATUS)
    ensures forall s, k :: s in schema && k in schema[s] ==> Field(AllPending(schema), s, k) == Str("PENDING")
  {
    var d := AllPending(schema);
    assert d.fields.Keys == schema.Keys + {"manifest_schema", "manifest_status"};
    forall s | s in schema
      ensures d.fields[s] == AllPendingSection(schema[s]) && IsExactMapping(d.fields[s], schema[s].Keys)
    {
      assert d.fields[s] == AllPendingSection(schema[s]);
    }
  }

  lemma {:induction false} PendingIsPending()
    ensures IsPending(Str("PENDING"))
  {
    assert "PENDING" != "PENDING_ENTRY" by {
      assert |"PENDING"| == 7 && |"PENDING_ENTRY"| == 13;
    }
  }

  lemma {:induction false} AllPendingIsDraft(schema: Schema)
    requires IsTable(schema)
    ensures IsValid(schema, AllPending(schema), true) && LeavesRoom(AllPending(schema))
  {
    AllPendingReads(schema);
    PendingIsPending();
  }

  /** One settled field of an otherwise unchanged manifest. */
  function WithField(m: Json, s: string, k: string, v: Json): Json
    requires m.Obj? && s in m.fields && m.fields[s].Obj?
  {
    Obj(m.fields[s := Obj(m.fields[s].fields[k := v])])
  }

  lemma {:induction false} WithFieldReads(m: Json, s: string, k: string, v: Json)
    requires m.Obj? && s in m.fields && m.fields[s].Obj?
    ensures forall s', k' :: Field(WithField(m, s, k, v), s', k') == if s' == s && k' == k then v else Field(m, s', k')
  {
  }

  lemma {:induction false} WithFieldKeepsShape(schema: Schema, m: Json, s: string, k: string, v: Json)
    requires HasShape(schema, m) && s in schema && k in schema[s]
    ensures HasShape(schema, WithField(m, s, k, v))
  {
    var w := WithField(m, s, k, v);
    assert w.fields.Keys == m.fields.Keys;
    assert w.fields[s].fields.Keys == m.fields[s].fields.Keys;
  }

  /** Settling a field of a draft with a value of its kind keeps the draft valid while the cross rules hold. */
  lemma {:induction false} SettlingKeepsDraft(schema: Schema, d: Json, s: string, k: string, v: Json)
    requires IsTable(schema) && IsValid(schema, d, true) && s in schema && k in schema[s]
    requires Known(schema[s][k], v) && CrossOk(WithField(d, s, k, v))
    ensures IsValid(schema, WithField(d, s, k, v), true)
  {
    WithFieldKeepsShape(schema, d, s, k, v);
    SettlingKeepsFields(schema, d, s, k, v);
    assert s != "manifest_schema" && s != "manifest_status";
  }

  lemma {:induction false} SettlingKeepsFields(schema: Schema, d: Json, s: string, k: string, v: Json)
    requires HasShape(schema, d) && FieldsOk(schema, d, true) && s in schema && k in schema[s]
    requires Known(schema[s][k], v)
    ensures FieldsOk(schema, WithField(d, s, k, v), true)
  {
    WithFieldReads(d, s, k, v);
    forall s', k' | s' in schema && k' in schema[s']
      ensures FieldOk(schema[s'][k'], Field(WithField(d, s, k, v), s', k'), true)
    {
      assert FieldOk(schema[s'][k'], Field(d, s', k'), true);
    }
  }

  /** While the daily limit is pending, the other two limits may be settled at will. */
  lemma {:induction false} SettleLimit(schema: Schema, d: Json, k: string, yen: int)
    requires IsTable(schema) && IsValid(schema, d, true) && IsPending(Daily(d)) && yen >= 1
    requires k == "per_trade_loss_bound_jpy" || k == "monthly_loss_limit_jpy"
    ensures var w := WithField(d, "risk", k, Int(yen));
      && IsValid(schema, w, true) && Daily(w) == Daily(d) && Field(w, "risk", k) == Int(yen)
      && (k == "monthly_loss_limit_jpy" ==> PerTrade(w) == PerTrade(d))
  {
    LimitNamesDiffer();
    WithFieldReads(d, "risk", k, Int(yen));
    SettlingKeepsDraft(schema, d, "risk", k, Int(yen));
  }

  lemma {:induction false} LimitNamesDiffer()
    ensures "per_trade_loss_bound_jpy" != "daily_loss_limit_jpy"
    ensures "daily_loss_limit_jpy" != "monthly_loss_limit_jpy"
    ensures "per_trade_loss_bound_jpy" != "monthly_loss_limit_jpy"
    ensures "signal" != "risk" && "dead_man" != "risk"
  {
    assert "per_trade_loss_bound_jpy"[0] == 'p' && "daily_loss_limit_jpy"[0] == 'd';
    assert "monthly_loss_limit_jpy"[0] == 'm';
    assert "signal"[0] == 's' && "risk"[0] == 'r' && "dead_man"[0] == 'd';
  }

  lemma {:induction false} NoRoom(d: Json)
    requires PerTrade(d) == Int(2) && Monthly(d) == Int(1)
    ensures !LeavesRoom(d)
  {
  }

  /** A valid draft that no choice of its pending fields can complete: 2 per trade, 1 per month, the day open. */
  lemma {:induction false} SomeDraftsAreStuck(schema: Schema) returns (d: Json)
    requires IsTable(schema)
    ensures IsValid(schema, d, true)
    ensures PerTrade(d) == Int(2) && IsPending(Daily(d)) && Monthly(d) == Int(1)
    ensures !exists m :: Completes(schema, m, d)
  {
    var blank := AllPending(schema);
    AllPendingIsDraft(schema);
    AllPendingReads(schema);
    PendingIsPending();
    SettleLimit(schema, blank, "per_trade_loss_bound_jpy", 2);
    d := WithField(blank, "risk", "per_trade_loss_bound_jpy", Int(2));
    SettleLimit(schema, d, "monthly_loss_limit_jpy", 1);
    d := WithField(d, "risk", "monthly_loss_limit_jpy", Int(1));
    NoRoom(d);
    FreezableIffRoom(schema, d);
  }

  // ----- a frozen manifest for a given profile

  /** Settling an entry field touches no cross rule, so it keeps a draft valid and its room. */
  lemma {:induction false} SettleEntry(schema: Schema, d: Json, k: string, v: Json)
    requires IsTable(schema) && IsValid(schema, d, true) && LeavesRoom(d)
    requires "entry" in schema && k in schema["entry"] && Known(schema["entry"][k], v)
    ensures var w := WithField(d, "entry", k, v);
      && IsValid(schema, w, true) && LeavesRoom(w) && Field(w, "entry", k) == v
      && forall k' :: k' != k ==> Field(w, "entry", k') == Field(d, "entry", k')
  {
    EntryIsNoCrossSection();
    WithFieldReads(d, "entry", k, v);
    SettlingKeepsDraft(schema, d, "entry", k, v);
  }

  lemma {:induction false} EntryIsNoCrossSection()
    ensures "entry" !in {"signal", "risk", "dead_man"}
  {
    assert "signal"[0] == 's' && "risk"[0] == 'r' && "dead_man"[0] == 'd' && "entry"[0] == 'e';
  }

  lemma {:induction false} EntryFieldsDiffer()
    ensures "execution_profile_label" != "execution_profile_hash"
    ensures "entry_style" !in {"execution_profile_label", "execution_profile_hash"}
  {
    assert |"execution_profile_label"| == 23 && |"execution_profile_hash"| == 22 && |"entry_style"| == 11;
  }

  lemma {:induction false} DraftForProfile(schema: Schema, name: Json, digest: Json, style: Json) returns (d: Json)
    requires IsTable(schema) && NamesProfile(schema)
    requires Known(Label, name) && Known(Sha256, digest) && Known(OneOf(EntryStyles()), style)
    ensures IsValid(schema, d, true) && LeavesRoom(d)
    ensures Field(d, "entry", "execution_profile_label") == name
    ensures Field(d, "entry", "execution_profile_hash") == digest
    ensures Field(d, "entry", "entry_style") == style
  {
    EntryFieldsDiffer();
    AllPendingIsDraft(schema);
    d := AllPending(schema);
    SettleEntry(schema, d, "execution_profile_label", name);
    d := WithField(d, "entry", "execution_profile_label", name);
    SettleEntry(schema, d, "execution_profile_hash", digest);
    d := WithField(d, "entry", "execution_profile_hash", digest);
    SettleEntry(schema, d, "entry_style", style);
    d := WithField(d, "entry", "entry_style", style);
  }

  /** Some frozen manifest names any given profile, if its label, digest and style are settled values. */
  lemma {:induction false} FrozenForProfile(schema: Schema, name: Json, digest: Json, style: Json) returns (m: Json)
    requires IsTable(schema) && NamesProfile(schema)
    requires Known(Label, name) && Known(Sha256, digest) && Known(OneOf(EntryStyles()), style)
    ensures IsValid(schema, m, false)
    ensures Field(m, "entry", "execution_profile_label") == name
    ensures Field(m, "entry", "execution_profile_hash") == digest
    ensures Field(m, "entry", "entry_style") == style
  {
    var d := DraftForProfile(schema, name, digest, style);
    RoomCanBeFilled(schema, d);
    m := Completed(schema, d);
    CompletionKeeps(schema, m, d, "entry", "execution_profile_label");
    CompletionKeeps(schema, m, d, "entry", "execution_profile_hash");
    CompletionKeeps(schema, m, d, "entry", "entry_style");
  }

  // ----- the real table

  lemma {:induction false} HorizonsOffer()
    ensures OffersLabel({"10m", "30m"})
  {
    assert "10m" in {"10m", "30m"} && "10m"[0] == '1';
  }

  function Horizons(): Choices {
    HorizonsOffer();
    {"10m", "30m"}
  }

  const IDENTITY: Section := map[
    "generation_label" := Label, "project" := Label, "strategy_version" := Label, "implementation_digest" := Sha256]

  const SIGNAL: Section := map[
    "selected_horizon" := OneOf(Horizons()), "signal_config_hash" := Sha256,
    "formal_only" := Must(true), "rolling_allowed" := Must(false), "h24_allowed" := Must(false),
    "buy_threshold" := Probability, "sell_threshold" := Probability]

  const DATA_CLOCK: Section := map[
    "source_profile_label" := Label, "finalized_m1_required" := Must(true),
    "finalization_margin_seconds" := NonNegativeInt, "maximum_m1_age_seconds" := PositiveInt,
    "maximum_ticker_age_seconds" := PositiveInt, "maximum_clock_skew_seconds" := PositiveInt,
    "missed_signal_backfill_allowed" := Must(false)]

  const POSITION: Section := map[
    "symbol" := Label, "quantity_units" := PositiveInt,
    "maximum_open_positions" := ExactlyOne, "maximum_entries_per_jst_day" := ExactlyOne,
    "scale_in_allowed" := Must(false), "hedging_allowed" := Must(false)]

  const RISK: Section := map[
    "policy_label" := Label, "maximum_consecutive_losses" := PositiveInt, "automatic_resume_after_stop" := Must(false),
    "per_trade_loss_bound_jpy" := PositiveInt, "daily_loss_limit_jpy" := PositiveInt,
    "monthly_loss_limit_jpy" := PositiveInt]

  const ENTRY: Section := map[
    "execution_profile_label" := Label, "execution_profile_hash" := Sha256,
    "entry_style" := OneOf(EntryStyles()),
    "short_pending_expiry_or_no_pending_entry_required" := Must(true),
    "full_fill_or_atomic_protection_size_match_required" := Must(true),
    "server_side_stop_required" := Must(true), "server_side_take_profit_required" := Must(true),
    "maximum_attempts_per_intent" := ExactlyOne, "retry_allowed" := Must(false), "repost_allowed" := Must(false)]

  const EXIT: Section := map[
    "exit_profile_label" := Label, "position_specific_route_required" := Must(true),
    "generic_close_allowed" := Must(false), "opposite_entry_as_exit_allowed" := Must(false),
    "maximum_attempts_per_intent" := ExactlyOne, "retry_allowed" := Must(false), "repost_allowed" := Must(false),
    "stop_loss_contract" := Label, "take_profit_contract" := Label,
    "maximum_hold_seconds" := PositiveInt, "formal_edge_exit_enabled" := AnyBool]

  const RECONCILIATION: Section := map[
    "boot_required" := Must(true), "before_entry_required" := Must(true), "after_entry_required" := Must(true),
    "periodic_position_monitor_required" := Must(true), "before_exit_required" := Must(true),
    "after_exit_required" := Must(true), "after_websocket_reconnect_required" := Must(true),
    "after_process_restart_required" := Must(true), "maximum_age_seconds" := PositiveInt,
    "unknown_result_halts" := Must(true)]

  const DEAD_MAN: Section := map[
    "policy_label" := Label, "automatic_resume" := Must(false),
    "heartbeat_interval_seconds" := PositiveInt, "maximum_heartbeat_age_seconds" := PositiveInt]

  const NOTIFICATION: Section := map[
    "primary_profile_label" := Label, "secondary_profile_label" := Label,
    "entry_requires_primary_ready" := Must(true), "delivery_failure_blocks_new_entry" := Must(true)]

  const OWNERSHIP: Section := map[
    "account_mode" := OneOf(AccountModes()), "external_or_manual_position_halts" := Must(true)]

  const HOST: Section := map[
    "host_profile_label" := Label, "supervisor_profile_label" := Label,
    "clock_monitor_required" := Must(true), "operator_kill_required" := Must(true)]

  const CREDENTIAL_PERMISSION: Section := map[
    "credential_profile_label" := Label, "permission_profile_label" := Label,
    "env_fallback_allowed" := Must(false), "raw_secret_logging_allowed" := Must(false)]

  const SAFETY: Section := map[
    "actual_post_authorized" := Must(false), "live_ready" := Must(false), "unattended_live_supported" := Must(false)]

  const PLAIN_SECTIONS: Schema := map[
    "identity" := IDENTITY, "data_clock" := DATA_CLOCK, "position" := POSITION, "entry" := ENTRY, "exit" := EXIT,
    "reconciliation" := RECONCILIATION, "notification" := NOTIFICATION, "host" := HOST,
    "credential_permission" := CREDENTIAL_PERMISSION]

  /** A table with the five sections the laws speak of. */
  function Assemble(
    plain: Schema, ownership: Section, safety: Section, signal: Section, risk: Section, deadMan: Section): Schema
  {
    plain["ownership" := ownership]["safety" := safety]["signal" := signal]["risk" := risk]["dead_man" := deadMan]
  }

  /** All fourteen sections. */
  const SCHEMA: Schema := Assemble(PLAIN_SECTIONS, OWNERSHIP, SAFETY, SIGNAL, RISK, DEAD_MAN)

  lemma {:induction false} SectionNamesDiffer()
    ensures "ownership" !in {"safety", "signal", "risk", "dead_man"}
    ensures "safety" !in {"signal", "risk", "dead_man"}
    ensures "signal" !in {"risk", "dead_man"}
    ensures "risk" != "dead_man"
  {
    assert "ownership"[0] == 'o' && "risk"[0] == 'r' && "dead_man"[0] == 'd';
    assert "safety"[0] == 's' && "signal"[0] == 's' && "safety"[1] == 'a' && "signal"[1] == 'i';
  }

  lemma {:induction false} FiveUpdates<V>(
    plain: map<string, V>, a: string, va: V, b: string, vb: V, c: string, vc: V, d: string, vd: V,
    e: string, ve: V)
    requires a !in {b, c, d, e} && b !in {c, d, e} && c !in {d, e} && d != e
    ensures var updated := plain[a := va][b := vb][c := vc][d := vd][e := ve];
      && updated.Keys == plain.Keys + {a, b, c, d, e}
      && updated[a] == va && updated[b] == vb && updated[c] == vc && updated[d] == vd && updated[e] == ve
      && forall s :: s in plain && s !in {a, b, c, d, e} ==> updated[s] == plain[s]
  {
  }

  lemma {:induction false} AssembledSections(
    plain: Schema, ownership: Section, safety: Section, signal: Section, risk: Section, deadMan: Section)
    ensures var schema := Assemble(plain, ownership, safety, signal, risk, deadMan);
      && schema.Keys == plain.Keys + {"ownership", "safety", "signal", "risk", "dead_man"}
      && schema["ownership"] == ownership && schema["safety"] == safety && schema["signal"] == signal
      && schema["risk"] == risk && schema["dead_man"] == deadMan
      && forall s :: s in plain && s !in {"ownership", "safety", "signal", "risk", "dead_man"} ==>
        schema[s] == plain[s]
  {
    SectionNamesDiffer();
    FiveUpdates(
      plain, "ownership", ownership, "safety", safety, "signal", signal, "risk", risk, "dead_man", deadMan);
  }

  lemma {:induction false} SectionsAreNotIdentity()
    ensures "manifest_schema" !in {"ownership", "safety", "signal", "risk", "dead_man"}
    ensures "manifest_status" !in {"ownership", "safety", "signal", "risk", "dead_man"}
  {
    assert "ownership"[0] == 'o' && "risk"[0] == 'r' && "dead_man"[0] == 'd';
    assert "safety"[0] == 's' && "signal"[0] == 's';
    assert "manifest_schema"[0] == 'm' && "manifest_status"[0] == 'm';
  }

  lemma {:induction false} ThresholdFieldsTyped()
    ensures "buy_threshold" in SIGNAL && SIGNAL["buy_threshold"] == Probability
    ensures "sell_threshold" in SIGNAL && SIGNAL["sell_threshold"] == Probability
  {
    assert "buy_threshold"[0] == 'b' && "sell_threshold"[0] == 's';
  }

  lemma {:induction false} LimitFieldsTyped()
    ensures "per_trade_loss_bound_jpy" in RISK && RISK["per_trade_loss_bound_jpy"] == PositiveInt
    ensures "daily_loss_limit_jpy" in RISK && RISK["daily_loss_limit_jpy"] == PositiveInt
    ensures "monthly_loss_limit_jpy" in RISK && RISK["monthly_loss_limit_jpy"] == PositiveInt
  {
    assert "per_trade_loss_bound_jpy"[0] == 'p' && "daily_loss_limit_jpy"[0] == 'd';
    assert "monthly_loss_limit_jpy"[0] == 'm';
  }

  lemma {:induction false} HeartbeatFieldsTyped()
    ensures "heartbeat_interval_seconds" in DEAD_MAN && DEAD_MAN["heartbeat_interval_seconds"] == PositiveInt
    ensures "maximum_heartbeat_age_seconds" in DEAD_MAN && DEAD_MAN["maximum_heartbeat_age_seconds"] == PositiveInt
  {
    assert "heartbeat_interval_seconds"[0] == 'h' && "maximum_heartbeat_age_seconds"[0] == 'm';
  }

  lemma {:induction false} IdentityIsNoSection()
    ensures "manifest_schema" !in PLAIN_SECTIONS && "manifest_status" !in PLAIN_SECTIONS
  {
    assert |"manifest_schema"| == 15 && |"manifest_status"| == 15;
    assert forall s :: s in PLAIN_SECTIONS ==> |s| != 15;
  }

  lemma {:induction false} AccountModeTyped()
    ensures "account_mode" in OWNERSHIP && OWNERSHIP["account_mode"] == OneOf(AccountModes())
  {
    assert "account_mode"[0] == 'a' && "external_or_manual_position_halts"[0] == 'e';
  }

  lemma {:induction false} EntryFieldsTyped()
    ensures "execution_profile_label" in ENTRY && ENTRY["execution_profile_label"] == Label
    ensures "execution_profile_hash" in ENTRY && ENTRY["execution_profile_hash"] == Sha256
    ensures "entry_style" in ENTRY && ENTRY["entry_style"] == OneOf(EntryStyles())
  {
    EntryFieldsDiffer();
    assert "execution_profile_label"[1] == 'x' && "execution_profile_hash"[1] == 'x' && "entry_style"[1] == 'n';
  }

  lemma {:induction false} EntryIsPlain()
    ensures "entry" in PLAIN_SECTIONS && PLAIN_SECTIONS["entry"] == ENTRY
    ensures "entry" !in {"ownership", "safety", "signal", "risk", "dead_man"}
  {
    assert |"entry"| == 5 && |"exit"| == 4;
    EntryIsNoCrossSection();
    assert "ownership"[0] == 'o' && "safety"[0] == 's' && "entry"[0] == 'e';
  }

  lemma {:induction false} ArmingFlagsAreFalse()
    ensures SAFETY.Keys == ARMING_FLAGS
    ensures forall k :: k in SAFETY ==> SAFETY[k] == Must(false)
  {
  }

  /** The real table is one the laws apply to. */
  lemma {:induction false} SchemaIsTable()
    ensures IsTable(SCHEMA) && NamesDedicated(SCHEMA) && NamesDisarmed(SCHEMA) && NamesProfile(SCHEMA)
  {
    IdentityIsNoSection();
    SectionsAreNotIdentity();
    ThresholdFieldsTyped();
    LimitFieldsTyped();
    HeartbeatFieldsTyped();
    AccountModeTyped();
    ArmingFlagsAreFalse();
    EntryIsPlain();
    EntryFieldsTyped();
    TableFrom(PLAIN_SECTIONS, OWNERSHIP, SAFETY, SIGNAL, RISK, DEAD_MAN);
  }

  lemma {:induction false} TableFrom(
    plain: Schema, ownership: Section, safety: Section, signal: Section, risk: Section, deadMan: Section)
    requires "manifest_schema" !in plain && "manifest_status" !in plain
    requires "buy_threshold" in signal && signal["buy_threshold"] == Probability
    requires "sell_threshold" in signal && signal["sell_threshold"] == Probability
    requires "per_trade_loss_bound_jpy" in risk && risk["per_trade_loss_bound_jpy"] == PositiveInt
    requires "daily_loss_limit_jpy" in risk && risk["daily_loss_limit_jpy"] == PositiveInt
    requires "monthly_loss_limit_jpy" in risk && risk["monthly_loss_limit_jpy"] == PositiveInt
    requires "heartbeat_interval_seconds" in deadMan && deadMan["heartbeat_interval_seconds"] == PositiveInt
    requires "maximum_heartbeat_age_seconds" in deadMan && deadMan["maximum_heartbeat_age_seconds"] == PositiveInt
    requires "account_mode" in ownership && ownership["account_mode"] == OneOf(AccountModes())
    requires safety.Keys == ARMING_FLAGS && forall k :: k in safety ==> safety[k] == Must(false)
    requires NamesProfile(plain) && "entry" !in {"ownership", "safety", "signal", "risk", "dead_man"}
    ensures var schema := Assemble(plain, ownership, safety, signal, risk, deadMan);
      IsTable(schema) && NamesDedicated(schema) && NamesDisarmed(schema) && NamesProfile(schema)
  {
    SectionsAreNotIdentity();
    AssembledSections(plain, ownership, safety, signal, risk, deadMan);
  }
}
