/** The window-robustness verdict: medians and counts over any number of windows. */
module Robustness {
  import opened Wrappers
  import Rounding
  import Sorting

  datatype Group = Prior10 | Oos5

  /** One window's trade statistics; a window without losses has no profit factor. */
  datatype Window = Window(
    group: Group, expectancy: real, profitFactor: Option<real>, totalPnl: real, completedTrades: nat)

  function Identity(x: real): real {
    x
  }

  /** The middle of the sorted values, or the mean of the middle two. */
  function Median(values: seq<real>): real
    requires values != []
  {
    var sorted, n := Sorting.SortBy(values, Identity), |values|;
    Sorting.SortSorts(values, Identity);
    if n % 2 == 1 then sorted[n / 2] else (sorted[n / 2 - 1] + sorted[n / 2]) / 2.0
  }

  function RoundedMedian(values: seq<real>): real {
    if values == [] then 0.0 else Rounding.Round4(Median(values))
  }

  /** `r["profit_factor"] or 0.0`: a missing profit factor reads as zero. */
  function PfRead(w: Window): real {
    if w.profitFactor.Some? then w.profitFactor.value else 0.0
  }

  function Expectancies(windows: seq<Window>): (values: seq<real>)
    ensures |values| == |windows|
  {
    seq(|windows|, i requires 0 <= i < |windows| => windows[i].expectancy)
  }

  function ProfitFactors(windows: seq<Window>): (values: seq<real>)
    ensures |values| == |windows|
  {
    seq(|windows|, i requires 0 <= i < |windows| => PfRead(windows[i]))
  }

  function Count(windows: seq<Window>, p: Window -> bool): (n: nat)
    ensures n <= |windows|
  {
    if windows == [] then 0 else (if p(windows[0]) then 1 else 0) + Count(windows[1..], p)
  }

  predicate Positive(w: Window) {
    w.expectancy > 0.0
  }

  predicate HasEdge(w: Window) {
    w.expectancy > 0.0 && PfRead(w) > 1.0
  }

  function TotalPnl(windows: seq<Window>): real {
    if windows == [] then 0.0 else windows[0].totalPnl + TotalPnl(windows[1..])
  }

  function OfGroup(windows: seq<Window>, group: Group): seq<Window> {
    if windows == [] then []
    else (if windows[0].group == group then [windows[0]] else []) + OfGroup(windows[1..], group)
  }

  /** What the verdict reads of a run. */
  datatype Summary = Summary(
    medianExp: real, medianPf: real, positiveWindows: nat, windowCount: nat, edgeWindows: nat, totalPnl: real,
    priorMedianExp: real, oosMedianExp: real)

  function BuildSummary(windows: seq<Window>): Summary {
    Summary(
      RoundedMedian(Expectancies(windows)),
      RoundedMedian(ProfitFactors(windows)),
      Count(windows, Positive),
      |windows|,
      Count(windows, HasEdge),
      Rounding.Round2(TotalPnl(windows)),
      RoundedMedian(Expectancies(OfGroup(windows, Prior10))),
      RoundedMedian(Expectancies(OfGroup(windows, Oos5))))
  }

  // ----- the three-way verdict

  datatype Verdict = Retire | ResearchBaseline | KeepVerifying

  function Rank(v: Verdict): nat {
    match v
    case Retire => 0
    case ResearchBaseline => 1
    case KeepVerifying => 2
  }

  datatype Reason =
    | RobustlyPositive
    | MedianExpNotPositive
    | MedianPfAtMostOne
    | TotalNotPositive
    | PositiveNotMajority
    | PeriodSignFlip
    | OosNotPositive
    | Concentrated

  /** The eight things a strategy must show. */
  datatype Criterion =
    | ExpectancyPositive
    | ProfitFactorAboveOne
    | MostWindowsPositive
    | MostWindowsHaveEdge
    | TotalIsPositive
    | PriorPositive
    | OosPositive
    | NotConcentrated

  predicate Holds(k: Criterion, s: Summary, concentrated: bool) {
    match k
    case ExpectancyPositive => s.medianExp > 0.0
    case ProfitFactorAboveOne => s.medianPf > 1.0
    case MostWindowsPositive => 2 * s.positiveWindows > s.windowCount
    case MostWindowsHaveEdge => 2 * s.edgeWindows > s.windowCount
    case TotalIsPositive => s.totalPnl > 0.0
    case PriorPositive => s.priorMedianExp > 0.0
    case OosPositive => s.oosMedianExp > 0.0
    case NotConcentrated => !concentrated
  }

  /** The criteria whose failure retires a strategy. */
  predicate IsCore(k: Criterion) {
    k == ExpectancyPositive || k == TotalIsPositive || k == MostWindowsPositive
  }

  predicate StrongKeep(s: Summary, concentrated: bool) {
    && s.medianExp > 0.0
    && s.medianPf > 1.0
    && s.positiveWindows as real > s.windowCount as real / 2.0
    && s.edgeWindows as real > s.windowCount as real / 2.0
    && s.totalPnl > 0.0
    && s.priorMedianExp > 0.0
    && s.oosMedianExp > 0.0
    && !concentrated
  }

  /** Keep when every criterion holds; retire when the whole set is net non-positive; otherwise keep for reference. */
  function Classify(s: Summary, concentrated: bool): Verdict {
    if StrongKeep(s, concentrated) then KeepVerifying
    else if s.medianExp <= 0.0 || s.totalPnl <= 0.0 || s.positiveWindows as real <= s.windowCount as real / 2.0 then
      Retire
    else ResearchBaseline
  }

  /** The criterion each reason reports as failed; a sign flip compares two, and an edge shortfall has no reason. */
  predicate Reports(r: Reason, s: Summary, concentrated: bool) {
    match r
    case RobustlyPositive => forall k :: Holds(k, s, concentrated)
    case MedianExpNotPositive => !Holds(ExpectancyPositive, s, concentrated)
    case MedianPfAtMostOne => !Holds(ProfitFactorAboveOne, s, concentrated)
    case TotalNotPositive => !Holds(TotalIsPositive, s, concentrated)
    case PositiveNotMajority => !Holds(MostWindowsPositive, s, concentrated)
    case PeriodSignFlip => Holds(PriorPositive, s, concentrated) != Holds(OosPositive, s, concentrated)
    case OosNotPositive => !Holds(OosPositive, s, concentrated)
    case Concentrated => !Holds(NotConcentrated, s, concentrated)
  }

  /** Too few windows have an edge, and nothing else is amiss. */
  ghost predicate OnlyEdgeFails(s: Summary, concentrated: bool) {
    forall k :: Holds(k, s, concentrated) <==> k != MostWindowsHaveEdge
  }

  lemma {:induction false} StrongKeepIsAll(s: Summary, concentrated: bool)
    ensures StrongKeep(s, concentrated) <==> forall k :: Holds(k, s, concentrated)
  {
    if forall k :: Holds(k, s, concentrated) {
      assert Holds(ExpectancyPositive, s, concentrated) && Holds(ProfitFactorAboveOne, s, concentrated);
      assert Holds(MostWindowsPositive, s, concentrated) && Holds(MostWindowsHaveEdge, s, concentrated);
      assert Holds(TotalIsPositive, s, concentrated) && Holds(PriorPositive, s, concentrated);
      assert Holds(OosPositive, s, concentrated) && Holds(NotConcentrated, s, concentrated);
    }
  }

  /** The verdict by criteria: keep iff all hold, retire iff a core one fails -- whatever the others say. */
  lemma {:induction false} VerdictByCriteria(s: Summary, concentrated: bool)
    ensures Classify(s, concentrated) == KeepVerifying <==> forall k :: Holds(k, s, concentrated)
    ensures Classify(s, concentrated) == Retire <==> exists k :: IsCore(k) && !Holds(k, s, concentrated)
  {
    StrongKeepIsAll(s, concentrated);
    if Classify(s, concentrated) == Retire {
      assert !Holds(ExpectancyPositive, s, concentrated) || !Holds(TotalIsPositive, s, concentrated) ||
        !Holds(MostWindowsPositive, s, concentrated);
      assert IsCore(ExpectancyPositive) && IsCore(TotalIsPositive) && IsCore(MostWindowsPositive);
    }
  }

  /** A verdict comes with no reason exactly when only the edge criterion fails; it is then the baseline verdict. */
  lemma {:induction false} UnexplainedIffOnlyEdgeFails(s: Summary, concentrated: bool)
    ensures (forall r :: !Reports(r, s, concentrated)) <==> OnlyEdgeFails(s, concentrated)
    ensures OnlyEdgeFails(s, concentrated) ==> Classify(s, concentrated) == ResearchBaseline
  {
    VerdictByCriteria(s, concentrated);
    if OnlyEdgeFails(s, concentrated) {
      assert !Holds(MostWindowsHaveEdge, s, concentrated);
    }
    if forall r :: !Reports(r, s, concentrated) {
      assert !Reports(RobustlyPositive, s, concentrated) && !Reports(MedianExpNotPositive, s, concentrated);
      assert !Reports(MedianPfAtMostOne, s, concentrated) && !Reports(TotalNotPositive, s, concentrated);
      assert !Reports(PositiveNotMajority, s, concentrated) && !Reports(PeriodSignFlip, s, concentrated);
      assert !Reports(OosNotPositive, s, concentrated) && !Reports(Concentrated, s, concentrated);
    }
  }

  ghost predicate NoneTwice(reasons: seq<Reason>) {
    forall i, j :: 0 <= i < j < |reasons| ==> reasons[i] != reasons[j]
  }

  /** The checks of the long branch, reason by reason. */
  predicate Failed(r: Reason, s: Summary, concentrated: bool) {
    match r
    case RobustlyPositive => false
    case MedianExpNotPositive => s.medianExp <= 0.0
    case MedianPfAtMostOne => s.medianPf <= 1.0
    case TotalNotPositive => s.totalPnl <= 0.0
    case PositiveNotMajority => s.positiveWindows as real <= s.windowCount as real / 2.0
    case PeriodSignFlip => (s.priorMedianExp > 0.0) != (s.oosMedianExp > 0.0)
    case OosNotPositive => s.oosMedianExp <= 0.0
    case Concentrated => concentrated
  }

  /** Append a reason when its check fails. */
  method Note(reasons: seq<Reason>, r: Reason, failed: bool) returns (noted: seq<Reason>)
    requires r !in reasons && NoneTwice(reasons)
    ensures NoneTwice(noted)
    ensures forall x :: x in noted <==> x in reasons || (failed && x == r)
  {
    noted := if failed then reasons + [r] else reasons;
  }

  /** The reasons whose check fails, in the order of the checks. */
  method ListReasons(failed: Reason -> bool) returns (reasons: seq<Reason>)
    ensures NoneTwice(reasons)
    ensures forall r :: r in reasons <==> r != RobustlyPositive && failed(r)
  {
    reasons := [];
    reasons := Note(reasons, MedianExpNotPositive, failed(MedianExpNotPositive));
    reasons := Note(reasons, MedianPfAtMostOne, failed(MedianPfAtMostOne));
    reasons := Note(reasons, TotalNotPositive, failed(TotalNotPositive));
    reasons := Note(reasons, PositiveNotMajority, failed(PositiveNotMajority));
    reasons := Note(reasons, PeriodSignFlip, failed(PeriodSignFlip));
    reasons := Note(reasons, OosNotPositive, failed(OosNotPositive));
    reasons := Note(reasons, Concentrated, failed(Concentrated));
  }

  lemma {:induction false} FailedIsReported(s: Summary, concentrated: bool)
    requires !StrongKeep(s, concentrated)
    ensures forall r :: Failed(r, s, concentrated) <==> Reports(r, s, concentrated)
  {
    StrongKeepIsAll(s, concentrated);
    forall r
      ensures Failed(r, s, concentrated) <==> Reports(r, s, concentrated)
    {
    }
  }

  /**
    Keep iff every criterion holds, retire iff a core one fails; the reasons are the failed criteria, each
    once -- except an edge shortfall, which alone leaves the list empty.
   */
  method ClassifyStrategy(s: Summary, concentrated: bool) returns (verdict: Verdict, reasons: seq<Reason>)
    ensures verdict == Classify(s, concentrated)
    ensures verdict == KeepVerifying <==> forall k :: Holds(k, s, concentrated)
    ensures verdict == Retire <==> exists k :: IsCore(k) && !Holds(k, s, concentrated)
    ensures forall r :: r in reasons <==> Reports(r, s, concentrated)
    ensures NoneTwice(reasons)
    ensures reasons == [] <==> OnlyEdgeFails(s, concentrated)
  {
    VerdictByCriteria(s, concentrated);
    UnexplainedIffOnlyEdgeFails(s, concentrated);
    StrongKeepIsAll(s, concentrated);
    if s.medianExp > 0.0 && s.medianPf > 1.0
      && s.positiveWindows as real > s.windowCount as real / 2.0
      && s.edgeWindows as real > s.windowCount as real / 2.0
      && s.totalPnl > 0.0 && s.priorMedianExp > 0.0 && s.oosMedianExp > 0.0 && !concentrated
    {
      NothingFailed(s, concentrated);
      return KeepVerifying, [RobustlyPositive];
    }
    var retire := s.medianExp <= 0.0 || s.totalPnl <= 0.0 || s.positiveWindows as real <= s.windowCount as real / 2.0;
    reasons := ListReasons(r => Failed(r, s, concentrated));
    FailedIsReported(s, concentrated);
    verdict := if retire then Retire else ResearchBaseline;
    NoReason(reasons, s, concentrated);
  }

  /** The criteria and reasons in the summary's own figures. */
  lemma {:induction false} CriteriaInFigures(s: Summary, concentrated: bool)
    ensures (forall k :: Holds(k, s, concentrated)) <==>
      && s.medianExp > 0.0 && s.medianPf > 1.0
      && 2 * s.positiveWindows > s.windowCount && 2 * s.edgeWindows > s.windowCount
      && s.totalPnl > 0.0 && s.priorMedianExp > 0.0 && s.oosMedianExp > 0.0 && !concentrated
    ensures (exists k :: IsCore(k) && !Holds(k, s, concentrated)) <==>
      s.medianExp <= 0.0 || s.totalPnl <= 0.0 || 2 * s.positiveWindows <= s.windowCount
    ensures Reports(MedianExpNotPositive, s, concentrated) <==> s.medianExp <= 0.0
    ensures Reports(MedianPfAtMostOne, s, concentrated) <==> s.medianPf <= 1.0
    ensures Reports(TotalNotPositive, s, concentrated) <==> s.totalPnl <= 0.0
    ensures Reports(PositiveNotMajority, s, concentrated) <==> 2 * s.positiveWindows <= s.windowCount
    ensures Reports(PeriodSignFlip, s, concentrated) <==>
      || (s.priorMedianExp > 0.0 && s.oosMedianExp <= 0.0)
      || (s.priorMedianExp <= 0.0 && s.oosMedianExp > 0.0)
    ensures Reports(OosNotPositive, s, concentrated) <==> s.oosMedianExp <= 0.0
    ensures Reports(Concentrated, s, concentrated) <==> concentrated
    ensures Reports(RobustlyPositive, s, concentrated) <==> forall k :: Holds(k, s, concentrated)
  {
    StrongKeepIsAll(s, concentrated);
    VerdictByCriteria(s, concentrated);
  }

  lemma {:induction false} NothingFailed(s: Summary, concentrated: bool)
    requires StrongKeep(s, concentrated)
    ensures forall r :: Reports(r, s, concentrated) <==> r == RobustlyPositive
  {
    StrongKeepIsAll(s, concentrated);
  }

  lemma {:induction false} NoReason(reasons: seq<Reason>, s: Summary, concentrated: bool)
    requires forall r :: r in reasons <==> Reports(r, s, concentrated)
    ensures reasons == [] <==> forall r :: !Reports(r, s, concentrated)
  {
    if reasons != [] {
      assert reasons[0] in reasons;
    }
  }

  // ----- monotonicity

  ghost predicate NoLower(better: seq<real>, values: seq<real>) {
    |better| == |values| && forall i :: 0 <= i < |values| ==> values[i] <= better[i]
  }

  lemma {:induction false} CountOfHigher(better: seq<real>, values: seq<real>, t: real)
    requires NoLower(better, values)
    ensures Sorting.CountAtMost(better, Identity, t) <= Sorting.CountAtMost(values, Identity, t)
  {
    if values != [] {
      CountOfHigher(better[1..], values[1..], t);
    }
  }

  /** Every order statistic of pointwise higher values is higher. */
  lemma {:induction false} OrderStatisticGrows(better: seq<real>, values: seq<real>, k: nat)
    requires NoLower(better, values) && k < |values|
    ensures |Sorting.SortBy(better, Identity)| == |Sorting.SortBy(values, Identity)| == |values|
    ensures Sorting.SortBy(values, Identity)[k] <= Sorting.SortBy(better, Identity)[k]
  {
    Sorting.SortSorts(better, Identity);
    Sorting.SortSorts(values, Identity);
    var t := Sorting.SortBy(better, Identity)[k];
    CountOfHigher(better, values, t);
    Sorting.RankedAtMost(better, Identity, t, k + 1);
    Sorting.RankedAtMost(values, Identity, t, k + 1);
  }

  lemma {:induction false} MedianGrows(better: seq<real>, values: seq<real>)
    requires NoLower(better, values) && values != []
    ensures Median(values) <= Median(better)
  {
    OrderStatisticGrows(better, values, |values| / 2);
    if |values| % 2 == 0 {
      OrderStatisticGrows(better, values, |values| / 2 - 1);
    }
  }

  lemma {:induction false} RoundedMedianGrows(better: seq<real>, values: seq<real>)
    requires NoLower(better, values)
    ensures RoundedMedian(values) <= RoundedMedian(better)
  {
    if values != [] {
      MedianGrows(better, values);
      Rounding.Round4Monotone(Median(values), Median(better));
    }
  }

  /** The same group, and no lower expectancy, profit factor as read, or total. */
  ghost predicate NoWorse(better: Window, window: Window) {
    && better.group == window.group
    && window.expectancy <= better.expectancy
    && PfRead(window) <= PfRead(better)
    && window.totalPnl <= better.totalPnl
  }

  ghost predicate Improved(better: seq<Window>, windows: seq<Window>) {
    |better| == |windows| && forall i :: 0 <= i < |windows| ==> NoWorse(better[i], windows[i])
  }

  lemma {:induction false} CountsGrow(better: seq<Window>, windows: seq<Window>)
    requires Improved(better, windows)
    ensures Count(windows, Positive) <= Count(better, Positive)
    ensures Count(windows, HasEdge) <= Count(better, HasEdge)
    ensures TotalPnl(windows) <= TotalPnl(better)
  {
    if windows != [] {
      CountsGrow(better[1..], windows[1..]);
    }
  }

  lemma {:induction false} GroupsImprove(better: seq<Window>, windows: seq<Window>, group: Group)
    requires Improved(better, windows)
    ensures Improved(OfGroup(better, group), OfGroup(windows, group))
  {
    if windows != [] {
      GroupsImprove(better[1..], windows[1..], group);
    }
  }

  /** Improving every window, concentration unchanged, never worsens the verdict. */
  lemma {:induction false} ImprovementNeverWorsens(better: seq<Window>, windows: seq<Window>, concentrated: bool)
    requires Improved(better, windows)
    ensures Rank(Classify(BuildSummary(windows), concentrated)) <= Rank(Classify(BuildSummary(better), concentrated))
  {
    CountsGrow(better, windows);
    Rounding.Round2Monotone(TotalPnl(windows), TotalPnl(better));
    RoundedMedianGrows(Expectancies(better), Expectancies(windows));
    RoundedMedianGrows(ProfitFactors(better), ProfitFactors(windows));
    GroupsImprove(better, windows, Prior10);
    GroupsImprove(better, windows, Oos5);
    RoundedMedianGrows(Expectancies(OfGroup(better, Prior10)), Expectancies(OfGroup(windows, Prior10)));
    RoundedMedianGrows(Expectancies(OfGroup(better, Oos5)), Expectancies(OfGroup(windows, Oos5)));
  }

  lemma {:induction false} CountSplits(windows: seq<Window>)
    ensures Count(windows, Positive) + Sorting.CountAtMost(Expectancies(windows), Identity, 0.0) == |windows|
  {
    if windows != [] {
      CountSplits(windows[1..]);
      assert Expectancies(windows)[1..] == Expectancies(windows[1..]);
    }
  }

  lemma {:induction false} PositiveMedianRank(values: seq<real>)
    requires values != [] && Median(values) > 0.0
    ensures Sorting.CountAtMost(values, Identity, 0.0) <= |values| / 2
  {
    Sorting.SortSorts(values, Identity);
    var sorted, n := Sorting.SortBy(values, Identity), |values|;
    assert n % 2 == 0 ==> sorted[n / 2 - 1] <= sorted[n / 2];
    Sorting.RankedAtMost(values, Identity, 0.0, n / 2 + 1);
  }

  lemma {:induction false} RoundedPositiveIsPositive(values: seq<real>)
    requires RoundedMedian(values) > 0.0
    ensures values != [] && Median(values) > 0.0
  {
    Rounding.RoundUnique(0.0, 0);
    if Median(values) <= 0.0 {
      Rounding.Round4Monotone(Median(values), 0.0);
    }
  }

  /**
    A positive rounded median already puts at least half the windows above zero, and more than half when
    their number is odd: on fifteen windows the positive-window criterion adds nothing to the median's.
   */
  lemma {:induction false} PositiveMedianMeansMajority(windows: seq<Window>)
    requires BuildSummary(windows).medianExp > 0.0
    ensures 2 * BuildSummary(windows).positiveWindows >= |windows|
    ensures |windows| % 2 == 1 ==> 2 * BuildSummary(windows).positiveWindows > |windows|
  {
    RoundedPositiveIsPositive(Expectancies(windows));
    PositiveMedianRank(Expectancies(windows));
    CountSplits(windows);
  }

  lemma {:induction false} OfGroupMember(windows: seq<Window>, group: Group) returns (i: nat)
    requires OfGroup(windows, group) != []
    ensures i < |windows| && windows[i].group == group
  {
    if windows[0].group == group {
      i := 0;
    } else {
      var k := OfGroupMember(windows[1..], group);
      i := k + 1;
    }
  }

  /** A kept strategy was seen in both periods, and had an edge in most windows. */
  lemma {:induction false} KeepingNeedsBothPeriods(
    windows: seq<Window>, concentrated: bool)
    returns (prior: nat, oos: nat)
    requires Classify(BuildSummary(windows), concentrated) == KeepVerifying
    ensures prior < |windows| && windows[prior].group == Prior10
    ensures oos < |windows| && windows[oos].group == Oos5
    ensures 2 * Count(windows, HasEdge) > |windows| && !concentrated
  {
    RoundedPositiveIsPositive(Expectancies(OfGroup(windows, Prior10)));
    RoundedPositiveIsPositive(Expectancies(OfGroup(windows, Oos5)));
    prior := OfGroupMember(windows, Prior10);
    oos := OfGroupMember(windows, Oos5);
  }

  // ----- a missing profit factor

  /** A missing profit factor means no losses: better than any number, and matched only by another missing one. */
  predicate FactorNoLower(after: Option<real>, before: Option<real>) {
    after.None? || (before.Some? && before.value <= after.value)
  }

  ghost predicate TrulyNoWorse(after: Window, before: Window) {
    && after.group == before.group
    && before.expectancy <= after.expectancy
    && before.totalPnl <= after.totalPnl
    && FactorNoLower(after.profitFactor, before.profitFactor)
  }

  /** Window by window no worse, an unbounded profit factor counted as what it is. */
  ghost predicate TrulyImproved(after: seq<Window>, before: seq<Window>) {
    |after| == |before| && forall i :: 0 <= i < |before| ==> TrulyNoWorse(after[i], before[i])
  }

  lemma {:induction false} TrueGroupsImprove(after: seq<Window>, before: seq<Window>, group: Group)
    requires TrulyImproved(after, before)
    ensures TrulyImproved(OfGroup(after, group), OfGroup(before, group))
  {
    if before != [] {
      TrueGroupsImprove(after[1..], before[1..], group);
    }
  }

  lemma {:induction false} TrueCountsGrow(after: seq<Window>, before: seq<Window>)
    requires TrulyImproved(after, before)
    ensures Count(before, Positive) <= Count(after, Positive) && TotalPnl(before) <= TotalPnl(after)
  {
    if before != [] {
      TrueCountsGrow(after[1..], before[1..]);
    }
  }

  /** True improvement carries over every criterion but the two that read the profit factor. */
  lemma {:induction false} CriteriaCarryOver(after: seq<Window>, before: seq<Window>, concentrated: bool, k: Criterion)
    requires TrulyImproved(after, before) && k != ProfitFactorAboveOne && k != MostWindowsHaveEdge
    requires Holds(k, BuildSummary(before), concentrated)
    ensures Holds(k, BuildSummary(after), concentrated)
  {
    TrueCountsGrow(after, before);
    Rounding.Round2Monotone(TotalPnl(before), TotalPnl(after));
    RoundedMedianGrows(Expectancies(after), Expectancies(before));
    TrueGroupsImprove(after, before, Prior10);
    TrueGroupsImprove(after, before, Oos5);
    RoundedMedianGrows(Expectancies(OfGroup(after, Prior10)), Expectancies(OfGroup(before, Prior10)));
    RoundedMedianGrows(Expectancies(OfGroup(after, Oos5)), Expectancies(OfGroup(before, Oos5)));
  }

  /**
    True improvement worsens the verdict exactly when a kept strategy is left with a median profit factor of at
    most 1, or without an edge in most windows -- which takes a window that lost its profit factor.
   */
  lemma {:induction false} ImprovementWorsensIff(after: seq<Window>, before: seq<Window>, concentrated: bool)
    requires TrulyImproved(after, before)
    ensures var was, now := Classify(BuildSummary(before), concentrated), Classify(BuildSummary(after), concentrated);
      Rank(now) < Rank(was) <==>
        && was == KeepVerifying
        && (BuildSummary(after).medianPf <= 1.0 || 2 * BuildSummary(after).edgeWindows <= |after|)
    ensures Rank(Classify(BuildSummary(after), concentrated)) < Rank(Classify(BuildSummary(before), concentrated)) ==>
      exists i :: 0 <= i < |after| && after[i].profitFactor.None? && before[i].profitFactor.Some?
  {
    var s, t := BuildSummary(before), BuildSummary(after);
    VerdictByCriteria(s, concentrated);
    VerdictByCriteria(t, concentrated);
    forall k | k != ProfitFactorAboveOne && k != MostWindowsHaveEdge && Holds(k, s, concentrated)
      ensures Holds(k, t, concentrated)
    {
      CriteriaCarryOver(after, before, concentrated, k);
    }
    if forall k :: Holds(k, t, concentrated) {
      assert Holds(ProfitFactorAboveOne, t, concentrated) && Holds(MostWindowsHaveEdge, t, concentrated);
    }
    if Rank(Classify(t, concentrated)) < Rank(Classify(s, concentrated)) {
      WorseningLosesAFactor(after, before, concentrated);
    }
  }

  lemma {:induction false} WorseningLosesAFactor(after: seq<Window>, before: seq<Window>, concentrated: bool)
    requires TrulyImproved(after, before)
    requires Rank(Classify(BuildSummary(after), concentrated)) < Rank(Classify(BuildSummary(before), concentrated))
    ensures exists i :: 0 <= i < |after| && after[i].profitFactor.None? && before[i].profitFactor.Some?
  {
    if forall i :: 0 <= i < |after| ==> after[i].profitFactor.Some? || before[i].profitFactor.None? {
      forall i | 0 <= i < |before|
        ensures NoWorse(after[i], before[i])
      {
        assert TrulyNoWorse(after[i], before[i]);
      }
      ImprovementNeverWorsens(after, before, concentrated);
    }
  }

  /** Profit factors above 1 go with a positive expectancy. */
  ghost predicate FactorsMeanEdge(windows: seq<Window>) {
    forall w :: w in windows && PfRead(w) > 1.0 ==> w.expectancy > 0.0
  }

  lemma {:induction false} EdgesByFactor(windows: seq<Window>)
    requires FactorsMeanEdge(windows)
    ensures |windows| <= Count(windows, HasEdge) + Sorting.CountAtMost(ProfitFactors(windows), Identity, 1.0)
  {
    if windows != [] {
      EdgesByFactor(windows[1..]);
      assert ProfitFactors(windows)[1..] == ProfitFactors(windows[1..]);
      assert windows[0] in windows;
    }
  }

  /** On an odd number of windows a median profit factor above 1 is an edge majority: every verdict has a reason. */
  lemma {:induction false} OddRunsAreExplained(windows: seq<Window>, concentrated: bool)
    requires |windows| % 2 == 1 && FactorsMeanEdge(windows)
    ensures BuildSummary(windows).medianPf > 1.0 ==> 2 * BuildSummary(windows).edgeWindows > |windows|
    ensures exists r :: Reports(r, BuildSummary(windows), concentrated)
  {
    var s, factors, n := BuildSummary(windows), ProfitFactors(windows), |windows|;
    if s.medianPf > 1.0 {
      RoundedAboveIsAbove(Median(factors));
      Sorting.RankedAtMost(factors, Identity, 1.0, n / 2 + 1);
      EdgesByFactor(windows);
    }
    UnexplainedIffOnlyEdgeFails(s, concentrated);
    assert !(Holds(ProfitFactorAboveOne, s, concentrated) && !Holds(MostWindowsHaveEdge, s, concentrated));
  }

  lemma {:induction false} RoundedAboveIsAbove(x: real)
    requires Rounding.Round4(x) > 1.0
    ensures x > 1.0
  {
    Rounding.RoundUnique(10000.0, 10000);
    if x <= 1.0 {
      Rounding.Round4Monotone(x, 1.0);
    }
  }

  // ----- consecutive losses

  function Losses(pnls: seq<real>, i: nat, j: nat): nat
    requires i <= j <= |pnls|
  {
    if i == j then 0 else Losses(pnls, i, j - 1) + if pnls[j - 1] < 0.0 then 1 else 0
  }

  /** The losing trades from `i` up to `j`. */
  ghost function LosingAt(pnls: seq<real>, i: nat, j: nat): set<nat>
    requires i <= j <= |pnls|
  {
    set k: nat | i <= k < j && pnls[k] < 0.0
  }

  /** Losses are counted one by one. */
  lemma {:induction false} LossesIsNumber(pnls: seq<real>, i: nat, j: nat)
    requires i <= j <= |pnls|
    ensures Losses(pnls, i, j) == |LosingAt(pnls, i, j)|
    decreases j
  {
    if i == j {
      assert LosingAt(pnls, i, j) == {};
    } else {
      LossesIsNumber(pnls, i, j - 1);
      var fewer := LosingAt(pnls, i, j - 1);
      assert j - 1 !in fewer;
      assert LosingAt(pnls, i, j) == if pnls[j - 1] < 0.0 then fewer + {j - 1} else fewer;
    }
  }

  ghost predicate NoWin(pnls: seq<real>, i: nat, j: nat)
    requires i <= j <= |pnls|
  {
    forall k :: i <= k < j ==> pnls[k] <= 0.0
  }

  lemma {:induction false} LossesOfSuffix(pnls: seq<real>, start: nat, i: nat, j: nat)
    requires start <= i <= j <= |pnls|
    ensures Losses(pnls, i, j) <= Losses(pnls, start, j)
    decreases j
  {
    if i < j {
      LossesOfSuffix(pnls, start, i, j - 1);
    }
  }

  /** The most losses in any stretch of trades, in closing order, that holds no win; a break-even trade ends nothing. */
  method MaxConsecutiveLosses(pnls: seq<real>) returns (most: nat)
    ensures forall i, j :: 0 <= i <= j <= |pnls| && NoWin(pnls, i, j) ==> Losses(pnls, i, j) <= most
    ensures exists i, j :: 0 <= i <= j <= |pnls| && NoWin(pnls, i, j) && Losses(pnls, i, j) == most
  {
    var streak := 0;
    most := 0;
    ghost var start, from, till := 0, 0, 0;
    for k := 0 to |pnls|
      invariant start <= k && NoWin(pnls, start, k) && streak == Losses(pnls, start, k) <= most
      invariant start > 0 ==> pnls[start - 1] > 0.0
      invariant forall i, j :: 0 <= i <= j <= k && NoWin(pnls, i, j) ==> Losses(pnls, i, j) <= most
      invariant from <= till <= k && NoWin(pnls, from, till) && Losses(pnls, from, till) == most
    {
      if pnls[k] < 0.0 {
        streak := streak + 1;
        if streak > most {
          most := streak;
          from, till := start, k + 1;
        }
      } else if pnls[k] > 0.0 {
        streak := 0;
        start := k + 1;
      }
      ghost var end := k + 1;
      forall i | 0 <= i <= end && NoWin(pnls, i, end)
        ensures Losses(pnls, i, end) <= most
      {
        if start <= i {
          LossesOfSuffix(pnls, start, i, end);
        }
      }
    }
  }
}
