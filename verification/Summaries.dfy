/** What a run's summary reads, counted window by window: which windows each median and each count speaks of. */
module Summaries {
  import opened Wrappers
  import opened Robustness
  import Rounding
  import Sorting

  // ----- windows by their numbers

  ghost function WithPositive(windows: seq<Window>): set<nat> {
    set i: nat | i < |windows| && windows[i].expectancy > 0.0
  }

  /** A window without a profit factor has no edge. */
  ghost function WithEdge(windows: seq<Window>): set<nat> {
    set i: nat | i < |windows| && windows[i].expectancy > 0.0 &&
      windows[i].profitFactor.Some? && windows[i].profitFactor.value > 1.0
  }

  ghost function OfPeriod(windows: seq<Window>, group: Group): set<nat> {
    set i: nat | i < |windows| && windows[i].group == group
  }

  ghost function OfPeriodAtMost(windows: seq<Window>, group: Group, t: real): set<nat> {
    set i: nat | i < |windows| && windows[i].group == group && windows[i].expectancy <= t
  }

  ghost function ExpectancyAtMost(windows: seq<Window>, t: real): set<nat> {
    set i: nat | i < |windows| && windows[i].expectancy <= t
  }

  /** A missing profit factor counts as zero. */
  ghost function FactorAtMost(windows: seq<Window>, t: real): set<nat> {
    set i: nat | i < |windows| &&
      (if windows[i].profitFactor.Some? then windows[i].profitFactor.value <= t else 0.0 <= t)
  }

  // ----- counts

  lemma {:induction false} CountAppend(windows: seq<Window>, w: Window, p: Window -> bool)
    ensures Count(windows + [w], p) == Count(windows, p) + if p(w) then 1 else 0
  {
    if windows == [] {
      assert [] + [w] == [w] && [w][1..] == [];
    } else {
      CountAppend(windows[1..], w, p);
      assert (windows + [w])[1..] == windows[1..] + [w];
    }
  }

  ghost function Where(windows: seq<Window>, p: Window -> bool): set<nat> {
    set i: nat | i < |windows| && p(windows[i])
  }

  lemma {:induction false} WhereAppend(windows: seq<Window>, w: Window, p: Window -> bool)
    ensures |Where(windows + [w], p)| == |Where(windows, p)| + if p(w) then 1 else 0
  {
    var fewer := Where(windows, p);
    assert |windows| !in fewer;
    assert Where(windows + [w], p) == if p(w) then fewer + {|windows|} else fewer;
  }

  lemma {:induction false} CountIsCardinality(windows: seq<Window>, p: Window -> bool)
    ensures Count(windows, p) == |Where(windows, p)|
  {
    if windows == [] {
      assert Where(windows, p) == {};
    } else {
      var front, last := windows[..|windows| - 1], windows[|windows| - 1];
      assert windows == front + [last];
      CountIsCardinality(front, p);
      CountAppend(front, last, p);
      WhereAppend(front, last, p);
    }
  }

  /** The windows counted as positive and as having an edge. */
  lemma {:induction false} CountsAreCardinalities(windows: seq<Window>)
    ensures BuildSummary(windows).windowCount == |windows|
    ensures BuildSummary(windows).positiveWindows == |WithPositive(windows)|
    ensures BuildSummary(windows).edgeWindows == |WithEdge(windows)|
  {
    CountIsCardinality(windows, Positive);
    CountIsCardinality(windows, HasEdge);
    assert WithPositive(windows) == Where(windows, Positive);
    assert WithEdge(windows) == Where(windows, HasEdge);
  }

  /** The total is of all windows, each once. */
  lemma {:induction false} TotalAdds(windows: seq<Window>, w: Window)
    ensures TotalPnl([w]) == w.totalPnl
    ensures TotalPnl(windows + [w]) == TotalPnl(windows) + w.totalPnl
  {
    assert [w][1..] == [];
    if windows == [] {
      assert [] + [w] == [w];
    } else {
      TotalAdds(windows[1..], w);
      assert (windows + [w])[1..] == windows[1..] + [w];
    }
  }

  /** The total is reported to the nearest hundredth. */
  lemma {:induction false} TotalIsRounded(windows: seq<Window>)
    ensures -0.005 <= BuildSummary(windows).totalPnl - TotalPnl(windows) <= 0.005
  {
    var total := TotalPnl(windows);
    Rounding.DecimalLaws(total, 0);
    assert BuildSummary(windows).totalPnl == Rounding.Round2(total);
  }

  function InPeriod(group: Group): Window -> bool {
    (w: Window) => w.group == group
  }

  function InPeriodAtMost(group: Group, t: real): Window -> bool {
    (w: Window) => w.group == group && w.expectancy <= t
  }

  lemma {:induction false} GroupCounts(windows: seq<Window>, group: Group, t: real)
    ensures |OfGroup(windows, group)| == Count(windows, InPeriod(group))
    ensures Sorting.CountAtMost(Expectancies(OfGroup(windows, group)), Identity, t) ==
      Count(windows, InPeriodAtMost(group, t))
  {
    if windows != [] {
      GroupCounts(windows[1..], group, t);
      var rest := OfGroup(windows[1..], group);
      if windows[0].group == group {
        assert OfGroup(windows, group) == [windows[0]] + rest;
        assert Expectancies(OfGroup(windows, group)) == [windows[0].expectancy] + Expectancies(rest);
        assert ([windows[0].expectancy] + Expectancies(rest))[1..] == Expectancies(rest);
      } else {
        assert OfGroup(windows, group) == [] + rest == rest;
      }
    }
  }

  lemma {:induction false} PeriodCounts(windows: seq<Window>, group: Group, t: real)
    ensures |OfGroup(windows, group)| == |OfPeriod(windows, group)|
    ensures Sorting.CountAtMost(Expectancies(OfGroup(windows, group)), Identity, t) ==
      |OfPeriodAtMost(windows, group, t)|
  {
    GroupCounts(windows, group, t);
    CountIsCardinality(windows, InPeriod(group));
    CountIsCardinality(windows, InPeriodAtMost(group, t));
    assert OfPeriod(windows, group) == Where(windows, InPeriod(group));
    assert OfPeriodAtMost(windows, group, t) == Where(windows, InPeriodAtMost(group, t));
  }

  // ----- medians

  /**
    The median lies midway between two values: the least that at least half of them do not exceed, and the least
    that more than half do not exceed. They are one where the number is odd.
   */
  lemma {:induction false} MedianIsMidway(values: seq<real>) returns (lower: real, upper: real)
    requires values != []
    ensures RoundedMedian(values) == Rounding.Round4((lower + upper) / 2.0)
    ensures forall t :: lower <= t <==> 2 * Sorting.CountAtMost(values, Identity, t) >= |values|
    ensures forall t :: upper <= t <==> 2 * Sorting.CountAtMost(values, Identity, t) > |values|
  {
    Sorting.SortSorts(values, Identity);
    var sorted, n := Sorting.SortBy(values, Identity), |values|;
    lower, upper := sorted[(n - 1) / 2], sorted[n / 2];
    assert Median(values) == (lower + upper) / 2.0;
    forall t
      ensures lower <= t <==> 2 * Sorting.CountAtMost(values, Identity, t) >= |values|
      ensures upper <= t <==> 2 * Sorting.CountAtMost(values, Identity, t) > |values|
    {
      Sorting.RankedAtMost(values, Identity, t, (n - 1) / 2 + 1);
      Sorting.RankedAtMost(values, Identity, t, n / 2 + 1);
    }
  }

  /** The median expectancy is that of all windows. */
  lemma {:induction false} ExpectancyIsMidway(windows: seq<Window>) returns (lower: real, upper: real)
    requires windows != []
    ensures BuildSummary(windows).medianExp == Rounding.Round4((lower + upper) / 2.0)
    ensures forall t :: lower <= t <==> 2 * |ExpectancyAtMost(windows, t)| >= |windows|
    ensures forall t :: upper <= t <==> 2 * |ExpectancyAtMost(windows, t)| > |windows|
  {
    lower, upper := MedianIsMidway(Expectancies(windows));
    forall t
      ensures Sorting.CountAtMost(Expectancies(windows), Identity, t) == |ExpectancyAtMost(windows, t)|
    {
      Sorting.CountIsCardinality(Expectancies(windows), Identity, t);
      assert Sorting.PositionsAtMost(Expectancies(windows), Identity, t) == ExpectancyAtMost(windows, t);
    }
  }

  lemma {:induction false} FactorCounts(windows: seq<Window>, t: real)
    ensures Sorting.CountAtMost(ProfitFactors(windows), Identity, t) == |FactorAtMost(windows, t)|
  {
    Sorting.CountIsCardinality(ProfitFactors(windows), Identity, t);
    assert Sorting.PositionsAtMost(ProfitFactors(windows), Identity, t) == FactorAtMost(windows, t);
  }

  /** The median profit factor is that of all windows, a missing one read as zero. */
  lemma {:induction false} FactorIsMidway(windows: seq<Window>) returns (lower: real, upper: real)
    requires windows != []
    ensures BuildSummary(windows).medianPf == Rounding.Round4((lower + upper) / 2.0)
    ensures forall t :: lower <= t <==> 2 * |FactorAtMost(windows, t)| >= |windows|
    ensures forall t :: upper <= t <==> 2 * |FactorAtMost(windows, t)| > |windows|
  {
    lower, upper := MedianIsMidway(ProfitFactors(windows));
    forall t
      ensures Sorting.CountAtMost(ProfitFactors(windows), Identity, t) == |FactorAtMost(windows, t)|
    {
      FactorCounts(windows, t);
    }
  }

  /** The median a period is judged by is that of its own windows, and zero when it has none. */
  lemma {:induction false} PeriodIsMidway(windows: seq<Window>, group: Group) returns (lower: real, upper: real)
    ensures var s := BuildSummary(windows);
      (if group == Prior10 then s.priorMedianExp else s.oosMedianExp) ==
        if OfPeriod(windows, group) == {} then 0.0 else Rounding.Round4((lower + upper) / 2.0)
    ensures OfPeriod(windows, group) != {} ==> forall t ::
      (lower <= t <==> 2 * |OfPeriodAtMost(windows, group, t)| >= |OfPeriod(windows, group)|)
    ensures OfPeriod(windows, group) != {} ==> forall t ::
      (upper <= t <==> 2 * |OfPeriodAtMost(windows, group, t)| > |OfPeriod(windows, group)|)
  {
    PeriodCounts(windows, group, 0.0);
    PeriodMedian(windows, group);
    lower, upper := 0.0, 0.0;
    if OfGroup(windows, group) != [] {
      lower, upper := PeriodMidway(windows, group);
    }
  }

  lemma {:induction false} PeriodMedian(windows: seq<Window>, group: Group)
    ensures var s := BuildSummary(windows);
      (if group == Prior10 then s.priorMedianExp else s.oosMedianExp) ==
        RoundedMedian(Expectancies(OfGroup(windows, group)))
    ensures OfGroup(windows, group) == [] ==> RoundedMedian(Expectancies(OfGroup(windows, group))) == 0.0
  {
  }

  lemma {:induction false} PeriodMidway(windows: seq<Window>, group: Group) returns (lower: real, upper: real)
    requires OfGroup(windows, group) != []
    ensures RoundedMedian(Expectancies(OfGroup(windows, group))) == Rounding.Round4((lower + upper) / 2.0)
    ensures forall t :: lower <= t <==> 2 * |OfPeriodAtMost(windows, group, t)| >= |OfPeriod(windows, group)|
    ensures forall t :: upper <= t <==> 2 * |OfPeriodAtMost(windows, group, t)| > |OfPeriod(windows, group)|
  {
    var values := Expectancies(OfGroup(windows, group));
    PeriodCounts(windows, group, 0.0);
    lower, upper := MedianIsMidway(values);
    forall t
      ensures Sorting.CountAtMost(values, Identity, t) == |OfPeriodAtMost(windows, group, t)|
    {
      PeriodCounts(windows, group, t);
    }
  }
}
