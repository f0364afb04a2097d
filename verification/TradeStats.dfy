/** One window's statistics from its completed trades, and verdicts of runs built from real trade lists. */
module TradeStats {
  import opened Wrappers
  import opened Robustness
  import Rounding
  import Sorting

  function Sum(pnls: seq<real>): real {
    if pnls == [] then 0.0 else pnls[0] + Sum(pnls[1..])
  }

  function Wins(pnls: seq<real>): (wins: seq<real>)
    ensures forall p :: p in wins ==> p > 0.0 && p in pnls
  {
    if pnls == [] then [] else (if pnls[0] > 0.0 then [pnls[0]] else []) + Wins(pnls[1..])
  }

  function Losses(pnls: seq<real>): (losses: seq<real>)
    ensures forall p :: p in losses ==> p < 0.0 && p in pnls
  {
    if pnls == [] then [] else (if pnls[0] < 0.0 then [pnls[0]] else []) + Losses(pnls[1..])
  }

  function Mean(total: real, n: nat): real {
    if n == 0 then 0.0 else total / n as real
  }

  /** Win rate times average win less loss rate times average loss. */
  function Expectancy(pnls: seq<real>): real {
    Share(Sum(Wins(pnls)), |Wins(pnls)|, |pnls|) - Share(-Sum(Losses(pnls)), |Losses(pnls)|, |pnls|)
  }

  /** The rate of `k` trades among `n`, times their average. */
  function Share(total: real, k: nat, n: nat): real {
    Mean(k as real, n) * Mean(total, k)
  }

  /** Gross profit over gross loss; None without a gross loss. */
  function ProfitFactor(pnls: seq<real>): Option<real> {
    var grossLoss := -Sum(Losses(pnls));
    if grossLoss != 0.0 then Some(Rounding.Round3(Sum(Wins(pnls)) / grossLoss)) else None
  }

  function WindowOf(group: Group, pnls: seq<real>): Window {
    if pnls == [] then Window(group, 0.0, None, 0.0, 0)
    else
      Window(group, Rounding.Round4(Expectancy(pnls)), ProfitFactor(pnls), Rounding.Round2(Sum(pnls)), |pnls|)
  }

  // ----- what the statistics are

  lemma {:induction false} SumSplits(pnls: seq<real>)
    ensures Sum(pnls) == Sum(Wins(pnls)) + Sum(Losses(pnls))
  {
    if pnls != [] {
      SumSplits(pnls[1..]);
      SumOfPrefixed(pnls[0], Wins(pnls[1..]));
      SumOfPrefixed(pnls[0], Losses(pnls[1..]));
      assert [] + Wins(pnls[1..]) == Wins(pnls[1..]) && [] + Losses(pnls[1..]) == Losses(pnls[1..]);
    }
  }

  lemma {:induction false} SumOfPrefixed(x: real, rest: seq<real>)
    ensures Sum([x] + rest) == x + Sum(rest)
  {
    assert ([x] + rest)[1..] == rest;
  }

  lemma {:induction false} SumOfNegatives(losses: seq<real>)
    requires forall p :: p in losses ==> p < 0.0
    ensures Sum(losses) <= 0.0 && (Sum(losses) == 0.0 <==> losses == [])
  {
    if losses != [] {
      assert losses[0] in losses;
      assert forall p :: p in losses[1..] ==> p in losses;
      SumOfNegatives(losses[1..]);
    }
  }

  lemma {:induction false} ShareIsPart(total: real, k: nat, n: nat)
    requires n > 0 && (k == 0 ==> total == 0.0)
    ensures Share(total, k, n) == total / n as real
  {
    if k > 0 {
      var x := total / k as real;
      assert x * k as real == total;
      Rearrange(k as real, n as real, x);
    }
  }

  lemma {:induction false} Rearrange(k: real, d: real, x: real)
    requires d > 0.0
    ensures k / d * x == (x * k) / d
  {
    var y := k / d;
    assert y * d == k;
    assert (y * x) * d == x * k;
  }

  lemma {:induction false} SharesDiffer(won: real, k: nat, lost: real, l: nat, n: nat)
    requires n > 0 && (k == 0 ==> won == 0.0) && (l == 0 ==> lost == 0.0)
    ensures Share(won, k, n) - Share(lost, l, n) == (won - lost) / n as real
  {
    ShareIsPart(won, k, n);
    ShareIsPart(lost, l, n);
  }

  /** The expectancy, whatever the split into wins and losses, is the mean profit per trade. */
  lemma {:induction false} ExpectancyIsMean(pnls: seq<real>)
    requires pnls != []
    ensures Expectancy(pnls) == Sum(pnls) / |pnls| as real
  {
    SumSplits(pnls);
    SharesDiffer(Sum(Wins(pnls)), |Wins(pnls)|, -Sum(Losses(pnls)), |Losses(pnls)|, |pnls|);
    assert Sum(Wins(pnls)) - (-Sum(Losses(pnls))) == Sum(pnls);
  }

  lemma {:induction false} NoLossesIff(pnls: seq<real>)
    ensures Losses(pnls) == [] <==> forall p :: p in pnls ==> p >= 0.0
  {
    if pnls != [] {
      NoLossesIff(pnls[1..]);
      assert forall p :: p in pnls <==> p == pnls[0] || p in pnls[1..];
      if pnls[0] < 0.0 {
        assert Losses(pnls) == [pnls[0]] + Losses(pnls[1..]) && pnls[0] in pnls;
      } else {
        assert Losses(pnls) == [] + Losses(pnls[1..]) == Losses(pnls[1..]);
      }
    }
  }

  /** A window has no profit factor exactly when none of its trades lost. */
  lemma {:induction false} NoFactorIffNoLoss(group: Group, pnls: seq<real>)
    ensures WindowOf(group, pnls).profitFactor.None? <==> forall p :: p in pnls ==> p >= 0.0
  {
    SumOfNegatives(Losses(pnls));
    NoLossesIff(pnls);
  }

  /** With a loss, the profit factor is gross profit over gross loss to three decimals. */
  lemma {:induction false} FactorIsRatio(group: Group, pnls: seq<real>)
    requires exists p :: p in pnls && p < 0.0
    ensures Sum(Losses(pnls)) < 0.0 && WindowOf(group, pnls).profitFactor.Some?
    ensures -0.0005 <= WindowOf(group, pnls).profitFactor.value - Sum(Wins(pnls)) / -Sum(Losses(pnls)) <= 0.0005
  {
    NoFactorIffNoLoss(group, pnls);
    NoLossesIff(pnls);
    SumOfNegatives(Losses(pnls));
    Rounding.DecimalLaws(Sum(Wins(pnls)) / -Sum(Losses(pnls)), 0);
  }

  lemma {:induction false} AboveOne(x: real)
    requires Rounding.Round3(x) > 1.0
    ensures x > 1.0
  {
  }

  lemma {:induction false} QuotientAboveOne(x: real, d: real)
    requires d > 0.0 && x / d > 1.0
    ensures x > d
  {
    assert x == x / d * d;
    assert (x / d - 1.0) * d > 0.0;
  }

  /**
    A profit factor above 1 goes with a profit, and with a positive expectancy unless the mean profit is too
    small to survive rounding.
   */
  lemma {:induction false} FactorMeansProfit(group: Group, pnls: seq<real>)
    requires PfRead(WindowOf(group, pnls)) > 1.0
    ensures pnls != [] && Sum(pnls) > 0.0
    ensures WindowOf(group, pnls).expectancy > 0.0 || Sum(pnls) / |pnls| as real <= 0.00005
  {
    var won, lost := Sum(Wins(pnls)), -Sum(Losses(pnls));
    SumSplits(pnls);
    SumOfNegatives(Losses(pnls));
    AboveOne(won / lost);
    QuotientAboveOne(won, lost);
    ExpectancyIsMean(pnls);
    PositiveSurvives(Sum(pnls) / |pnls| as real);
  }

  lemma {:induction false} PositiveSurvives(x: real)
    ensures x > 0.00005 ==> Rounding.Round4(x) > 0.0
  {
  }

  // ----- runs from real trades

  lemma {:induction false} RoundWhole()
    ensures Rounding.Round4(0.0) == 0.0 && Rounding.Round4(1.0) == 1.0
    ensures Rounding.Round4(2.0) == 2.0 && Rounding.Round4(3.0) == 3.0 && Rounding.Round4(1.5) == 1.5
    ensures Rounding.Round3(3.0) == 3.0
    ensures Rounding.Round2(2.0) == 2.0 && Rounding.Round2(4.0) == 4.0
    ensures Rounding.Round2(6.0) == 6.0 && Rounding.Round2(8.0) == 8.0
  {
    Rounding.RoundUnique(0.0, 0);
    Rounding.RoundUnique(10000.0, 10000);
    Rounding.RoundUnique(20000.0, 20000);
    Rounding.RoundUnique(30000.0, 30000);
    Rounding.RoundUnique(15000.0, 15000);
    Rounding.RoundUnique(3000.0, 3000);
    Rounding.RoundUnique(200.0, 200);
    Rounding.RoundUnique(400.0, 400);
    Rounding.RoundUnique(600.0, 600);
    Rounding.RoundUnique(800.0, 800);
  }

  /** Three yen won, one lost. */
  const MIXED: seq<real> := [3.0, -1.0]

  /** Three yen won, and one more. */
  const CLEAN: seq<real> := [3.0, 1.0]

  lemma {:induction false} MixedParts()
    ensures Sum(MIXED) == 2.0 && Sum(Wins(MIXED)) == 3.0 && Sum(Losses(MIXED)) == -1.0
  {
    assert MIXED[1..] == [-1.0] && [-1.0][1..] == [];
    assert Wins([-1.0]) == [] && Wins(MIXED) == [3.0] && Losses([-1.0]) == [-1.0] && Losses(MIXED) == [-1.0];
    assert Sum([-1.0]) == -1.0 && Sum([3.0]) == 3.0;
  }

  lemma {:induction false} CleanParts()
    ensures Sum(CLEAN) == 4.0 && Sum(Losses(CLEAN)) == 0.0
  {
    assert CLEAN[1..] == [1.0] && [1.0][1..] == [];
    assert Losses([1.0]) == [] && Losses(CLEAN) == [];
    assert Sum([1.0]) == 1.0;
  }

  /** The statistics of two trades follow from three sums. */
  lemma {:induction false} WindowFrom(group: Group, pnls: seq<real>, total: real, mean: real, factor: Option<real>)
    requires |pnls| == 2 && total == Sum(pnls) == mean + mean
    requires ProfitFactor(pnls) == factor
    requires Rounding.Round4(mean) == mean && Rounding.Round2(total) == total
    ensures WindowOf(group, pnls) == Window(group, mean, factor, total, 2)
  {
    ExpectancyIsMean(pnls);
  }

  lemma {:induction false} MixedWindow(group: Group)
    ensures WindowOf(group, MIXED) == Window(group, 1.0, Some(3.0), 2.0, 2)
  {
    MixedParts();
    RoundWhole();
    WindowFrom(group, MIXED, 2.0, 1.0, Some(3.0));
  }

  lemma {:induction false} CleanWindow(group: Group)
    ensures WindowOf(group, CLEAN) == Window(group, 2.0, None, 4.0, 2)
  {
    CleanParts();
    RoundWhole();
    WindowFrom(group, CLEAN, 4.0, 2.0, None);
  }

  lemma {:induction false} MedianOfTwo(x: real, y: real)
    ensures Median([x]) == x && Median([x, y]) == (x + y) / 2.0
  {
    assert [x, y][1..] == [y] && [y][1..] == [];
    assert Sorting.SortBy([x], Identity) == [x] by {
      assert [x][1..] == [];
    }
    assert Sorting.SortBy([y], Identity) == [y];
    assert Sorting.SortBy([x, y], Identity) == if x <= y then [x, y] else [y, x];
  }

  /** The summary of one window of each period. */
  lemma {:induction false} SummaryOfPair(prior: Window, oos: Window)
    requires prior.group == Prior10 && oos.group == Oos5
    ensures BuildSummary([prior, oos]) == Summary(
      Rounding.Round4((prior.expectancy + oos.expectancy) / 2.0), Rounding.Round4((PfRead(prior) + PfRead(oos)) / 2.0),
      (if Positive(prior) then 1 else 0) + (if Positive(oos) then 1 else 0), 2,
      (if HasEdge(prior) then 1 else 0) + (if HasEdge(oos) then 1 else 0),
      Rounding.Round2(prior.totalPnl + oos.totalPnl),
      Rounding.Round4(prior.expectancy), Rounding.Round4(oos.expectancy))
  {
    var windows := [prior, oos];
    assert windows[1..] == [oos] && [oos][1..] == [];
    assert Count([oos], Positive) == (if Positive(oos) then 1 else 0);
    assert Count([oos], HasEdge) == (if HasEdge(oos) then 1 else 0);
    assert TotalPnl([oos]) == oos.totalPnl;
    GroupsOfPair(prior, oos);
    MediansOfPair(prior, oos);
  }

  lemma {:induction false} GroupsOfPair(prior: Window, oos: Window)
    requires prior.group == Prior10 && oos.group == Oos5
    ensures OfGroup([prior, oos], Prior10) == [prior] && OfGroup([prior, oos], Oos5) == [oos]
  {
    assert [prior, oos][1..] == [oos] && [oos][1..] == [];
    assert OfGroup([oos], Prior10) == [] && OfGroup([oos], Oos5) == [oos];
  }

  lemma {:induction false} MediansOfPair(prior: Window, oos: Window)
    ensures RoundedMedian(Expectancies([prior, oos])) == Rounding.Round4((prior.expectancy + oos.expectancy) / 2.0)
    ensures RoundedMedian(ProfitFactors([prior, oos])) == Rounding.Round4((PfRead(prior) + PfRead(oos)) / 2.0)
    ensures RoundedMedian(Expectancies([prior])) == Rounding.Round4(prior.expectancy)
    ensures RoundedMedian(Expectancies([oos])) == Rounding.Round4(oos.expectancy)
  {
    assert Expectancies([prior, oos]) == [prior.expectancy, oos.expectancy];
    assert ProfitFactors([prior, oos]) == [PfRead(prior), PfRead(oos)];
    assert Expectancies([prior]) == [prior.expectancy] && Expectancies([oos]) == [oos.expectancy];
    MedianOfTwo(prior.expectancy, oos.expectancy);
    MedianOfTwo(oos.expectancy, prior.expectancy);
    MedianOfTwo(PfRead(prior), PfRead(oos));
  }

  /** The runs of two windows with the given trades. */
  function Run(prior: seq<real>, oos: seq<real>): seq<Window> {
    [WindowOf(Prior10, prior), WindowOf(Oos5, oos)]
  }

  lemma {:induction false} MixedRun()
    ensures BuildSummary(Run(MIXED, MIXED)) == Summary(1.0, 3.0, 2, 2, 2, 4.0, 1.0, 1.0)
  {
    MixedWindow(Prior10);
    MixedWindow(Oos5);
    SummaryOfPair(Window(Prior10, 1.0, Some(3.0), 2.0, 2), Window(Oos5, 1.0, Some(3.0), 2.0, 2));
    RoundWhole();
  }

  lemma {:induction false} CleanRun()
    ensures BuildSummary(Run(CLEAN, CLEAN)) == Summary(2.0, 0.0, 2, 2, 0, 8.0, 2.0, 2.0)
  {
    CleanWindow(Prior10);
    CleanWindow(Oos5);
    CleanSummary();
  }

  lemma {:induction false} CleanSummary()
    ensures BuildSummary([Window(Prior10, 2.0, None, 4.0, 2), Window(Oos5, 2.0, None, 4.0, 2)]) ==
      Summary(2.0, 0.0, 2, 2, 0, 8.0, 2.0, 2.0)
  {
    SummaryOfPair(Window(Prior10, 2.0, None, 4.0, 2), Window(Oos5, 2.0, None, 4.0, 2));
    RoundWhole();
  }

  lemma {:induction false} HalfCleanRun()
    ensures BuildSummary(Run(MIXED, CLEAN)) == Summary(1.5, 1.5, 2, 2, 1, 6.0, 1.0, 2.0)
  {
    MixedWindow(Prior10);
    CleanWindow(Oos5);
    SummaryOfPair(Window(Prior10, 1.0, Some(3.0), 2.0, 2), Window(Oos5, 2.0, None, 4.0, 2));
    RoundWhole();
  }

  lemma {:induction false} PairImproves(prior: Window, oos: Window, prior': Window, oos': Window)
    requires TrulyNoWorse(prior', prior) && TrulyNoWorse(oos', oos)
    ensures TrulyImproved([prior', oos'], [prior, oos])
  {
  }

  lemma {:induction false} CleanIsBetter(group: Group)
    ensures TrulyNoWorse(WindowOf(group, CLEAN), WindowOf(group, MIXED))
  {
    MixedWindow(group);
    CleanWindow(group);
  }

  lemma {:induction false} Verdicts()
    ensures Classify(Summary(1.0, 3.0, 2, 2, 2, 4.0, 1.0, 1.0), false) == KeepVerifying
    ensures Classify(Summary(2.0, 0.0, 2, 2, 0, 8.0, 2.0, 2.0), false) == ResearchBaseline
    ensures Classify(Summary(1.5, 1.5, 2, 2, 1, 6.0, 1.0, 2.0), false) == ResearchBaseline
    ensures forall r :: !Reports(r, Summary(1.5, 1.5, 2, 2, 1, 6.0, 1.0, 2.0), false)
  {
    UnexplainedIffOnlyEdgeFails(Summary(1.5, 1.5, 2, 2, 1, 6.0, 1.0, 2.0), false);
  }

  /** Turning every loss into a win is a true improvement, and can take a kept strategy to the baseline. */
  lemma {:induction false} WinningEveryTradeCanWorsen()
    ensures forall i :: 0 <= i < |MIXED| ==> MIXED[i] <= CLEAN[i]
    ensures TrulyImproved(Run(CLEAN, CLEAN), Run(MIXED, MIXED))
    ensures Classify(BuildSummary(Run(MIXED, MIXED)), false) == KeepVerifying
    ensures Classify(BuildSummary(Run(CLEAN, CLEAN)), false) == ResearchBaseline
  {
    MixedRun();
    CleanRun();
    Verdicts();
    CleanIsBetter(Prior10);
    CleanIsBetter(Oos5);
    PairImproves(
      WindowOf(Prior10, MIXED), WindowOf(Oos5, MIXED), WindowOf(Prior10, CLEAN), WindowOf(Oos5, CLEAN));
  }

  /** One window with losses, one without: the verdict is the baseline, and no reason is given. */
  lemma {:induction false} BaselineCanGoUnexplained()
    ensures forall r :: !Reports(r, BuildSummary(Run(MIXED, CLEAN)), false)
    ensures Classify(BuildSummary(Run(MIXED, CLEAN)), false) == ResearchBaseline
  {
    HalfCleanRun();
    Verdicts();
  }
}
