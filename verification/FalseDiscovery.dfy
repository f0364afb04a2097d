/** The Benjamini-Hochberg step-up over one-sided p-values. */
module FalseDiscovery {
  import opened Sorting

  datatype Scored = Scored(name: string, p: real)

  /** A dictionary's items: no name twice. */
  ghost predicate DistinctNames(items: seq<Scored>) {
    forall i, j :: 0 <= i < j < |items| ==> items[i].name != items[j].name
  }

  function POf(x: Scored): real {
    x.p
  }

  /** Stable, by p-value. */
  function SortByP(items: seq<Scored>): seq<Scored> {
    SortBy(items, POf)
  }

  lemma {:induction false} InsertKeepsDistinct(x: Scored, sorted: seq<Scored>)
    requires Ascending(sorted, POf) && DistinctNames(sorted)
    requires forall y :: y in sorted ==> y.name != x.name
    ensures DistinctNames(Insert(x, sorted, POf))
  {
    if sorted != [] && x.p > sorted[0].p {
      InsertKeepsDistinct(x, sorted[1..]);
      InsertKeeps(x, sorted[1..], POf);
      var rest := Insert(x, sorted[1..], POf);
      forall i | 0 <= i < |rest|
        ensures sorted[0].name != rest[i].name
      {
        assert rest[i] in rest;
      }
    }
  }

  lemma {:induction false} SortKeepsDistinct(items: seq<Scored>)
    requires DistinctNames(items)
    ensures DistinctNames(SortByP(items))
  {
    if items != [] {
      SortKeepsDistinct(items[1..]);
      SortSorts(items[1..], POf);
      InsertKeepsDistinct(items[0], SortByP(items[1..]));
    }
  }

  // ----- the order-free reading

  /** How many names have a p-value of at most `t`. */
  function CountP(items: seq<Scored>, t: real): (n: nat)
    ensures n <= |items|
  {
    CountAtMost(items, POf, t)
  }

  /** The threshold of rank `rank` among `m`. */
  function Threshold(rank: nat, m: nat, q: real): real
    requires m > 0
  {
    rank as real / m as real * q
  }

  /** The largest rank up to `top` whose threshold admits that many names; 0 when there is none. */
  function LargestRank(items: seq<Scored>, q: real, top: nat): (k: nat)
    requires items != []
    ensures k <= top
    ensures k > 0 ==> CountP(items, Threshold(k, |items|, q)) >= k
    ensures forall r: nat :: k < r <= top ==> CountP(items, Threshold(r, |items|, q)) < r
  {
    if top == 0 then 0
    else if CountP(items, Threshold(top, |items|, q)) >= top then top
    else LargestRank(items, q, top - 1)
  }

  /** The names that survive, with no reference to any order. */
  predicate Survives(items: seq<Scored>, q: real, p: real)
    requires items != []
  {
    p <= Threshold(LargestRank(items, q, |items|), |items|, q)
  }

  lemma {:induction false} ThresholdGrows(r: nat, s: nat, m: nat, q: real)
    requires m > 0 && q >= 0.0 && r <= s
    ensures 0.0 <= Threshold(r, m, q) <= Threshold(s, m, q)
  {
    var x, y := r as real / m as real, s as real / m as real;
    assert 0.0 <= x <= y;
    assert (y - x) * q >= 0.0;
    assert x * q >= 0.0;
  }

  /** With k the surviving rank: exactly k names lie within its threshold, and no larger rank meets its own. */
  lemma {:induction false} SurvivorsNumberK(items: seq<Scored>, q: real)
    requires items != [] && q >= 0.0
    ensures var k := LargestRank(items, q, |items|); CountP(items, Threshold(k, |items|, q)) == k
  {
    var m := |items|;
    var k := LargestRank(items, q, m);
    if k < m {
      ThresholdGrows(k, k + 1, m, q);
      CountGrows(items, POf, Threshold(k, m, q), Threshold(k + 1, m, q));
    }
  }

  /** The step-up outcome at one rank of the sorted list. */
  lemma {:induction false} RankSurvivesIff(items: seq<Scored>, q: real, rank: nat)
    requires items != [] && q >= 0.0 && 0 < rank <= |items|
    ensures |SortByP(items)| == |items|
    ensures rank <= LargestRank(items, q, |items|) <==> Survives(items, q, SortByP(items)[rank - 1].p)
  {
    var m := |items|;
    var k := LargestRank(items, q, m);
    RankedAtMost(items, POf, Threshold(k, m, q), rank);
    SurvivorsNumberK(items, q);
  }

  lemma {:induction false} RankQualifiesIff(items: seq<Scored>, q: real, rank: nat)
    requires 0 < rank <= |items|
    ensures |SortByP(items)| == |items|
    ensures SortByP(items)[rank - 1].p <= Threshold(rank, |items|, q) <==>
      CountP(items, Threshold(rank, |items|, q)) >= rank
  {
    RankedAtMost(items, POf, Threshold(rank, |items|, q), rank);
  }

  function Names(items: seq<Scored>): set<string> {
    set x | x in items :: x.name
  }

  lemma {:induction false} NextRank(items: seq<Scored>, q: real, rank: nat)
    requires 0 < rank <= |items|
    ensures |SortByP(items)| == |items|
    ensures LargestRank(items, q, rank) ==
      if SortByP(items)[rank - 1].p <= Threshold(rank, |items|, q) then rank else LargestRank(items, q, rank - 1)
  {
    RankQualifiesIff(items, q, rank);
  }

  /** The loop that keeps the last rank within its own threshold. */
  method MaxRankSurviving(pValues: seq<Scored>, ordered: seq<Scored>, q: real) returns (k: nat)
    requires ordered == SortByP(pValues) && |ordered| == |pValues| > 0
    ensures k == LargestRank(pValues, q, |pValues|)
  {
    k := 0;
    for rank := 1 to |ordered| + 1
      invariant k == LargestRank(pValues, q, rank - 1)
    {
      NextRank(pValues, q, rank);
      if ordered[rank - 1].p <= Threshold(rank, |ordered|, q) {
        k := rank;
      }
    }
  }

  /** The first ranks of the sorted list, each flagged by whether it is at most `k`. */
  ghost predicate Flagged(survives: map<string, bool>, ordered: seq<Scored>, k: nat) {
    && survives.Keys == Names(ordered)
    && forall i :: 0 <= i < |ordered| ==> (survives[ordered[i].name] <==> i + 1 <= k)
  }

  lemma {:induction false} FlagNext(survives: map<string, bool>, ordered: seq<Scored>, k: nat, n: nat)
    requires n < |ordered| && DistinctNames(ordered) && Flagged(survives, ordered[..n], k)
    ensures Flagged(survives[ordered[n].name := n + 1 <= k], ordered[..n + 1], k)
  {
    assert ordered[..n + 1] == ordered[..n] + [ordered[n]];
  }

  method FlagRanks(ordered: seq<Scored>, maxRankSurviving: nat) returns (survives: map<string, bool>)
    requires DistinctNames(ordered)
    ensures Flagged(survives, ordered, maxRankSurviving)
  {
    survives := map[];
    for rank := 1 to |ordered| + 1
      invariant Flagged(survives, ordered[..rank - 1], maxRankSurviving)
    {
      FlagNext(survives, ordered, maxRankSurviving, rank - 1);
      survives := survives[ordered[rank - 1].name := rank <= maxRankSurviving];
    }
    assert ordered[..|ordered|] == ordered;
  }

  /** A name survives exactly when its p-value is within the threshold of the largest self-admitting rank. */
  method BenjaminiHochberg(pValues: seq<Scored>, q: real) returns (survives: map<string, bool>)
    requires DistinctNames(pValues) && q >= 0.0
    ensures survives.Keys == Names(pValues)
    ensures forall x :: x in pValues ==> (survives[x.name] <==> Survives(pValues, q, x.p))
    ensures forall x :: x in pValues ==> (survives[x.name] <==> StepUpKeeps(pValues, q, x.p))
  {
    forall x | x in pValues
      ensures Survives(pValues, q, x.p) <==> StepUpKeeps(pValues, q, x.p)
    {
      var i :| 0 <= i < |pValues| && pValues[i] == x;
      SurvivesIsStepUp(pValues, q, i);
    }
    var ordered := SortByP(pValues);
    SortSorts(pValues, POf);
    SortKeepsDistinct(pValues);
    if ordered == [] {
      return map[];
    }
    var maxRankSurviving := MaxRankSurviving(pValues, ordered, q);
    survives := FlagRanks(ordered, maxRankSurviving);
    RanksByName(pValues, q, survives);
  }

  lemma {:induction false} SameNames(a: seq<Scored>, b: seq<Scored>)
    requires forall x :: x in a <==> x in b
    ensures Names(a) == Names(b)
  {
  }

  lemma {:induction false} RanksByName(items: seq<Scored>, q: real, survives: map<string, bool>)
    requires q >= 0.0 && items != [] && Flagged(survives, SortByP(items), LargestRank(items, q, |items|))
    ensures survives.Keys == Names(items)
    ensures forall x :: x in items ==> (survives[x.name] <==> Survives(items, q, x.p))
  {
    SortSorts(items, POf);
    var ordered := SortByP(items);
    forall x | x in items
      ensures survives[x.name] <==> Survives(items, q, x.p)
    {
      assert x in ordered;
      var i :| 0 <= i < |ordered| && ordered[i] == x;
      RankSurvivesIff(items, q, i + 1);
    }
    SameNames(ordered, items);
  }

  /** Neither dictionary order nor ties matter: permuting the items changes no name's outcome. */
  lemma {:induction false} OrderDoesNotMatter(a: seq<Scored>, b: seq<Scored>, q: real, p: real)
    requires multiset(a) == multiset(b) && a != []
    ensures |b| == |a|
    ensures Survives(a, q, p) <==> Survives(b, q, p)
  {
    assert |multiset(a)| == |multiset(b)|;
    SameLargestRank(a, b, q, |a|);
  }

  lemma {:induction false} SameLargestRank(a: seq<Scored>, b: seq<Scored>, q: real, top: nat)
    requires multiset(a) == multiset(b) && a != [] && |a| == |b|
    ensures LargestRank(a, q, top) == LargestRank(b, q, top)
  {
    if top > 0 {
      CountOfPermutation(a, b, POf, Threshold(top, |a|, q));
      SameLargestRank(a, b, q, top - 1);
    }
  }

  /** The same names in the same order, each p-value no larger. */
  ghost predicate NoLarger(lower: seq<Scored>, items: seq<Scored>) {
    |lower| == |items| && forall i :: 0 <= i < |items| ==> lower[i].name == items[i].name && lower[i].p <= items[i].p
  }

  lemma {:induction false} CountOfLowered(lower: seq<Scored>, items: seq<Scored>, t: real)
    requires NoLarger(lower, items)
    ensures CountP(items, t) <= CountP(lower, t)
  {
    if items != [] {
      CountOfLowered(lower[1..], items[1..], t);
    }
  }

  /** Lowering p-values removes no survivor. */
  lemma {:induction false} LoweringKeepsSurvivors(lower: seq<Scored>, items: seq<Scored>, q: real, i: nat)
    requires NoLarger(lower, items) && q >= 0.0 && i < |items|
    requires Survives(items, q, items[i].p)
    ensures Survives(lower, q, lower[i].p)
  {
    var m := |items|;
    var k, k' := LargestRank(items, q, m), LargestRank(lower, q, m);
    CountOfLowered(lower, items, Threshold(k, m, q));
    assert k <= k';
    ThresholdGrows(k, k', m, q);
  }

  // ----- the procedure in plain terms

  /** Taken `m` times, the p-value is at most `r` times the rate. */
  predicate Admits(p: real, r: nat, m: nat, q: real) {
    p * m as real <= r as real * q
  }

  /** The positions rank `r` admits. */
  ghost function Within(items: seq<Scored>, r: nat, q: real): set<nat> {
    set i: nat | i < |items| && Admits(items[i].p, r, |items|, q)
  }

  /** Some rank `r` admits at least `r` names, and this p-value among them. */
  ghost predicate StepUpKeeps(items: seq<Scored>, q: real, p: real) {
    exists r: nat :: 0 < r <= |items| && |Within(items, r, q)| >= r && Admits(p, r, |items|, q)
  }

  lemma {:induction false} Scaled(x: real, y: real, d: real)
    requires d > 0.0
    ensures x <= y <==> x * d <= y * d
  {
    if x <= y {
      assert (y - x) * d >= 0.0;
    } else {
      assert (x - y) * d > 0.0;
    }
  }

  lemma {:induction false} Unscaled(r: real, d: real, q: real)
    requires d > 0.0
    ensures (r / d * q) * d == r * q
  {
    var share := r / d;
    assert share * d == r;
    assert (share * q) * d == (share * d) * q;
  }

  lemma {:induction false} AdmitsIsBelow(p: real, r: nat, m: nat, q: real)
    requires m > 0
    ensures p <= Threshold(r, m, q) <==> Admits(p, r, m, q)
  {
    Unscaled(r as real, m as real, q);
    Scaled(p, Threshold(r, m, q), m as real);
  }

  lemma {:induction false} WithinIsCount(items: seq<Scored>, r: nat, q: real)
    requires items != []
    ensures |Within(items, r, q)| == CountP(items, Threshold(r, |items|, q))
  {
    var t := Threshold(r, |items|, q);
    CountIsCardinality(items, POf, t);
    forall i: nat | i < |items|
      ensures items[i].p <= t <==> Admits(items[i].p, r, |items|, q)
    {
      AdmitsIsBelow(items[i].p, r, |items|, q);
    }
    assert Within(items, r, q) == PositionsAtMost(items, POf, t);
  }

  lemma {:induction false} CountPositive(items: seq<Scored>, t: real, i: nat)
    requires i < |items| && items[i].p <= t
    ensures CountP(items, t) > 0
  {
    CountIsCardinality(items, POf, t);
    assert i in PositionsAtMost(items, POf, t);
  }

  /** Surviving, said without thresholds or a largest rank. */
  lemma {:induction false} SurvivesIsStepUp(items: seq<Scored>, q: real, i: nat)
    requires i < |items| && q >= 0.0
    ensures Survives(items, q, items[i].p) <==> StepUpKeeps(items, q, items[i].p)
  {
    var m, p := |items|, items[i].p;
    var k := LargestRank(items, q, m);
    if StepUpKeeps(items, q, p) {
      var r: nat :| 0 < r <= m && |Within(items, r, q)| >= r && Admits(p, r, m, q);
      RankKeeps(items, q, p, r);
    }
    if Survives(items, q, p) {
      SurvivorsNumberK(items, q);
      CountPositive(items, Threshold(k, m, q), i);
      WithinIsCount(items, k, q);
      AdmitsIsBelow(p, k, m, q);
    }
  }

  lemma {:induction false} RankKeeps(items: seq<Scored>, q: real, p: real, r: nat)
    requires items != [] && q >= 0.0 && 0 < r <= |items|
    requires |Within(items, r, q)| >= r && Admits(p, r, |items|, q)
    ensures Survives(items, q, p)
  {
    var m := |items|;
    WithinIsCount(items, r, q);
    AdmitsIsBelow(p, r, m, q);
    ThresholdGrows(r, LargestRank(items, q, m), m, q);
  }

  lemma {:induction false} CountOfEquals(items: seq<Scored>, p: real, t: real)
    requires forall i :: 0 <= i < |items| ==> items[i].p == p
    ensures CountP(items, t) == if p <= t then |items| else 0
  {
    if items != [] {
      CountOfEquals(items[1..], p, t);
    }
  }

  lemma {:induction false} LastThreshold(m: nat, q: real)
    requires m > 0
    ensures Threshold(m, m, q) == q
  {
    assert m as real / m as real == 1.0;
  }

  /** Equal p-values stand or fall together, at the rate itself. */
  lemma {:induction false} EqualsAreJudgedByTheRate(items: seq<Scored>, q: real, p: real)
    requires items != [] && q >= 0.0 && forall i :: 0 <= i < |items| ==> items[i].p == p
    ensures StepUpKeeps(items, q, p) <==> p <= q
  {
    var m := |items|;
    var k := LargestRank(items, q, m);
    SurvivesIsStepUp(items, q, 0);
    LastThreshold(m, q);
    CountOfEquals(items, p, Threshold(m, m, q));
    CountOfEquals(items, p, Threshold(k, m, q));
    ThresholdGrows(k, m, m, q);
  }

  lemma {:induction false} CountOfLone(items: seq<Scored>, i: nat, t: real)
    requires i < |items| && forall j :: 0 <= j < |items| && j != i ==> items[j].p > t
    ensures CountP(items, t) == if items[i].p <= t then 1 else 0
  {
    var others := items[..i] + items[i + 1..];
    CountWithout(items, i, POf, t);
    forall j | 0 <= j < |others|
      ensures POf(others[j]) > t
    {
      assert others[j] == items[if j < i then j else j + 1];
    }
    NoneAtMost(others, POf, t);
  }

  /** One p-value among others above the rate is judged at rank 1, by the rate over the number of names. */
  lemma {:induction false} LoneValueIsJudgedAtRankOne(items: seq<Scored>, q: real, i: nat)
    requires i < |items| && q >= 0.0 && forall j :: 0 <= j < |items| && j != i ==> items[j].p > q
    ensures StepUpKeeps(items, q, items[i].p) <==> items[i].p * |items| as real <= q
  {
    SurvivesIsStepUp(items, q, i);
    AdmitsIsBelow(items[i].p, 1, |items|, q);
    LoneSurvives(items, q, i);
  }

  lemma {:induction false} LoneSurvives(items: seq<Scored>, q: real, i: nat)
    requires i < |items| && q >= 0.0 && forall j :: 0 <= j < |items| && j != i ==> items[j].p > q
    ensures Survives(items, q, items[i].p) <==> items[i].p <= Threshold(1, |items|, q)
  {
    var m := |items|;
    var k := LargestRank(items, q, m);
    LastThreshold(m, q);
    ThresholdGrows(k, m, m, q);
    CountOfLone(items, i, Threshold(k, m, q));
    SurvivorsNumberK(items, q);
    if k == 0 {
      ThresholdGrows(0, 1, m, q);
      ThresholdGrows(1, m, m, q);
      CountOfLone(items, i, Threshold(1, m, q));
    }
  }
}
