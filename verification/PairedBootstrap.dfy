/**
  The paired stationary bootstrap against A0, and what raising a candidate's daily deltas does to
  its p-value and to the FDR survivors.
 */
module PairedBootstrap {
  import opened FalseDiscovery

  /** What a seed determines: the t-th draw of the generator, as a uniform or as an integer below `n`. */
  datatype Draws = Draws(uniform: nat -> real, integer: (nat, nat) -> nat) {
    ghost predicate InRange() {
      forall t: nat, n: nat :: n > 0 ==> integer(t, n) < n
    }
  }

  /** A seeded generator: a fixed stream of draws and a position in it. */
  class Generator {
    const draws: Draws
    var drawn: nat

    constructor (draws: Draws)
      ensures this.draws == draws && drawn == 0
    {
      this.draws := draws;
      drawn := 0;
    }

    method Random() returns (x: real)
      modifies this`drawn
      ensures drawn == old(drawn) + 1 && x == draws.uniform(old(drawn))
    {
      x := draws.uniform(drawn);
      drawn := drawn + 1;
    }

    method Integer(n: nat) returns (x: nat)
      requires n > 0
      modifies this`drawn
      ensures drawn == old(drawn) + 1 && x == draws.integer(old(drawn), n)
    {
      x := draws.integer(drawn, n);
      drawn := drawn + 1;
    }
  }

  // ----- one stationary resample

  /** The first indices of a resample, and the position of the next draw. */
  datatype Walk = Walk(indices: seq<nat>, next: nat)

  /** One drawn day, and the position of the next draw. */
  datatype Drawn = Drawn(day: nat, next: nat)

  /** With chance 1/L jump anywhere, or else step to the next day around the circle. */
  function NextDay(draws: Draws, last: nat, next: nat, n: nat, blockLength: real): (d: Drawn)
    requires n > 0 && blockLength != 0.0 && draws.InRange()
    ensures d.day < n
  {
    if draws.uniform(next) < 1.0 / blockLength then Drawn(draws.integer(next + 1, n), next + 2)
    else Drawn((last + 1) % n, next + 1)
  }

  /** Start anywhere, then go on day by day. */
  function Resample(draws: Draws, start: nat, n: nat, blockLength: real, count: nat): (w: Walk)
    requires n > 0 && blockLength != 0.0 && draws.InRange()
    ensures |w.indices| == count && forall i :: 0 <= i < count ==> w.indices[i] < n
  {
    if count == 0 then Walk([], start)
    else if count == 1 then Walk([draws.integer(start, n)], start + 1)
    else
      var before := Resample(draws, start, n, blockLength, count - 1);
      var d := NextDay(draws, before.indices[count - 2], before.next, n, blockLength);
      Walk(before.indices + [d.day], d.next)
  }

  /** One more day: draw, then jump or step. */
  method DrawNextDay(last: nat, n: nat, blockLength: real, rng: Generator) returns (day: nat)
    requires n > 0 && blockLength != 0.0 && rng.draws.InRange()
    modifies rng`drawn
    ensures Drawn(day, rng.drawn) == NextDay(rng.draws, last, old(rng.drawn), n, blockLength)
  {
    var p := 1.0 / blockLength;
    var u := rng.Random();
    if u < p {
      day := rng.Integer(n);
    } else {
      day := (last + 1) % n;
    }
  }

  lemma {:induction false} ResampleNext(draws: Draws, start: nat, n: nat, blockLength: real, i: nat)
    requires n > 0 && blockLength != 0.0 && draws.InRange() && i > 0
    ensures var before := Resample(draws, start, n, blockLength, i);
      var d := NextDay(draws, before.indices[i - 1], before.next, n, blockLength);
      Resample(draws, start, n, blockLength, i + 1) == Walk(before.indices + [d.day], d.next)
  {
  }

  method StationaryBootstrapIndices(n: nat, blockLength: real, rng: Generator) returns (indices: array<nat>)
    requires blockLength != 0.0 && rng.draws.InRange()
    modifies rng`drawn
    ensures fresh(indices)
    ensures if n == 0 then indices.Length == 0 && rng.drawn == old(rng.drawn)
            else Walk(indices[..], rng.drawn) == Resample(rng.draws, old(rng.drawn), n, blockLength, n)
  {
    indices := new nat[n];
    if n == 0 {
      return;
    }
    indices[0] := rng.Integer(n);
    ghost var w := Walk([indices[0]], rng.drawn);
    for i := 1 to n
      invariant w == Walk(indices[..i], rng.drawn) == Resample(rng.draws, old(rng.drawn), n, blockLength, i)
    {
      var day := DrawNextDay(indices[i - 1], n, blockLength, rng);
      ResampleNext(rng.draws, old(rng.drawn), n, blockLength, i);
      indices[i] := day;
      w := Walk(w.indices + [day], rng.drawn);
      assert indices[..i + 1] == w.indices;
    }
    assert indices[..n] == indices[..];
  }

  // ----- means and the one-sided p-value

  function SumAt(delta: seq<real>, indices: seq<nat>): real
    requires forall i :: 0 <= i < |indices| ==> indices[i] < |delta|
  {
    if indices == [] then 0.0
    else SumAt(delta, indices[..|indices| - 1]) + delta[indices[|indices| - 1]]
  }

  function Mean(delta: seq<real>, indices: seq<nat>): real
    requires delta != [] && forall i :: 0 <= i < |indices| ==> indices[i] < |delta|
  {
    SumAt(delta, indices) / |delta| as real
  }

  /** The resampled means, and the position of the next draw. */
  datatype Means = Means(values: seq<real>, next: nat)

  function ResampledMeans(delta: seq<real>, draws: Draws, blockLength: real, resamples: nat): (m: Means)
    requires delta != [] && blockLength != 0.0 && draws.InRange()
    ensures |m.values| == resamples
  {
    if resamples == 0 then Means([], 0)
    else
      var before := ResampledMeans(delta, draws, blockLength, resamples - 1);
      var w := Resample(draws, before.next, |delta|, blockLength, |delta|);
      Means(before.values + [Mean(delta, w.indices)], w.next)
  }

  function CountNonPositive(values: seq<real>): (n: nat)
    ensures n <= |values|
  {
    if values == [] then 0
    else CountNonPositive(values[..|values| - 1]) + if values[|values| - 1] <= 0.0 then 1 else 0
  }

  function PValue(delta: seq<real>, draws: Draws, blockLength: real, resamples: nat): (p: real)
    requires resamples > 0 && blockLength != 0.0 && draws.InRange()
  {
    if delta == [] then 1.0
    else CountNonPositive(ResampledMeans(delta, draws, blockLength, resamples).values) as real / resamples as real
  }

  lemma {:induction false} CountNext(values: seq<real>, x: real)
    ensures CountNonPositive(values + [x]) == CountNonPositive(values) + if x <= 0.0 then 1 else 0
  {
    assert (values + [x])[..|values|] == values;
  }

  lemma {:induction false} SumNext(delta: seq<real>, indices: seq<nat>, i: nat)
    requires i < |indices| && forall k :: 0 <= k < |indices| ==> indices[k] < |delta|
    ensures SumAt(delta, indices[..i + 1]) == SumAt(delta, indices[..i]) + delta[indices[i]]
  {
    assert indices[..i + 1][..i] == indices[..i];
  }

  /** The mean of the drawn days. */
  method MeanOfDays(delta: seq<real>, idx: array<nat>) returns (mean: real)
    requires delta != [] && idx.Length == |delta| && forall k :: 0 <= k < idx.Length ==> idx[k] < |delta|
    ensures mean == Mean(delta, idx[..])
  {
    var sum := 0.0;
    for i := 0 to |delta|
      invariant sum == SumAt(delta, idx[..i])
    {
      SumNext(delta, idx[..], i);
      assert idx[..][..i] == idx[..i] && idx[..][..i + 1] == idx[..i + 1];
      sum := sum + delta[idx[i]];
    }
    assert idx[..|delta|] == idx[..];
    mean := sum / |delta| as real;
  }

  /** The mean of one more resample. */
  method DrawMean(delta: seq<real>, rng: Generator, blockLength: real, ghost m: Means, ghost b: nat)
    returns (mean: real)
    requires delta != [] && blockLength != 0.0 && rng.draws.InRange()
    requires m == ResampledMeans(delta, rng.draws, blockLength, b) && m.next == rng.drawn
    modifies rng`drawn
    ensures ResampledMeans(delta, rng.draws, blockLength, b + 1) == Means(m.values + [mean], rng.drawn)
  {
    var idx := StationaryBootstrapIndices(|delta|, blockLength, rng);
    mean := MeanOfDays(delta, idx);
  }

  /** The resampled means, one after another, and how many of them are at most zero. */
  method ResampleMeans(delta: seq<real>, rng: Generator, blockLength: real, resamples: nat)
    returns (means: array<real>, nonPositive: nat)
    requires delta != [] && blockLength != 0.0 && rng.draws.InRange() && rng.drawn == 0
    modifies rng`drawn
    ensures fresh(means) && Means(means[..], rng.drawn) == ResampledMeans(delta, rng.draws, blockLength, resamples)
    ensures nonPositive == CountNonPositive(means[..])
  {
    means := new real[resamples];
    nonPositive := 0;
    ghost var m := Means([], 0);
    for b := 0 to resamples
      invariant m == ResampledMeans(delta, rng.draws, blockLength, b) && m.next == rng.drawn
      invariant means[..b] == m.values && nonPositive == CountNonPositive(m.values)
    {
      var mean := DrawMean(delta, rng, blockLength, m, b);
      CountNext(m.values, mean);
      m := Means(m.values + [mean], rng.drawn);
      means[b] := mean;
      assert means[..b + 1] == m.values;
      if mean <= 0.0 {
        nonPositive := nonPositive + 1;
      }
    }
    assert means[..resamples] == means[..];
  }

  /** The one-sided p-value of the mean daily delta. */
  method OneSidedPValue(delta: seq<real>, draws: Draws, blockLength: real, resamples: nat) returns (p: real)
    requires resamples > 0 && blockLength != 0.0 && draws.InRange()
    ensures p == PValue(delta, draws, blockLength, resamples)
  {
    var rng := new Generator(draws);
    if |delta| == 0 {
      return 1.0;
    }
    var means, nonPositive := ResampleMeans(delta, rng, blockLength, resamples);
    p := nonPositive as real / resamples as real;
  }

  // ----- what the resample and the p-value are

  lemma {:induction false} QuotientGrows(x: real, y: real, d: real)
    requires x <= y && d > 0.0
    ensures x / d <= y / d
  {
    assert (y - x) / d >= 0.0;
    assert y / d == x / d + (y - x) / d;
  }

  /** Whether day `i` of a resample starts a new block. */
  predicate Jumps(draws: Draws, start: nat, n: nat, blockLength: real, i: nat)
    requires n > 0 && blockLength != 0.0 && draws.InRange() && i > 0
  {
    draws.uniform(Resample(draws, start, n, blockLength, i).next) < 1.0 / blockLength
  }

  lemma {:induction false} ResampleIsPrefix(draws: Draws, start: nat, n: nat, blockLength: real, i: nat, count: nat)
    requires n > 0 && blockLength != 0.0 && draws.InRange() && i <= count
    ensures Resample(draws, start, n, blockLength, count).indices[..i] ==
      Resample(draws, start, n, blockLength, i).indices
    decreases count
  {
    if i < count {
      ResampleIsPrefix(draws, start, n, blockLength, i, count - 1);
      var front := Resample(draws, start, n, blockLength, count - 1).indices;
      assert Resample(draws, start, n, blockLength, count).indices[..count - 1] == front;
      assert Resample(draws, start, n, blockLength, count).indices[..i] == front[..i];
    }
  }

  /** Day `j` of a resample, when it does not jump, follows day `j - 1` around the circle. */
  lemma {:induction false} StepsForward(draws: Draws, start: nat, n: nat, blockLength: real, count: nat, j: nat)
    requires n > 0 && blockLength != 0.0 && draws.InRange() && 0 < j < count
    requires !Jumps(draws, start, n, blockLength, j)
    ensures var indices := Resample(draws, start, n, blockLength, count).indices;
      indices[j] == (indices[j - 1] + 1) % n
  {
    ResampleIsPrefix(draws, start, n, blockLength, j + 1, count);
    var indices := Resample(draws, start, n, blockLength, count).indices;
    var before := Resample(draws, start, n, blockLength, j).indices;
    assert Resample(draws, start, n, blockLength, j + 1).indices == before + [(before[j - 1] + 1) % n];
    assert indices[j] == indices[..j + 1][j] && indices[j - 1] == indices[..j + 1][j - 1];
  }

  /** Between jumps a resample is a run of consecutive days around the circle. */
  lemma {:induction false} BlocksAreCircularRuns(
    draws: Draws, start: nat, n: nat, blockLength: real, count: nat, i: nat, j: nat)
    requires n > 0 && blockLength != 0.0 && draws.InRange() && i <= j < count
    requires forall k :: i < k <= j ==> !Jumps(draws, start, n, blockLength, k)
    ensures var indices := Resample(draws, start, n, blockLength, count).indices;
      indices[j] == (indices[i] + (j - i)) % n
    decreases j
  {
    var indices := Resample(draws, start, n, blockLength, count).indices;
    if i < j {
      BlocksAreCircularRuns(draws, start, n, blockLength, count, i, j - 1);
      StepsForward(draws, start, n, blockLength, count, j);
      NextAroundCircle(indices[i] + (j - 1 - i), n);
    } else {
      Unwrapped(indices[i], n);
    }
  }

  lemma {:induction false} Unwrapped(x: nat, n: nat)
    requires x < n
    ensures x % n == x
  {
  }

  /** The first day of a resample is the first integer drawn. */
  lemma {:induction false} FirstDayIsDrawn(draws: Draws, start: nat, n: nat, blockLength: real, count: nat)
    requires n > 0 && blockLength != 0.0 && draws.InRange() && count > 0
    ensures Resample(draws, start, n, blockLength, count).indices[0] == draws.integer(start, n)
    ensures Resample(draws, start, n, blockLength, 1).next == start + 1
  {
    ResampleIsPrefix(draws, start, n, blockLength, 1, count);
    var indices := Resample(draws, start, n, blockLength, count).indices;
    assert indices[0] == indices[..1][0];
  }

  /**
    Day `j` draws one uniform. Below 1/L the day is the integer drawn right after it, anything else steps on
    without another draw.
   */
  lemma {:induction false} JumpLandsOnDraw(draws: Draws, start: nat, n: nat, blockLength: real, count: nat, j: nat)
    requires n > 0 && blockLength != 0.0 && draws.InRange() && 0 < j < count
    ensures var drawn := Resample(draws, start, n, blockLength, j).next;
      var indices := Resample(draws, start, n, blockLength, count).indices;
      if draws.uniform(drawn) < 1.0 / blockLength then
        && indices[j] == draws.integer(drawn + 1, n)
        && Resample(draws, start, n, blockLength, j + 1).next == drawn + 2
      else
        && indices[j] == (indices[j - 1] + 1) % n
        && Resample(draws, start, n, blockLength, j + 1).next == drawn + 1
  {
    ResampleIsPrefix(draws, start, n, blockLength, j + 1, count);
    var indices := Resample(draws, start, n, blockLength, count).indices;
    var before := Resample(draws, start, n, blockLength, j);
    var after := Resample(draws, start, n, blockLength, j + 1);
    assert after.indices[..j] == before.indices;
    assert indices[j] == indices[..j + 1][j] && indices[j - 1] == indices[..j + 1][j - 1];
  }

  /** Draws that jump every day, to the days of a given list. */
  function Script(days: seq<nat>, start: nat): Draws {
    Draws((t: nat) => 0.0, (t: nat, n: nat) => ScriptedDay(days, start, t, n))
  }

  function ScriptedDay(days: seq<nat>, start: nat, t: nat, n: nat): nat {
    if t >= start && (t - start) % 2 == 0 && (t - start) / 2 < |days| && days[(t - start) / 2] < n then
      days[(t - start) / 2]
    else 0
  }

  lemma {:induction false} Scripted(days: seq<nat>, start: nat, n: nat, i: nat)
    requires i < |days| && days[i] < n
    ensures Script(days, start).integer(start + 2 * i, n) == days[i]
  {
    assert (start + 2 * i - start) / 2 == i;
  }

  /** Every list of days is some resample: nothing confines where a block begins. */
  lemma {:induction false} EveryListIsAResample(days: seq<nat>, start: nat, n: nat, blockLength: real, count: nat)
    requires n > 0 && blockLength > 0.0 && count <= |days| && forall i :: 0 <= i < |days| ==> days[i] < n
    ensures Script(days, start).InRange()
    ensures var w := Resample(Script(days, start), start, n, blockLength, count);
      w.indices == days[..count] && (count > 0 ==> w.next == start + 2 * count - 1)
  {
    if count == 1 {
      Scripted(days, start, n, 0);
      assert days[..1] == [days[0]];
    } else if count > 1 {
      EveryListIsAResample(days, start, n, blockLength, count - 1);
      Scripted(days, start, n, count - 1);
      PositiveChance(blockLength);
      assert days[..count] == days[..count - 1] + [days[count - 1]];
    }
  }

  lemma {:induction false} PositiveChance(blockLength: real)
    requires blockLength > 0.0
    ensures 1.0 / blockLength > 0.0
  {
    QuotientGrows(0.0, 1.0, blockLength);
    assert 1.0 / blockLength * blockLength == 1.0;
    assert 1.0 / blockLength != 0.0;
  }

  // ----- the mean and the share

  /** How often a resample draws a day. */
  ghost function Times(indices: seq<nat>, day: nat): nat {
    multiset(indices)[day]
  }

  /** `x` added up `n` times. */
  ghost function Repeated(n: nat, x: real): real {
    if n == 0 then 0.0 else Repeated(n - 1, x) + x
  }

  lemma {:induction false} RepeatedIsProduct(n: nat, x: real)
    ensures Repeated(n, x) == n as real * x
  {
    if n > 0 {
      RepeatedIsProduct(n - 1, x);
      assert n as real * x == (n - 1) as real * x + x;
    }
  }

  lemma {:induction false} OneMoreTime(front: seq<nat>, last: nat, day: nat)
    ensures Times(front + [last], day) == Times(front, day) + if last == day then 1 else 0
  {
  }

  /** Raising one day's delta by `x` raises the resampled sum by `x` for every time the day is drawn. */
  lemma {:induction false} SumOfOneRaised(delta: seq<real>, indices: seq<nat>, day: nat, x: real)
    requires day < |delta| && forall i :: 0 <= i < |indices| ==> indices[i] < |delta|
    ensures SumAt(delta[day := delta[day] + x], indices) == SumAt(delta, indices) + Repeated(Times(indices, day), x)
  {
    if indices != [] {
      var front, last := indices[..|indices| - 1], indices[|indices| - 1];
      SumOfOneRaised(delta, front, day, x);
      OneMoreTime(front, last, day);
      assert indices == front + [last];
    }
  }

  /** The mean of a resample weighs each day by how often it is drawn, over the number of days. */
  lemma {:induction false} MeanOfOneRaised(delta: seq<real>, indices: seq<nat>, day: nat, x: real)
    requires |indices| == |delta| && day < |delta| && forall i :: 0 <= i < |indices| ==> indices[i] < |delta|
    ensures |delta| as real * Mean(delta[day := delta[day] + x], indices) ==
      |delta| as real * Mean(delta, indices) + Times(indices, day) as real * x
  {
    var raised := delta[day := delta[day] + x];
    SumOfOneRaised(delta, indices, day, x);
    RepeatedIsProduct(Times(indices, day), x);
    MeanTimesDays(delta, indices);
    MeanTimesDays(raised, indices);
  }

  lemma {:induction false} MeanTimesDays(delta: seq<real>, indices: seq<nat>)
    requires delta != [] && forall i :: 0 <= i < |indices| ==> indices[i] < |delta|
    ensures |delta| as real * Mean(delta, indices) == SumAt(delta, indices)
  {
    Multiplied(SumAt(delta, indices), |delta| as real);
  }

  lemma {:induction false} Multiplied(x: real, d: real)
    requires d > 0.0
    ensures d * (x / d) == x
  {
  }

  /** The positions of the means at or below zero. */
  ghost function NonPositiveAt(values: seq<real>): set<nat> {
    set b: nat | b < |values| && values[b] <= 0.0
  }

  lemma {:induction false} CountIsNumber(values: seq<real>)
    ensures CountNonPositive(values) == |NonPositiveAt(values)|
  {
    if values == [] {
      assert NonPositiveAt(values) == {};
    } else {
      var front, last := values[..|values| - 1], values[|values| - 1];
      CountIsNumber(front);
      var fewer := NonPositiveAt(front);
      assert |front| !in fewer;
      assert NonPositiveAt(values) == if last <= 0.0 then fewer + {|front|} else fewer;
    }
  }

  /** The p-value is the number of means at or below zero over the number of resamples. */
  lemma {:induction false} PValueCounts(delta: seq<real>, draws: Draws, blockLength: real, resamples: nat)
    requires resamples > 0 && blockLength != 0.0 && draws.InRange() && delta != []
    ensures PValue(delta, draws, blockLength, resamples) ==
      |NonPositiveAt(ResampledMeans(delta, draws, blockLength, resamples).values)| as real / resamples as real
  {
    CountIsNumber(ResampledMeans(delta, draws, blockLength, resamples).values);
  }

  /** Each mean is that of a resample of its own, which begins where the one before stopped drawing. */
  lemma {:induction false} ResamplesFollowOn(delta: seq<real>, draws: Draws, blockLength: real, resamples: nat, b: nat)
    requires delta != [] && blockLength != 0.0 && draws.InRange() && b < resamples
    ensures var start := ResampledMeans(delta, draws, blockLength, b).next;
      var w := Resample(draws, start, |delta|, blockLength, |delta|);
      && ResampledMeans(delta, draws, blockLength, resamples).values[b] == Mean(delta, w.indices)
      && ResampledMeans(delta, draws, blockLength, b + 1).next == w.next > start
    decreases resamples
  {
    var start := ResampledMeans(delta, draws, blockLength, b).next;
    DrawsAreUsed(draws, start, |delta|, blockLength, |delta|);
    if b < resamples - 1 {
      ResamplesFollowOn(delta, draws, blockLength, resamples - 1, b);
    }
  }

  lemma {:induction false} DrawsAreUsed(draws: Draws, start: nat, n: nat, blockLength: real, count: nat)
    requires n > 0 && blockLength != 0.0 && draws.InRange() && count > 0
    ensures Resample(draws, start, n, blockLength, count).next > start
  {
    if count > 1 {
      DrawsAreUsed(draws, start, n, blockLength, count - 1);
    }
  }

  lemma {:induction false} NextAroundCircle(x: nat, n: nat)
    requires n > 0
    ensures (x % n + 1) % n == (x + 1) % n
  {
    var q, r := x / n, x % n;
    assert x + 1 == n * q + (r + 1);
    if r + 1 < n {
      RemainderIs(x + 1, n, q, r + 1);
      RemainderIs(r + 1, n, 0, r + 1);
    } else {
      assert x + 1 == n * (q + 1) + 0;
      RemainderIs(x + 1, n, q + 1, 0);
      RemainderIs(r + 1, n, 1, 0);
    }
  }

  lemma {:induction false} RemainderIs(x: nat, n: nat, q: nat, r: nat)
    requires n > 0 && x == n * q + r && r < n
    ensures x % n == r
  {
    var q', r' := x / n, x % n;
    assert x == n * q' + r' && 0 <= r' < n;
    assert n * (q - q') == r' - r;
    if q != q' {
      ProductIsLarge(n, q - q');
    }
  }

  lemma {:induction false} ProductIsLarge(n: int, d: int)
    requires n > 0 && d != 0
    ensures n * d >= n || n * d <= -n
  {
    if d > 0 {
      assert n * (d - 1) >= 0;
    } else {
      assert n * (-d - 1) >= 0;
    }
  }

  predicate AllNonPositive(values: seq<real>) {
    forall i :: 0 <= i < |values| ==> values[i] <= 0.0
  }

  predicate AllPositive(values: seq<real>) {
    forall i :: 0 <= i < |values| ==> values[i] > 0.0
  }

  lemma {:induction false} CountIsExtreme(values: seq<real>)
    ensures CountNonPositive(values) == |values| <==> AllNonPositive(values)
    ensures CountNonPositive(values) == 0 <==> AllPositive(values)
  {
    if values != [] {
      CountIsExtreme(values[..|values| - 1]);
    }
  }

  lemma {:induction false} SumOfConstant(delta: seq<real>, indices: seq<nat>, x: real)
    requires forall i :: 0 <= i < |delta| ==> delta[i] == x
    requires forall i :: 0 <= i < |indices| ==> indices[i] < |delta|
    ensures SumAt(delta, indices) == |indices| as real * x
  {
    if indices != [] {
      SumOfConstant(delta, indices[..|indices| - 1], x);
      assert |indices| as real * x == (|indices| - 1) as real * x + x;
    }
  }

  lemma {:induction false} MeanOfConstant(delta: seq<real>, indices: seq<nat>, x: real)
    requires |indices| == |delta| > 0 && forall i :: 0 <= i < |indices| ==> indices[i] < |delta|
    requires forall i :: 0 <= i < |delta| ==> delta[i] == x
    ensures Mean(delta, indices) == x
  {
    SumOfConstant(delta, indices, x);
    MeanOfSame(SumAt(delta, indices), |delta|, x);
  }

  lemma {:induction false} MeansOfConstant(
    delta: seq<real>, draws: Draws, blockLength: real, resamples: nat, x: real, b: nat)
    requires delta != [] && blockLength != 0.0 && draws.InRange() && b < resamples
    requires forall i :: 0 <= i < |delta| ==> delta[i] == x
    ensures ResampledMeans(delta, draws, blockLength, resamples).values[b] == x
    decreases resamples
  {
    if b == resamples - 1 {
      var before := ResampledMeans(delta, draws, blockLength, b);
      MeanOfConstant(delta, Resample(draws, before.next, |delta|, blockLength, |delta|).indices, x);
    } else {
      MeansOfConstant(delta, draws, blockLength, resamples - 1, x, b);
    }
  }

  lemma {:induction false} MeanOfSame(sum: real, n: nat, x: real)
    requires n > 0 && sum == n as real * x
    ensures sum / n as real == x
  {
  }

  lemma {:induction false} ShareIsExtreme(n: nat, d: nat)
    requires d > 0 && n <= d
    ensures 0.0 <= n as real / d as real <= 1.0
    ensures n as real / d as real == 1.0 <==> n == d
    ensures n as real / d as real == 0.0 <==> n == 0
  {
    var share := n as real / d as real;
    assert share * d as real == n as real;
    QuotientGrows(0.0, n as real, d as real);
    QuotientGrows(n as real, d as real, d as real);
  }

  /**
    The p-value is the share of resampled means at or below zero: 1 when all are, 0 when none is, 1 on no
    days at all; a constant daily advantage is judged by its sign.
   */
  lemma {:induction false} PValueIsShareNonPositive(delta: seq<real>, draws: Draws, blockLength: real, resamples: nat)
    requires resamples > 0 && blockLength != 0.0 && draws.InRange()
    ensures 0.0 <= PValue(delta, draws, blockLength, resamples) <= 1.0
    ensures delta == [] ==> PValue(delta, draws, blockLength, resamples) == 1.0
    ensures delta != [] ==>
      var means := ResampledMeans(delta, draws, blockLength, resamples).values;
      && (PValue(delta, draws, blockLength, resamples) == 1.0 <==> AllNonPositive(means))
      && (PValue(delta, draws, blockLength, resamples) == 0.0 <==> AllPositive(means))
  {
    if delta != [] {
      var means := ResampledMeans(delta, draws, blockLength, resamples).values;
      CountIsExtreme(means);
      assert |means| == resamples;
      ShareIsExtreme(CountNonPositive(means), resamples);
      assert PValue(delta, draws, blockLength, resamples) == 1.0 <==> CountNonPositive(means) == |means|;
      assert PValue(delta, draws, blockLength, resamples) == 0.0 <==> CountNonPositive(means) == 0;
    }
  }

  /** A candidate that beats A0 by the same amount every day has p-value 0, one that never does has 1. */
  lemma {:induction false} ConstantAdvantage(delta: seq<real>, draws: Draws, blockLength: real, resamples: nat, x: real)
    requires resamples > 0 && blockLength != 0.0 && draws.InRange()
    requires delta != [] && forall i :: 0 <= i < |delta| ==> delta[i] == x
    ensures PValue(delta, draws, blockLength, resamples) == if x > 0.0 then 0.0 else 1.0
  {
    var means := ResampledMeans(delta, draws, blockLength, resamples).values;
    forall b: nat | b < resamples
      ensures means[b] == x
    {
      MeansOfConstant(delta, draws, blockLength, resamples, x, b);
    }
    PValueIsShareNonPositive(delta, draws, blockLength, resamples);
    assert means[0] == x;
  }

  // ----- raising the deltas

  ghost predicate Raised(higher: seq<real>, delta: seq<real>) {
    |higher| == |delta| && forall i :: 0 <= i < |delta| ==> delta[i] <= higher[i]
  }

  lemma {:induction false} SumOfRaised(higher: seq<real>, delta: seq<real>, indices: seq<nat>)
    requires Raised(higher, delta) && forall i :: 0 <= i < |indices| ==> indices[i] < |delta|
    ensures SumAt(delta, indices) <= SumAt(higher, indices)
  {
    if indices != [] {
      SumOfRaised(higher, delta, indices[..|indices| - 1]);
    }
  }

  lemma {:induction false} MeanOfRaised(higher: seq<real>, delta: seq<real>, indices: seq<nat>)
    requires Raised(higher, delta) && delta != [] && forall i :: 0 <= i < |indices| ==> indices[i] < |delta|
    ensures Mean(delta, indices) <= Mean(higher, indices)
  {
    SumOfRaised(higher, delta, indices);
    QuotientGrows(SumAt(delta, indices), SumAt(higher, indices), |delta| as real);
  }

  /** The same draws serve both series, so every resampled mean rises. */
  lemma {:induction false} MeansOfRaised(
    higher: seq<real>, delta: seq<real>, draws: Draws, blockLength: real, resamples: nat)
    requires Raised(higher, delta) && delta != [] && blockLength != 0.0 && draws.InRange()
    ensures var m, m' := ResampledMeans(delta, draws, blockLength, resamples),
                         ResampledMeans(higher, draws, blockLength, resamples);
      m.next == m'.next && Raised(m'.values, m.values)
  {
    if resamples > 0 {
      MeansOfRaised(higher, delta, draws, blockLength, resamples - 1);
      var before := ResampledMeans(delta, draws, blockLength, resamples - 1);
      var before' := ResampledMeans(higher, draws, blockLength, resamples - 1);
      var indices := Resample(draws, before.next, |delta|, blockLength, |delta|).indices;
      MeanOfRaised(higher, delta, indices);
      RaisedAppend(before'.values, before.values, Mean(higher, indices), Mean(delta, indices));
    }
  }

  lemma {:induction false} RaisedAppend(higher: seq<real>, values: seq<real>, x: real, y: real)
    requires Raised(higher, values) && y <= x
    ensures Raised(higher + [x], values + [y])
  {
  }

  lemma {:induction false} CountOfRaised(higher: seq<real>, values: seq<real>)
    requires Raised(higher, values)
    ensures CountNonPositive(higher) <= CountNonPositive(values)
  {
    if values != [] {
      CountOfRaised(higher[..|higher| - 1], values[..|values| - 1]);
    }
  }

  /** Raising daily deltas, same days and seed, never raises the p-value. */
  lemma {:induction false} RaisingNeverRaisesPValue(
    higher: seq<real>, delta: seq<real>, draws: Draws, blockLength: real, resamples: nat)
    requires Raised(higher, delta) && resamples > 0 && blockLength != 0.0 && draws.InRange()
    ensures PValue(higher, draws, blockLength, resamples) <= PValue(delta, draws, blockLength, resamples)
  {
    if delta != [] {
      var raised, values := ResampledMeans(higher, draws, blockLength, resamples).values,
                            ResampledMeans(delta, draws, blockLength, resamples).values;
      MeansOfRaised(higher, delta, draws, blockLength, resamples);
      CountOfRaised(raised, values);
      QuotientGrows(CountNonPositive(raised) as real, CountNonPositive(values) as real, resamples as real);
    }
  }

  // ----- Stage 1: bootstrap each candidate, then control the false discovery rate

  datatype Candidate = Candidate(name: string, delta: seq<real>)

  function PValues(candidates: seq<Candidate>, draws: Draws, blockLength: real, resamples: nat): (scored: seq<Scored>)
    requires resamples > 0 && blockLength != 0.0 && draws.InRange()
    ensures |scored| == |candidates|
  {
    seq(|candidates|, i requires 0 <= i < |candidates| =>
      Scored(candidates[i].name, PValue(candidates[i].delta, draws, blockLength, resamples)))
  }

  /** Candidate by candidate, the same name and days with deltas no lower. */
  ghost predicate AllRaised(higher: seq<Candidate>, candidates: seq<Candidate>) {
    |higher| == |candidates| && forall i :: 0 <= i < |candidates| ==>
      higher[i].name == candidates[i].name && Raised(higher[i].delta, candidates[i].delta)
  }

  /** Raising deltas removes no candidate -- the raised ones or any other -- from the survivors. */
  lemma {:induction false} RaisingKeepsSurvivors(
    higher: seq<Candidate>, candidates: seq<Candidate>, draws: Draws, blockLength: real, resamples: nat, q: real,
    i: nat)
    requires AllRaised(higher, candidates) && i < |candidates| && q >= 0.0
    requires resamples > 0 && blockLength != 0.0 && draws.InRange()
    ensures var scored, raised := PValues(candidates, draws, blockLength, resamples),
                                  PValues(higher, draws, blockLength, resamples);
      Survives(scored, q, scored[i].p) ==> Survives(raised, q, raised[i].p)
  {
    var scored, raised := PValues(candidates, draws, blockLength, resamples),
                          PValues(higher, draws, blockLength, resamples);
    forall k | 0 <= k < |candidates|
      ensures raised[k].name == scored[k].name && raised[k].p <= scored[k].p
    {
      RaisingNeverRaisesPValue(higher[k].delta, candidates[k].delta, draws, blockLength, resamples);
    }
    if Survives(scored, q, scored[i].p) {
      LoweringKeepsSurvivors(raised, scored, q, i);
    }
  }
}
