/** Costs applied after the fact: per-day netting, the stress-hour model and cost durability. */
module Costs {
  import opened Wrappers
  import opened ExitEngine

  const C1B: real := 1.0
  const C2: real := 1.5
  const C5_EXTRA_PIPS: real := 0.5
  const C5_STRESS_HOURS_JST: set<int> := {21, 22, 23, 5, 6, 7, 8}

  /** What a frame knows of each row in Japanese time. */
  datatype Calendar = Calendar(day: seq<string>, hour: seq<int>)

  ghost predicate Covered(trades: seq<Trade>, c: Calendar) {
    |c.day| == |c.hour| &&
    forall i :: 0 <= i < |trades| ==> trades[i].entryRow < |c.day| && trades[i].exitRow < |c.day|
  }

  function CostC5(t: Trade, c: Calendar): real
    requires t.exitRow < |c.hour|
  {
    if c.hour[t.exitRow] in C5_STRESS_HOURS_JST then C1B + C5_EXTRA_PIPS else C1B
  }

  /** A fixed cost, or the stress-hour model when none is given. */
  function CostOf(t: Trade, costPips: Option<real>, c: Calendar): real
    requires t.exitRow < |c.hour|
  {
    match costPips
    case Some(fixed) => fixed
    case None => CostC5(t, c)
  }

  /** Net pips of the first `n` trades, those of one day or of all days. */
  function Net(trades: seq<Trade>, n: nat, day: Option<string>, costPips: Option<real>, c: Calendar): real
    requires Covered(trades, c) && n <= |trades|
  {
    if n == 0 then 0.0
    else
      var t := trades[n - 1];
      Net(trades, n - 1, day, costPips, c) +
      if day.None? || c.day[t.entryRow] == day.value then t.rawPips - CostOf(t, costPips, c) else 0.0
  }

  /** Net pips of a whole list. */
  function Total(trades: seq<Trade>, costPips: Option<real>, c: Calendar): real
    requires Covered(trades, c)
  {
    Net(trades, |trades|, None, costPips, c)
  }

  ghost function Days(trades: seq<Trade>, n: nat, c: Calendar): set<string>
    requires Covered(trades, c) && n <= |trades|
  {
    set i | 0 <= i < n :: c.day[trades[i].entryRow]
  }

  /** Sum of a dictionary's values. */
  ghost function SumValues(m: map<string, real>): real {
    if m == map[] then 0.0
    else
      var k :| k in m;
      m[k] + SumValues(m - {k})
  }

  lemma {:induction false} SumWithout(m: map<string, real>, k: string)
    requires k in m
    ensures SumValues(m) == m[k] + SumValues(m - {k})
    decreases |m|
  {
    var j :| j in m && SumValues(m) == m[j] + SumValues(m - {j});
    if j != k {
      SumWithout(m - {j}, k);
      SumWithout(m - {k}, j);
      assert m - {j} - {k} == m - {k} - {j};
    }
  }

  lemma {:induction false} SumOfUpdate(m: map<string, real>, k: string, v: real)
    ensures SumValues(m[k := v]) == SumValues(m) - (if k in m then m[k] else 0.0) + v
  {
    SumWithout(m[k := v], k);
    if k in m {
      SumWithout(m, k);
      assert m[k := v] - {k} == m - {k};
    } else {
      assert m[k := v] - {k} == m;
    }
  }

  /** `byDay` holds each day's net of the first `n` trades, and their sum is the net of all. */
  ghost predicate NetsByDay(byDay: map<string, real>, trades: seq<Trade>, n: nat, costPips: Option<real>, c: Calendar)
    requires Covered(trades, c) && n <= |trades|
  {
    && byDay.Keys == Days(trades, n, c)
    && (forall d :: d in byDay ==> byDay[d] == Net(trades, n, Some(d), costPips, c))
    && SumValues(byDay) == Net(trades, n, None, costPips, c)
  }

  lemma {:induction false} NoTradesOnDay(trades: seq<Trade>, n: nat, day: string, costPips: Option<real>, c: Calendar)
    requires Covered(trades, c) && n <= |trades| && day !in Days(trades, n, c)
    ensures Net(trades, n, Some(day), costPips, c) == 0.0
  {
    if n > 0 {
      assert c.day[trades[n - 1].entryRow] in Days(trades, n, c);
      assert Days(trades, n - 1, c) <= Days(trades, n, c);
      NoTradesOnDay(trades, n - 1, day, costPips, c);
    }
  }

  /** The dictionary after one trade is netted into its entry day. */
  function Credited(byDay: map<string, real>, t: Trade, costPips: Option<real>, c: Calendar): map<string, real>
    requires t.entryRow < |c.day| && t.exitRow < |c.hour|
  {
    var day := c.day[t.entryRow];
    byDay[day := (if day in byDay then byDay[day] else 0.0) + (t.rawPips - CostOf(t, costPips, c))]
  }

  lemma {:induction false} DaysStep(trades: seq<Trade>, i: nat, c: Calendar)
    requires Covered(trades, c) && i < |trades|
    ensures Days(trades, i + 1, c) == Days(trades, i, c) + {c.day[trades[i].entryRow]}
  {
  }

  lemma {:induction false} DayNetStep(
    byDay: map<string, real>, trades: seq<Trade>, i: nat, costPips: Option<real>, c: Calendar, d: string)
    requires Covered(trades, c) && i < |trades| && NetsByDay(byDay, trades, i, costPips, c)
    requires d in Credited(byDay, trades[i], costPips, c)
    ensures Credited(byDay, trades[i], costPips, c)[d] == Net(trades, i + 1, Some(d), costPips, c)
  {
    if d !in byDay {
      NoTradesOnDay(trades, i, d, costPips, c);
    }
  }

  lemma {:induction false} NetsByDayStep(
    byDay: map<string, real>, trades: seq<Trade>, i: nat, costPips: Option<real>, c: Calendar)
    requires Covered(trades, c) && i < |trades| && NetsByDay(byDay, trades, i, costPips, c)
    ensures NetsByDay(Credited(byDay, trades[i], costPips, c), trades, i + 1, costPips, c)
  {
    var after := Credited(byDay, trades[i], costPips, c);
    DaysStep(trades, i, c);
    SumOfUpdate(byDay, c.day[trades[i].entryRow], after[c.day[trades[i].entryRow]]);
    forall d | d in after
      ensures after[d] == Net(trades, i + 1, Some(d), costPips, c)
    {
      DayNetStep(byDay, trades, i, costPips, c, d);
    }
  }

  /** Netting by day splits the total: each day holds its own trades' net, and the days add up to all of it. */
  method NetPipsByDay(trades: seq<Trade>, c: Calendar, costPips: Option<real>) returns (byDay: map<string, real>)
    requires Covered(trades, c)
    ensures byDay.Keys == Days(trades, |trades|, c)
    ensures forall d :: d in byDay ==> byDay[d] == Net(trades, |trades|, Some(d), costPips, c)
    ensures SumValues(byDay) == Total(trades, costPips, c)
  {
    byDay := map[];
    for i := 0 to |trades|
      invariant NetsByDay(byDay, trades, i, costPips, c)
    {
      NetsByDayStep(byDay, trades, i, costPips, c);
      byDay := Credited(byDay, trades[i], costPips, c);
    }
  }

  /**
    What one trade nets: its pips less the fixed cost or, under C5, 1.5 pips when it exits from 21 to 23 or 5 to 8
    o'clock and 1 pip otherwise, on the day it was entered.
   */
  lemma {:induction false} NetOfOne(t: Trade, day: Option<string>, costPips: Option<real>, c: Calendar)
    requires Covered([t], c) && t.entryRow < |c.day| && t.exitRow < |c.hour|
    ensures Net([t], 1, day, costPips, c) ==
      if day.Some? && day.value != c.day[t.entryRow] then 0.0
      else if costPips.Some? then t.rawPips - costPips.value
      else if 21 <= c.hour[t.exitRow] <= 23 || 5 <= c.hour[t.exitRow] <= 8 then t.rawPips - 1.5
      else t.rawPips - 1.0
  {
    assert Net([t], 0, day, costPips, c) == 0.0;
  }

  lemma {:induction false} NetOfPrefix(
    a: seq<Trade>, b: seq<Trade>, n: nat, day: Option<string>, costPips: Option<real>, c: Calendar)
    requires Covered(a, c) && Covered(a + b, c) && n <= |a|
    ensures Net(a + b, n, day, costPips, c) == Net(a, n, day, costPips, c)
  {
    if n > 0 {
      NetOfPrefix(a, b, n - 1, day, costPips, c);
      assert (a + b)[n - 1] == a[n - 1];
    }
  }

  /** Nets add up: with `NetOfOne`, this is all there is to the net of a list, of a day or of all days. */
  lemma {:induction false} NetsAdd(
    a: seq<Trade>, b: seq<Trade>, n: nat, day: Option<string>, costPips: Option<real>, c: Calendar)
    requires Covered(a, c) && Covered(b, c) && Covered(a + b, c) && n <= |b|
    ensures Net(a + b, |a| + n, day, costPips, c) == Net(a, |a|, day, costPips, c) + Net(b, n, day, costPips, c)
  {
    if n == 0 {
      NetOfPrefix(a, b, |a|, day, costPips, c);
    } else {
      NetsAdd(a, b, n - 1, day, costPips, c);
      assert (a + b)[|a| + n - 1] == b[n - 1];
    }
  }

  // ----- stress-hour cost

  function StressExits(trades: seq<Trade>, n: nat, c: Calendar): nat
    requires Covered(trades, c) && n <= |trades|
  {
    if n == 0 then 0
    else StressExits(trades, n - 1, c) + if c.hour[trades[n - 1].exitRow] in C5_STRESS_HOURS_JST then 1 else 0
  }

  lemma {:induction false} StressNet(trades: seq<Trade>, n: nat, c: Calendar)
    requires Covered(trades, c) && n <= |trades|
    ensures Net(trades, n, None, None, c) ==
      Net(trades, n, None, Some(C1B), c) - C5_EXTRA_PIPS * StressExits(trades, n, c) as real
    ensures Net(trades, n, None, Some(C2), c) <= Net(trades, n, None, None, c)
  {
    if n > 0 {
      StressNet(trades, n - 1, c);
    }
  }

  /** C5 costs exactly half a pip per stress-hour exit over C1b, so its net lies between C2's and C1b's. */
  lemma {:induction false} StressNetIsBetween(trades: seq<Trade>, c: Calendar)
    requires Covered(trades, c)
    ensures Total(trades, Some(C2), c) <= Total(trades, None, c) <= Total(trades, Some(C1B), c)
    ensures Total(trades, None, c) ==
      Total(trades, Some(C1B), c) - C5_EXTRA_PIPS * StressExits(trades, |trades|, c) as real
  {
    StressNet(trades, |trades|, c);
  }

  // ----- durability

  function SumRaw(trades: seq<Trade>, n: nat): real
    requires n <= |trades|
  {
    if n == 0 then 0.0 else SumRaw(trades, n - 1) + trades[n - 1].rawPips
  }

  /** The mean raw pips: the round-trip cost at which the trades net nothing. */
  function BreakEvenCostPips(trades: seq<Trade>): Option<real> {
    if trades == [] then None else Some(SumRaw(trades, |trades|) / |trades| as real)
  }

  datatype Durability = Reject | Fragile | Robust

  function CostDurability(netByCost: map<string, real>, lowId: string, highId: string): Durability
    requires lowId in netByCost && highId in netByCost
  {
    if netByCost[lowId] <= 0.0 then Reject
    else if netByCost[highId] > 0.0 then Robust
    else Fragile
  }

  lemma {:induction false} NetAtFixedCost(trades: seq<Trade>, n: nat, cost: real, c: Calendar)
    requires Covered(trades, c) && n <= |trades|
    ensures Net(trades, n, None, Some(cost), c) == SumRaw(trades, n) - n as real * cost
  {
    if n > 0 {
      NetAtFixedCost(trades, n - 1, cost, c);
      assert n as real * cost == (n - 1) as real * cost + cost;
    }
  }

  lemma {:induction false} ProductSign(x: real, n: real)
    requires n > 0.0
    ensures x * n > 0.0 <==> x > 0.0
    ensures x * n == 0.0 <==> x == 0.0
  {
    if x < 0.0 {
      assert -x * n > 0.0;
    }
  }

  lemma {:induction false} NetSignIsBreakEven(trades: seq<Trade>, cost: real, c: Calendar)
    requires Covered(trades, c) && trades != []
    ensures Total(trades, Some(cost), c) > 0.0 <==> BreakEvenCostPips(trades).value > cost
    ensures Total(trades, Some(cost), c) == 0.0 <==> BreakEvenCostPips(trades).value == cost
  {
    NetAtFixedCost(trades, |trades|, cost, c);
    var n, mean := |trades| as real, BreakEvenCostPips(trades).value;
    assert mean * n == SumRaw(trades, |trades|);
    assert Total(trades, Some(cost), c) == (mean - cost) * n;
    ProductSign(mean - cost, n);
  }

  /** Durability compares the break-even cost with the two models; a list without trades is rejected. */
  lemma {:induction false} DurabilityIsBreakEven(
    trades: seq<Trade>, c: Calendar, netByCost: map<string, real>, lowId: string, low: real, highId: string, high: real)
    requires Covered(trades, c) && low <= high && lowId in netByCost && highId in netByCost
    requires netByCost[lowId] == Total(trades, Some(low), c) && netByCost[highId] == Total(trades, Some(high), c)
    ensures CostDurability(netByCost, lowId, highId) ==
      match BreakEvenCostPips(trades)
      case None => Reject
      case Some(breakEven) => if breakEven <= low then Reject else if breakEven > high then Robust else Fragile
  {
    if trades != [] {
      NetSignIsBreakEven(trades, low, c);
      NetSignIsBreakEven(trades, high, c);
    }
  }
}
