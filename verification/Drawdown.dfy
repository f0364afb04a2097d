/** The running-maximum drawdown of an equity curve. */
module Drawdown {

  /** Cumulative sums. */
  function Equity(pips: seq<real>, yenPerPip: real, n: nat): real
    requires n <= |pips|
  {
    if n == 0 then 0.0 else Equity(pips, yenPerPip, n - 1) + pips[n - 1] * yenPerPip
  }

  /** The highest equity after any of the first `n` trades. */
  function Peak(pips: seq<real>, yenPerPip: real, n: nat): real
    requires 0 < n <= |pips|
  {
    var now := Equity(pips, yenPerPip, n);
    if n == 1 then now
    else
      var before := Peak(pips, yenPerPip, n - 1);
      if before < now then now else before
  }

  /** The lowest difference between equity and its running maximum. */
  function MaxDrawdown(pips: seq<real>, yenPerPip: real, n: nat): real
    requires 0 < n <= |pips|
  {
    var here := Equity(pips, yenPerPip, n) - Peak(pips, yenPerPip, n);
    if n == 1 then here
    else
      var before := MaxDrawdown(pips, yenPerPip, n - 1);
      if here < before then here else before
  }

  lemma {:induction false} PeakIsHighest(pips: seq<real>, yenPerPip: real, n: nat)
    requires 0 < n <= |pips|
    ensures forall i :: 1 <= i <= n ==> Equity(pips, yenPerPip, i) <= Peak(pips, yenPerPip, n)
    ensures exists i :: 1 <= i <= n && Equity(pips, yenPerPip, i) == Peak(pips, yenPerPip, n)
  {
    if n > 1 {
      PeakIsHighest(pips, yenPerPip, n - 1);
    }
    assert Equity(pips, yenPerPip, n) <= Peak(pips, yenPerPip, n);
  }

  /** What the trades from `i` up to `j` earned, in yen. */
  function Earned(pips: seq<real>, yenPerPip: real, i: nat, j: nat): real
    requires i <= j <= |pips|
    decreases j - i
  {
    if i == j then 0.0 else pips[i] * yenPerPip + Earned(pips, yenPerPip, i + 1, j)
  }

  /** From the `i`-th trade to the `j`-th the equity moves by what the trades between them earned. */
  lemma {:induction false} EquityMoves(pips: seq<real>, yenPerPip: real, i: nat, j: nat)
    requires i <= j <= |pips|
    ensures Equity(pips, yenPerPip, j) - Equity(pips, yenPerPip, i) == Earned(pips, yenPerPip, i, j)
    decreases j - i
  {
    if i < j {
      EquityMoves(pips, yenPerPip, i + 1, j);
    }
  }

  /** Trade `n` adds its own fall from the peak, and the lower of the two stays. */
  lemma {:induction false} NextFall(pips: seq<real>, yenPerPip: real, n: nat)
    requires 1 < n <= |pips|
    ensures var here := Equity(pips, yenPerPip, n) - Peak(pips, yenPerPip, n);
      var before := MaxDrawdown(pips, yenPerPip, n - 1);
      MaxDrawdown(pips, yenPerPip, n) == if here < before then here else before
  {
  }

  lemma {:induction false} NoDeeperFall(pips: seq<real>, yenPerPip: real, n: nat, i: nat, j: nat)
    requires 1 <= i <= j <= n <= |pips|
    ensures MaxDrawdown(pips, yenPerPip, n) <= Equity(pips, yenPerPip, j) - Equity(pips, yenPerPip, i)
    decreases n
  {
    if j < n {
      NoDeeperFall(pips, yenPerPip, n - 1, i, j);
      NextFall(pips, yenPerPip, n);
    } else {
      PeakIsHighest(pips, yenPerPip, n);
      FallFromPeak(pips, yenPerPip, n);
    }
  }

  lemma {:induction false} FallFromPeak(pips: seq<real>, yenPerPip: real, n: nat)
    requires 0 < n <= |pips|
    ensures MaxDrawdown(pips, yenPerPip, n) <= Equity(pips, yenPerPip, n) - Peak(pips, yenPerPip, n)
  {
  }

  lemma {:induction false} DeepestFall(pips: seq<real>, yenPerPip: real, n: nat) returns (i: nat, j: nat)
    requires 0 < n <= |pips|
    ensures 1 <= i <= j <= n
    ensures MaxDrawdown(pips, yenPerPip, n) == Equity(pips, yenPerPip, j) - Equity(pips, yenPerPip, i)
  {
    var here := Equity(pips, yenPerPip, n) - Peak(pips, yenPerPip, n);
    if n > 1 && MaxDrawdown(pips, yenPerPip, n) != here {
      NextFall(pips, yenPerPip, n);
      i, j := DeepestFall(pips, yenPerPip, n - 1);
    } else {
      PeakIsHighest(pips, yenPerPip, n);
      i :| 1 <= i <= n && Equity(pips, yenPerPip, i) == Peak(pips, yenPerPip, n);
      j := n;
    }
  }

  /**
    The drawdown is the least, over the stretches that follow some trade, of what the stretch earned in yen --
    the empty stretch included, the first trade's own loss not -- and some stretch attains it.
   */
  lemma {:induction false} DrawdownIsWorstFall(pips: seq<real>, yenPerPip: real, n: nat)
    requires 0 < n <= |pips|
    ensures forall i, j :: 1 <= i <= j <= n ==>
      MaxDrawdown(pips, yenPerPip, n) <= Earned(pips, yenPerPip, i, j)
    ensures exists i, j :: (1 <= i <= j <= n
      && MaxDrawdown(pips, yenPerPip, n) == Earned(pips, yenPerPip, i, j))
  {
    forall i, j | 1 <= i <= j <= n
      ensures MaxDrawdown(pips, yenPerPip, n) <= Earned(pips, yenPerPip, i, j)
    {
      NoDeeperFall(pips, yenPerPip, n, i, j);
      EquityMoves(pips, yenPerPip, i, j);
    }
    var i, j := DeepestFall(pips, yenPerPip, n);
    EquityMoves(pips, yenPerPip, i, j);
  }
}
