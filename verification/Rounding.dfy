/** Decimal rounding as Python's `round` does it: to nearest, ties to even. */
module Rounding {

  const TICK_SIZE: real := 0.001

  /** The integer nearest to `x`; a tie goes to the even neighbour. */
  function RoundHalfEven(x: real): (n: int)
    ensures -0.5 <= x - n as real <= 0.5
    ensures x - n as real == 0.5 || x - n as real == -0.5 ==> n % 2 == 0
  {
    var below := x.Floor;
    var rest := x - below as real;
    if rest < 0.5 then below
    else if rest > 0.5 then below + 1
    else if below % 2 == 0 then below
    else below + 1
  }

  /** Round an order price to the tick grid (`_quantize`). */
  function Quantize(price: real): real {
    RoundHalfEven(price / TICK_SIZE) as real * TICK_SIZE
  }

  /** `round(x, 4)` */
  function Round4(x: real): real {
    RoundHalfEven(x * 10000.0) as real / 10000.0
  }

  /** `round(x, 3)` */
  function Round3(x: real): real {
    RoundHalfEven(x * 1000.0) as real / 1000.0
  }

  /** `round(x, 2)` */
  function Round2(x: real): real {
    RoundHalfEven(x * 100.0) as real / 100.0
  }

  /** Nearest with ties to even determines the result. */
  lemma {:induction false} RoundUnique(x: real, n: int)
    requires -0.5 <= x - n as real <= 0.5
    requires x - n as real == 0.5 || x - n as real == -0.5 ==> n % 2 == 0
    ensures n == RoundHalfEven(x)
  {
    var m := RoundHalfEven(x);
    assert -1.0 <= n as real - m as real <= 1.0;
  }

  lemma {:induction false} RoundMonotone(x: real, y: real)
    requires x <= y
    ensures RoundHalfEven(x) <= RoundHalfEven(y)
  {
    assert x.Floor <= y.Floor;
  }

  lemma {:induction false} RoundOdd(x: real)
    ensures RoundHalfEven(-x) == -RoundHalfEven(x)
  {
    RoundUnique(-x, -RoundHalfEven(x));
  }

  lemma {:induction false} QuantizeMonotone(p: real, q: real)
    requires p <= q
    ensures Quantize(p) <= Quantize(q)
  {
    RoundMonotone(p / TICK_SIZE, q / TICK_SIZE);
  }

  /** Quantising is monotone, odd, lands on whole thousandths within half a one, and keeps whole thousandths. */
  lemma {:induction false} QuantizeLaws(p: real, q: real, ticks: int)
    ensures p <= q ==> Quantize(p) <= Quantize(q)
    ensures Quantize(-p) == -Quantize(p)
    ensures -0.0005 <= Quantize(p) - p <= 0.0005
    ensures Quantize(ticks as real * 0.001) == ticks as real * 0.001
    ensures (Quantize(p) * 1000.0).Floor as real == Quantize(p) * 1000.0
  {
    if p <= q {
      QuantizeMonotone(p, q);
    }
    RoundOdd(p / TICK_SIZE);
    assert (-p) / TICK_SIZE == -(p / TICK_SIZE);
    assert ticks as real * TICK_SIZE / TICK_SIZE == ticks as real;
    RoundUnique(ticks as real, ticks);
  }

  lemma {:induction false} ScaledBack(n: int, unit: real)
    requires unit != 0.0
    ensures n as real / unit * unit == n as real
  {
  }

  lemma {:induction false} OfWhole(n: int, unit: real)
    requires unit > 0.0
    ensures RoundHalfEven(n as real / unit * unit) == n
  {
    ScaledBack(n, unit);
    RoundUnique(n as real, n);
  }

  /** Rounding to decimals moves by at most half a unit of the last place, onto whole units, and keeps whole units. */
  lemma {:induction false} DecimalLaws(x: real, n: int)
    ensures -0.00005 <= Round4(x) - x <= 0.00005
    ensures -0.0005 <= Round3(x) - x <= 0.0005
    ensures -0.005 <= Round2(x) - x <= 0.005
    ensures Round4(n as real / 10000.0) == n as real / 10000.0
    ensures Round3(n as real / 1000.0) == n as real / 1000.0
    ensures Round2(n as real / 100.0) == n as real / 100.0
    ensures (Round4(x) * 10000.0).Floor as real == Round4(x) * 10000.0
    ensures (Round3(x) * 1000.0).Floor as real == Round3(x) * 1000.0
    ensures (Round2(x) * 100.0).Floor as real == Round2(x) * 100.0
  {
    OfWhole(n, 10000.0);
    OfWhole(n, 1000.0);
    OfWhole(n, 100.0);
    ScaledBack(RoundHalfEven(x * 10000.0), 10000.0);
    ScaledBack(RoundHalfEven(x * 1000.0), 1000.0);
    ScaledBack(RoundHalfEven(x * 100.0), 100.0);
  }

  lemma {:induction false} Round4Monotone(x: real, y: real)
    requires x <= y
    ensures Round4(x) <= Round4(y)
  {
    RoundMonotone(x * 10000.0, y * 10000.0);
  }

  lemma {:induction false} Round2Monotone(x: real, y: real)
    requires x <= y
    ensures Round2(x) <= Round2(y)
  {
    RoundMonotone(x * 100.0, y * 100.0);
  }
}
