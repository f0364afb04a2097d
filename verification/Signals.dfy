/** Which M1 rows carry a trading signal, and why the simulators may rely on them. */
module Signals {
  import opened Wrappers
  import opened ExitEngine
  import Simulators
  import SimulatorLaws

  const BUY_THRESHOLD: real := 0.58
  const SELL_THRESHOLD: real := 0.42
  const MINUTES_PER_DAY: int := 24 * 60

  /** Hour of day in Japan (UTC+9) of an epoch minute. */
  function JstHour(minute: int): int {
    (minute / 60 % 24 + 9) % 24
  }

  /** Weekday in Japan, Monday = 0; the epoch began on a Thursday. */
  function JstWeekday(minute: int): int {
    ((minute + 9 * 60) / MINUTES_PER_DAY + 3) % 7
  }

  predicate Eligible(minute: int, probability: Option<real>, atr: Option<real>) {
    && minute % 60 % 30 == 0
    && probability.Some?
    && atr.Some?
    && JstHour(minute) !in {5, 6, 7, 8}
    && JstWeekday(minute) <= 4
  }

  /** The side a row signals, if any; `None` in place of a probability or an ATR is a NaN. */
  function SideAt(minute: int, probability: Option<real>, atr: Option<real>): Option<Side> {
    if !Eligible(minute, probability, atr) then None
    else if probability.value >= BUY_THRESHOLD then Some(Buy)
    else if probability.value <= SELL_THRESHOLD then Some(Sell)
    else None
  }

  /** A quotient and a remainder are told by any decomposition. */
  lemma {:induction false} QuotientIs(x: int, d: int, q: int, r: int)
    requires d in {7, 24, 60, 1440, 10080} && x == d * q + r && 0 <= r < d
    ensures x / d == q && x % d == r
  {
  }

  /** The UTC hour moved by nine is the hour of the Japanese wall clock that also decides the weekday. */
  lemma {:induction false} JstClock(minute: int)
    ensures JstHour(minute) == (minute + 9 * 60) % MINUTES_PER_DAY / 60
  {
    var day, ofDay := minute / 1440, minute % 1440;
    var h, m := ofDay / 60, ofDay % 60;
    assert minute == 1440 * day + 60 * h + m && 0 <= h < 24 && 0 <= m < 60;
    var carry := if h + 9 < 24 then 0 else 1;
    var h' := h + 9 - 24 * carry;
    QuotientIs(minute, 60, 24 * day + h, m);
    QuotientIs(24 * day + h, 24, day, h);
    QuotientIs(h + 9, 24, carry, h');
    QuotientIs(minute + 540, 1440, day + carry, 60 * h' + m);
    QuotientIs(60 * h' + m, 60, h', m);
  }

  /**
    A full or half hour from 09:00 to 04:59 on a Monday to a Friday in Japan, told from the minutes since
    00:00 on Thursday 1 January 1970, UTC: nine hours on, that is minute 540 of the fourth day of a week.
   */
  predicate OnTradingHalfHour(minute: int) {
    var ofWeek := (minute + 540 + 3 * 1440) % 10080;
    minute % 30 == 0 && ofWeek < 5 * 1440 && (ofWeek % 1440 < 5 * 60 || ofWeek % 1440 >= 9 * 60)
  }

  /** The clock on the wall and the minute of the week agree on the rows a signal may fall on. */
  lemma {:induction false} ClockIsWeekMinute(minute: int)
    ensures OnTradingHalfHour(minute) <==>
      minute % 60 % 30 == 0 && JstHour(minute) !in {5, 6, 7, 8} && JstWeekday(minute) <= 4
  {
    JstClock(minute);
    var t := minute + 540;
    var day, m := t / 1440, t % 1440;
    var w, e := (day + 3) / 7, (day + 3) % 7;
    QuotientIs(t + 3 * 1440, 10080, w, 1440 * e + m);
    QuotientIs(1440 * e + m, 1440, e, m);
    HalfHourOfHour(minute);
    assert JstWeekday(minute) == e && JstHour(minute) == m / 60;
  }

  lemma {:induction false} HalfHourOfHour(minute: int)
    ensures minute % 60 % 30 == minute % 30
  {
  }

  /** The rows that signal are exactly those listed, in order, ready for every simulator. */
  method SignalRows(minutes: seq<int>, probabilities: seq<Option<real>>, atr: seq<Option<real>>)
    returns (rows: seq<Signal>)
    requires |minutes| == |probabilities| == |atr|
    ensures forall r: nat :: r < |minutes| ==>
      (Signal(r, Buy) in rows <==>
        && OnTradingHalfHour(minutes[r]) && atr[r].Some?
        && probabilities[r].Some? && probabilities[r].value >= 0.58)
    ensures forall r: nat :: r < |minutes| ==>
      (Signal(r, Sell) in rows <==>
        && OnTradingHalfHour(minutes[r]) && atr[r].Some?
        && probabilities[r].Some? && probabilities[r].value <= 0.42)
    ensures SimulatorLaws.RowsIncrease(rows)
    ensures Simulators.AtrKnown(rows, atr, |minutes|)
  {
    rows := [];
    for r := 0 to |minutes|
      invariant forall i :: 0 <= i < |rows| ==> rows[i].row < r
      invariant SimulatorLaws.RowsIncrease(rows)
      invariant Simulators.AtrKnown(rows, atr, |minutes|)
      invariant forall k: nat, side :: k < r ==>
        (Signal(k, side) in rows <==> SideAt(minutes[k], probabilities[k], atr[k]) == Some(side))
    {
      ghost var listed := rows;
      if Eligible(minutes[r], probabilities[r], atr[r]) {
        var p := probabilities[r].value;
        if p >= BUY_THRESHOLD {
          rows := rows + [Signal(r, Buy)];
        } else if p <= SELL_THRESHOLD {
          rows := rows + [Signal(r, Sell)];
        }
      }
    }
    forall r: nat | r < |minutes|
      ensures Eligible(minutes[r], probabilities[r], atr[r]) <==>
        OnTradingHalfHour(minutes[r]) && probabilities[r].Some? && atr[r].Some?
    {
      ClockIsWeekMinute(minutes[r]);
    }
  }
}
