/** The four backtest simulators, each proved to produce the greedy selection of its attempts. */
module Simulators {
  import opened Wrappers
  import opened ExitEngine
  import Rounding

  const SPREAD_PIPS: real := 0.5
  const FIXED_ATR_MULTIPLIER: real := 1.0
  const COMMON_R_MIN_STOP_PIPS: real := 3.0
  const COMMON_R_MAX_STOP_PIPS: real := 20.0
  const MIN_SL_R: real := 0.8
  const MAX_SL_R: real := 1.2
  const COMMON_R_FLOOR_PIPS: real := COMMON_R_MIN_STOP_PIPS / MIN_SL_R
  const COMMON_R_CAP_PIPS: real := COMMON_R_MAX_STOP_PIPS / MAX_SL_R
  const A1_MAX_HOLD_MINUTES: int := 30

  datatype ExitRule = ExitRule(
    stopAtrMultiple: Option<real>, takeProfitRMultiple: Option<real>, timeoutMinutes: int)

  datatype A1Candidate = A1Candidate(slR: real, tpR: real)

  /** The nine pre-registered grid candidates. */
  predicate Registered(c: A1Candidate) {
    c.slR in {0.8, 1.0, 1.2} && c.tpR in {1.0, 1.5, 2.0}
  }

  datatype RuleTrade = RuleTrade(entryRow: nat, netPips: real, holdMinutes: int)

  datatype CommonR = CommonR(pips: real, floorClamped: bool, capClamped: bool)

  // ----- what every simulator is given

  predicate Framed(faces: PriceFaces, minutes: seq<int>) {
    faces.Shaped() && |minutes| == |faces.bidClose|
  }

  predicate InRange(signals: seq<Signal>, total: nat) {
    forall i :: 0 <= i < |signals| ==> signals[i].row < total
  }

  /** Every signal row carries a finite ATR, as `_signal_rows` guarantees. */
  predicate AtrKnown(signals: seq<Signal>, atr: seq<Option<real>>, total: nat) {
    |atr| == total && forall i :: 0 <= i < |signals| ==> signals[i].row < total && atr[signals[i].row].Some?
  }

  function BidFaces(close: seq<real>, high: seq<real>, low: seq<real>): PriceFaces {
    PriceFaces(LegacyBidOnly, close, high, low, [])
  }

  // ----- the attempt each simulator makes at one signal

  /** Stop and target prices of a rule; a rule without a stop has neither. */
  function RuleLevels(rule: ExitRule, side: Side, entry: real, atr: Option<real>): Option<(real, real)>
    requires rule.stopAtrMultiple.Some? ==> rule.takeProfitRMultiple.Some? && atr.Some?
  {
    if rule.stopAtrMultiple.None? then None
    else
      var distance := rule.stopAtrMultiple.value * atr.value;
      Some((entry - Signed(side, distance), entry + Signed(side, distance * rule.takeProfitRMultiple.value)))
  }

  function LevelBarriers(side: Side, entry: real, levels: Option<(real, real)>): Barriers {
    if levels.None? then NoBarriers else BarriersAt(side, entry, levels.value.0, levels.value.1)
  }

  function RuleBarriers(rule: ExitRule, side: Side, entry: real, atr: Option<real>): Barriers
    requires rule.stopAtrMultiple.Some? ==> rule.takeProfitRMultiple.Some? && atr.Some?
  {
    LevelBarriers(side, entry, RuleLevels(rule, side, entry, atr))
  }

  lemma {:induction false} FirstExitInRange(path: Path, b: Barriers, deadline: int, k: nat)
    requires path.Shaped() && 0 < k <= |path.minutes|
    ensures var exit := FirstExit(path, b, deadline, k);
      exit.Some? ==> k - 1 <= exit.value.row < |path.minutes|
    decreases |path.minutes| - k
  {
    if k < |path.minutes| && !Ends(path, b, deadline, k) {
      FirstExitInRange(path, b, deadline, k + 1);
    }
  }

  function RuleExit(rule: ExitRule, faces: PriceFaces, atr: Option<real>, minutes: seq<int>, s: Signal): (exit: Option<Exit>)
    requires Framed(faces, minutes) && s.row < |minutes|
    requires rule.stopAtrMultiple.Some? ==> rule.takeProfitRMultiple.Some? && atr.Some?
    ensures exit.Some? ==> s.row <= exit.value.row < |minutes|
  {
    var entry := faces.Entry(s.row, s.side);
    var path := PathOf(faces, minutes, s.side, entry);
    var b := RuleBarriers(rule, s.side, entry, atr);
    FirstExitInRange(path, b, minutes[s.row] + rule.timeoutMinutes, s.row + 1);
    FirstExit(path, b, minutes[s.row] + rule.timeoutMinutes, s.row + 1)
  }

  function RuleAttempt(
    rule: ExitRule, faces: PriceFaces, atr: seq<Option<real>>, minutes: seq<int>, s: Signal): (attempt: Option<Trade>)
    requires Framed(faces, minutes) && s.row < |minutes| == |atr|
    requires rule.stopAtrMultiple.Some? ==> rule.takeProfitRMultiple.Some? && atr[s.row].Some?
    ensures attempt.Some? ==> attempt.value.entryRow == s.row
  {
    Settle(s, RuleExit(rule, faces, atr[s.row], minutes, s), minutes, false, false)
  }

  /** common_R in pips: one ATR, held between the shared floor and cap. */
  function CommonRPips(atr: real): CommonR {
    var rawPips := FIXED_ATR_MULTIPLIER * (atr / PIP);
    var floored := if rawPips < COMMON_R_FLOOR_PIPS then COMMON_R_FLOOR_PIPS else rawPips;
    CommonR(
      if floored > COMMON_R_CAP_PIPS then COMMON_R_CAP_PIPS else floored,
      rawPips < COMMON_R_FLOOR_PIPS,
      rawPips > COMMON_R_CAP_PIPS)
  }

  function SlDistance(c: A1Candidate, atr: real): real {
    c.slR * CommonRPips(atr).pips * PIP
  }

  function TpDistance(c: A1Candidate, atr: real): real {
    c.tpR * CommonRPips(atr).pips * PIP
  }

  /** Barriers at order prices: both levels rounded to the tick grid. */
  function QuantizedBarriers(side: Side, entry: real, sl: real, tp: real): Barriers {
    BarriersAt(side, entry, Rounding.Quantize(entry - Signed(side, sl)), Rounding.Quantize(entry + Signed(side, tp)))
  }

  function A1Barriers(c: A1Candidate, side: Side, entry: real, atr: real): Barriers {
    QuantizedBarriers(side, entry, SlDistance(c, atr), TpDistance(c, atr))
  }

  function A1Exit(c: A1Candidate, faces: PriceFaces, atr: real, minutes: seq<int>, s: Signal): (exit: Option<Exit>)
    requires Framed(faces, minutes) && s.row < |minutes|
    ensures exit.Some? ==> s.row <= exit.value.row < |minutes|
  {
    var entry := faces.Entry(s.row, s.side);
    var path := PathOf(faces, minutes, s.side, entry);
    var b := A1Barriers(c, s.side, entry, atr);
    FirstExitInRange(path, b, minutes[s.row] + A1_MAX_HOLD_MINUTES, s.row + 1);
    FirstExit(path, b, minutes[s.row] + A1_MAX_HOLD_MINUTES, s.row + 1)
  }

  function A1Attempt(
    c: A1Candidate, faces: PriceFaces, atr: seq<Option<real>>, minutes: seq<int>, s: Signal): (attempt: Option<Trade>)
    requires Framed(faces, minutes) && s.row < |minutes| == |atr| && atr[s.row].Some?
    ensures attempt.Some? ==> attempt.value.entryRow == s.row
  {
    var r := CommonRPips(atr[s.row].value);
    Settle(s, A1Exit(c, faces, atr[s.row].value, minutes, s), minutes, r.floorClamped, r.capClamped)
  }

  function ReplayBarriers(side: Side, entry: real, atr: real): Barriers {
    var distance := 1.5 * atr;
    BarriersAt(side, entry, entry - Signed(side, distance), entry + Signed(side, distance * 1.5))
  }

  function ReplayExit(faces: PriceFaces, atr: real, minutes: seq<int>, timeout: int, s: Signal): (exit: Option<Exit>)
    requires Framed(faces, minutes) && s.row < |minutes|
    ensures exit.Some? ==> s.row <= exit.value.row < |minutes|
  {
    var entry := faces.Entry(s.row, s.side);
    var path := PathOf(faces, minutes, s.side, entry);
    var b := ReplayBarriers(s.side, entry, atr);
    FirstExitInRange(path, b, minutes[s.row] + timeout, s.row + 1);
    FirstExit(path, b, minutes[s.row] + timeout, s.row + 1)
  }

  function ReplayAttempt(
    faces: PriceFaces, atr: seq<Option<real>>, minutes: seq<int>, timeout: int, s: Signal): (attempt: Option<Trade>)
    requires Framed(faces, minutes) && s.row < |minutes| == |atr| && atr[s.row].Some?
    ensures attempt.Some? ==> attempt.value.entryRow == s.row
  {
    Settle(s, ReplayExit(faces, atr[s.row].value, minutes, timeout, s), minutes, false, false)
  }

  /** The last row held by a bare time exit: the bar before the deadline passes, or the last bar of the data. */
  function LastHeld(minutes: seq<int>, deadline: int, k: nat): (row: nat)
    requires 0 < k <= |minutes|
    ensures k - 1 <= row < |minutes|
    decreases |minutes| - k
  {
    if k == |minutes| || minutes[k] > deadline then k - 1
    else LastHeld(minutes, deadline, k + 1)
  }

  function A0Attempt(faces: PriceFaces, minutes: seq<int>, s: Signal): (attempt: Option<Trade>)
    requires Framed(faces, minutes) && s.row < |minutes|
    ensures attempt.Some? ==> attempt.value.entryRow == s.row
  {
    var row := LastHeld(minutes, minutes[s.row] + A1_MAX_HOLD_MINUTES, s.row + 1);
    if row == s.row then None
    else
      Settle(s, Some(Exit(row, Signed(s.side, faces.ExitClose(row, s.side) - faces.Entry(s.row, s.side)))),
        minutes, false, false)
  }

  // ----- the attempts of a whole signal list

  function RuleAttempts(
    rule: ExitRule, faces: PriceFaces, atr: seq<Option<real>>, minutes: seq<int>, signals: seq<Signal>)
    : (attempts: seq<Option<Trade>>)
    requires Framed(faces, minutes) && |atr| == |minutes| && InRange(signals, |minutes|)
    requires rule.stopAtrMultiple.Some? ==> rule.takeProfitRMultiple.Some? && AtrKnown(signals, atr, |minutes|)
  {
    seq(|signals|, i requires 0 <= i < |signals| => RuleAttempt(rule, faces, atr, minutes, signals[i]))
  }

  function A1Attempts(
    c: A1Candidate, faces: PriceFaces, atr: seq<Option<real>>, minutes: seq<int>, signals: seq<Signal>)
    : (attempts: seq<Option<Trade>>)
    requires Framed(faces, minutes) && AtrKnown(signals, atr, |minutes|)
  {
    seq(|signals|, i requires 0 <= i < |signals| => A1Attempt(c, faces, atr, minutes, signals[i]))
  }

  function ReplayAttempts(
    faces: PriceFaces, atr: seq<Option<real>>, minutes: seq<int>, timeout: int, signals: seq<Signal>)
    : (attempts: seq<Option<Trade>>)
    requires Framed(faces, minutes) && AtrKnown(signals, atr, |minutes|)
  {
    seq(|signals|, i requires 0 <= i < |signals| => ReplayAttempt(faces, atr, minutes, timeout, signals[i]))
  }

  function A0Attempts(faces: PriceFaces, minutes: seq<int>, signals: seq<Signal>): (attempts: seq<Option<Trade>>)
    requires Framed(faces, minutes) && InRange(signals, |minutes|)
  {
    seq(|signals|, i requires 0 <= i < |signals| => A0Attempt(faces, minutes, signals[i]))
  }

  /** What the reference simulator reports of each trade, its fixed spread cost taken off. */
  function Report(trades: seq<Trade>): (reports: seq<RuleTrade>)
    ensures |reports| == |trades|
  {
    seq(|trades|, i requires 0 <= i < |trades| =>
      RuleTrade(trades[i].entryRow, trades[i].rawPips - SPREAD_PIPS, trades[i].holdMinutes))
  }

  // ----- the simulators

  /** After `i` signals: what was taken, and what the greedy selection still takes, make up the whole. */
  ghost predicate Drawn(attempts: seq<Option<Trade>>, i: nat, taken: seq<Trade>, busyUntil: int)
    requires i <= |attempts|
  {
    taken + Greedy(attempts[i..], busyUntil) == Greedy(attempts, -1)
  }

  lemma {:induction false} DrawnStart(attempts: seq<Option<Trade>>)
    ensures Drawn(attempts, 0, [], -1)
  {
    assert attempts[0..] == attempts;
  }

  lemma {:induction false} DrawnSkip(attempts: seq<Option<Trade>>, i: nat, taken: seq<Trade>, busyUntil: int)
    requires i < |attempts| && Drawn(attempts, i, taken, busyUntil)
    requires attempts[i].Some? ==> attempts[i].value.entryRow <= busyUntil
    ensures Drawn(attempts, i + 1, taken, busyUntil)
  {
    assert attempts[i..][1..] == attempts[i + 1..];
  }

  lemma {:induction false} DrawnTake(attempts: seq<Option<Trade>>, i: nat, taken: seq<Trade>, busyUntil: int)
    requires i < |attempts| && Drawn(attempts, i, taken, busyUntil)
    requires attempts[i].Some? && attempts[i].value.entryRow > busyUntil
    ensures Drawn(attempts, i + 1, taken + [attempts[i].value], attempts[i].value.exitRow)
  {
    var t := attempts[i].value;
    assert attempts[i..][1..] == attempts[i + 1..];
    assert taken + ([t] + Greedy(attempts[i + 1..], t.exitRow)) == taken + [t] + Greedy(attempts[i + 1..], t.exitRow);
  }

  lemma {:induction false} DrawnEnd(attempts: seq<Option<Trade>>, taken: seq<Trade>, busyUntil: int)
    requires Drawn(attempts, |attempts|, taken, busyUntil)
    ensures taken == Greedy(attempts, -1)
  {
    assert taken + [] == taken;
  }

  /** The reference simulator's bar walk, in which stop and target are optional. */
  method WalkRule(
    close: seq<real>, high: seq<real>, low: seq<real>, minutes: seq<int>, row: nat, side: Side,
    levels: Option<(real, real)>, deadlineMinute: int)
    returns (exitPips: Option<real>, exitRow: nat)
    requires |close| == |high| == |low| == |minutes| && row < |minutes|
    ensures
      var exit := FirstExit(
        PathOf(BidFaces(close, high, low), minutes, side, close[row]),
        LevelBarriers(side, close[row], levels), deadlineMinute, row + 1);
      match exit
      case None => exitPips == None
      case Some(e) => exitPips == Some(e.gain / PIP) && exitRow == e.row < |minutes|
  {
    var entry := close[row];
    ghost var path := PathOf(BidFaces(close, high, low), minutes, side, entry);
    ghost var b := LevelBarriers(side, entry, levels);
    exitPips := None;
    exitRow := row;
    for later := row + 1 to |close|
      invariant exitPips == None
      invariant FirstExit(path, b, deadlineMinute, row + 1) == FirstExit(path, b, deadlineMinute, later)
    {
      if minutes[later] > deadlineMinute {
        exitPips := Some(Signed(side, close[later - 1] - entry) / PIP);
        exitRow := later - 1;
        break;
      }
      if levels.Some? {
        var (stop, target) := levels.value;
        var stopHit := if side.Buy? then low[later] <= stop else high[later] >= stop;
        if stopHit {
          exitPips := Some(Signed(side, stop - entry) / PIP);
          exitRow := later;
          break;
        }
        var targetHit := if side.Buy? then high[later] >= target else low[later] <= target;
        if targetHit {
          exitPips := Some(Signed(side, target - entry) / PIP);
          exitRow := later;
          break;
        }
      }
    }
  }

  /** One signal of the reference simulator, up to the trade it would record. */
  method TryRule(
    rule: ExitRule, s: Signal, close: seq<real>, high: seq<real>, low: seq<real>,
    atr: seq<Option<real>>, minutes: seq<int>)
    returns (trade: Option<Trade>)
    requires |close| == |high| == |low| == |minutes| == |atr| && s.row < |minutes|
    requires rule.stopAtrMultiple.Some? ==> rule.takeProfitRMultiple.Some? && atr[s.row].Some?
    ensures trade == RuleAttempt(rule, BidFaces(close, high, low), atr, minutes, s)
  {
    var levels := RuleLevels(rule, s.side, close[s.row], atr[s.row]);
    var exitPips, exitRow :=
      WalkRule(close, high, low, minutes, s.row, s.side, levels, minutes[s.row] + rule.timeoutMinutes);
    if exitPips.None? {
      return None;
    }
    return Some(Trade(s.row, exitRow, s.side, exitPips.value, minutes[exitRow] - minutes[s.row], false, false));
  }

  method Simulate(
    rule: ExitRule, signals: seq<Signal>, close: seq<real>, high: seq<real>, low: seq<real>,
    atr: seq<Option<real>>, minutes: seq<int>)
    returns (trades: seq<RuleTrade>)
    requires |close| == |high| == |low| == |minutes| == |atr|
    requires InRange(signals, |minutes|)
    requires rule.stopAtrMultiple.Some? ==> rule.takeProfitRMultiple.Some? && AtrKnown(signals, atr, |minutes|)
    ensures trades == Report(Greedy(RuleAttempts(rule, BidFaces(close, high, low), atr, minutes, signals), -1))
  {
    ghost var attempts := RuleAttempts(rule, BidFaces(close, high, low), atr, minutes, signals);
    ghost var taken: seq<Trade> := [];
    trades := [];
    var busyUntil: int := -1;
    DrawnStart(attempts);
    for i := 0 to |signals|
      invariant trades == Report(taken)
      invariant Drawn(attempts, i, taken, busyUntil)
    {
      assert attempts[i] == RuleAttempt(rule, BidFaces(close, high, low), atr, minutes, signals[i]);
      if signals[i].row <= busyUntil {
        DrawnSkip(attempts, i, taken, busyUntil);
        continue;
      }
      var trade := TryRule(rule, signals[i], close, high, low, atr, minutes);
      if trade.None? {
        DrawnSkip(attempts, i, taken, busyUntil);
        continue;
      }
      DrawnTake(attempts, i, taken, busyUntil);
      var t := trade.value;
      ReportAppend(taken, t);
      taken := taken + [t];
      trades := trades + [RuleTrade(t.entryRow, t.rawPips - SPREAD_PIPS, t.holdMinutes)];
      busyUntil := t.exitRow;
    }
    DrawnEnd(attempts, taken, busyUntil);
  }

  lemma {:induction false} ReportAppend(taken: seq<Trade>, t: Trade)
    ensures Report(taken + [t]) == Report(taken) + [RuleTrade(t.entryRow, t.rawPips - SPREAD_PIPS, t.holdMinutes)]
  {
  }

  /** The bar walk shared, line for line, by the A1 and the replay simulators. */
  method WalkBars(
    faces: PriceFaces, minutes: seq<int>, row: nat, side: Side, entry: real, stop: real, target: real,
    deadlineMinute: int)
    returns (exitPips: Option<real>, exitRow: nat)
    requires Framed(faces, minutes) && row < |minutes|
    ensures var exit := FirstExit(
        PathOf(faces, minutes, side, entry), BarriersAt(side, entry, stop, target), deadlineMinute, row + 1);
      match exit
      case None => exitPips == None
      case Some(e) => exitPips == Some(e.gain / PIP) && exitRow == e.row < |minutes|
  {
    ghost var path := PathOf(faces, minutes, side, entry);
    ghost var b := BarriersAt(side, entry, stop, target);
    exitPips := None;
    exitRow := row;
    for later := row + 1 to |faces.bidClose|
      invariant exitPips == None
      invariant FirstExit(path, b, deadlineMinute, row + 1) == FirstExit(path, b, deadlineMinute, later)
    {
      if minutes[later] > deadlineMinute {
        exitPips := Some(Signed(side, faces.ExitClose(later - 1, side) - entry) / PIP);
        exitRow := later - 1;
        break;
      }
      var barHigh := faces.ExitHigh(later, side);
      var barLow := faces.ExitLow(later, side);
      var stopHit := if side.Buy? then barLow <= stop else barHigh >= stop;
      if stopHit {
        exitPips := Some(Signed(side, stop - entry) / PIP);
        exitRow := later;
        break;
      }
      var targetHit := if side.Buy? then barHigh >= target else barLow <= target;
      if targetHit {
        exitPips := Some(Signed(side, target - entry) / PIP);
        exitRow := later;
        break;
      }
    }
  }

  /** One signal of the common_R grid, up to the trade it would record. */
  method TryA1(candidate: A1Candidate, s: Signal, faces: PriceFaces, atr: seq<Option<real>>, minutes: seq<int>)
    returns (trade: Option<Trade>)
    requires Framed(faces, minutes) && s.row < |minutes| == |atr| && atr[s.row].Some?
    ensures trade == A1Attempt(candidate, faces, atr, minutes, s)
  {
    var entry := faces.Entry(s.row, s.side);
    var commonR := CommonRPips(atr[s.row].value);
    var stop := Rounding.Quantize(entry - Signed(s.side, SlDistance(candidate, atr[s.row].value)));
    var target := Rounding.Quantize(entry + Signed(s.side, TpDistance(candidate, atr[s.row].value)));
    assert BarriersAt(s.side, entry, stop, target) == A1Barriers(candidate, s.side, entry, atr[s.row].value);
    var exitPips, exitRow :=
      WalkBars(faces, minutes, s.row, s.side, entry, stop, target, minutes[s.row] + A1_MAX_HOLD_MINUTES);
    if exitPips.None? {
      return None;
    }
    return Some(Trade(s.row, exitRow, s.side, exitPips.value, minutes[exitRow] - minutes[s.row],
      commonR.floorClamped, commonR.capClamped));
  }

  method SimulateA1(
    candidate: A1Candidate, signals: seq<Signal>, faces: PriceFaces, atr: seq<Option<real>>, minutes: seq<int>)
    returns (trades: seq<Trade>)
    requires Framed(faces, minutes) && AtrKnown(signals, atr, |minutes|)
    ensures trades == Greedy(A1Attempts(candidate, faces, atr, minutes, signals), -1)
  {
    ghost var attempts := A1Attempts(candidate, faces, atr, minutes, signals);
    trades := [];
    var busyUntil: int := -1;
    DrawnStart(attempts);
    for i := 0 to |signals|
      invariant Drawn(attempts, i, trades, busyUntil)
    {
      assert attempts[i] == A1Attempt(candidate, faces, atr, minutes, signals[i]);
      if signals[i].row <= busyUntil {
        DrawnSkip(attempts, i, trades, busyUntil);
        continue;
      }
      var trade := TryA1(candidate, signals[i], faces, atr, minutes);
      if trade.None? {
        DrawnSkip(attempts, i, trades, busyUntil);
        continue;
      }
      DrawnTake(attempts, i, trades, busyUntil);
      trades := trades + [trade.value];
      busyUntil := trade.value.exitRow;
    }
    DrawnEnd(attempts, trades, busyUntil);
  }

  /** One signal of the production replay, up to the trade it would record. */
  method TryReplay(s: Signal, faces: PriceFaces, atr: seq<Option<real>>, minutes: seq<int>, timeoutMinutes: int)
    returns (trade: Option<Trade>)
    requires Framed(faces, minutes) && s.row < |minutes| == |atr| && atr[s.row].Some?
    ensures trade == ReplayAttempt(faces, atr, minutes, timeoutMinutes, s)
  {
    var entry := faces.Entry(s.row, s.side);
    var distance := 1.5 * atr[s.row].value;
    var stop := entry - Signed(s.side, distance);
    var target := entry + Signed(s.side, distance * 1.5);
    var exitPips, exitRow :=
      WalkBars(faces, minutes, s.row, s.side, entry, stop, target, minutes[s.row] + timeoutMinutes);
    if exitPips.None? {
      return None;
    }
    return Some(Trade(s.row, exitRow, s.side, exitPips.value, minutes[exitRow] - minutes[s.row], false, false));
  }

  method SimulateProdReplay(
    signals: seq<Signal>, faces: PriceFaces, atr: seq<Option<real>>, minutes: seq<int>, timeoutMinutes: int)
    returns (result: Result<seq<Trade>, string>)
    requires Framed(faces, minutes) && AtrKnown(signals, atr, |minutes|)
    ensures result ==
      if timeoutMinutes <= 0 then Err("PROD_REPLAY_TIMEOUT_INVALID")
      else Ok(Greedy(ReplayAttempts(faces, atr, minutes, timeoutMinutes, signals), -1))
  {
    ghost var attempts := ReplayAttempts(faces, atr, minutes, timeoutMinutes, signals);
    var trades: seq<Trade> := [];
    var busyUntil: int := -1;
    if timeoutMinutes <= 0 {
      return Err("PROD_REPLAY_TIMEOUT_INVALID");
    }
    DrawnStart(attempts);
    for i := 0 to |signals|
      invariant Drawn(attempts, i, trades, busyUntil)
    {
      assert attempts[i] == ReplayAttempt(faces, atr, minutes, timeoutMinutes, signals[i]);
      if signals[i].row <= busyUntil {
        DrawnSkip(attempts, i, trades, busyUntil);
        continue;
      }
      var trade := TryReplay(signals[i], faces, atr, minutes, timeoutMinutes);
      if trade.None? {
        DrawnSkip(attempts, i, trades, busyUntil);
        continue;
      }
      DrawnTake(attempts, i, trades, busyUntil);
      trades := trades + [trade.value];
      busyUntil := trade.value.exitRow;
    }
    DrawnEnd(attempts, trades, busyUntil);
    result := Ok(trades);
  }

  /** One signal of the bare time exit, up to the trade it would record. */
  method TryA0(s: Signal, faces: PriceFaces, minutes: seq<int>) returns (trade: Option<Trade>)
    requires Framed(faces, minutes) && s.row < |minutes|
    ensures trade == A0Attempt(faces, minutes, s)
  {
    var entry := faces.Entry(s.row, s.side);
    var deadlineMinute := minutes[s.row] + A1_MAX_HOLD_MINUTES;
    var exitRow := s.row;
    ghost var held := LastHeld(minutes, deadlineMinute, s.row + 1);
    for later := s.row + 1 to |faces.bidClose|
      invariant exitRow == later - 1
      invariant held == LastHeld(minutes, deadlineMinute, later)
    {
      if minutes[later] > deadlineMinute {
        exitRow := later - 1;
        break;
      }
      exitRow := later;
    }
    assert exitRow == held;
    if exitRow == s.row {
      return None;
    }
    var exitPips := Signed(s.side, faces.ExitClose(exitRow, s.side) - entry) / PIP;
    return Some(Trade(s.row, exitRow, s.side, exitPips, minutes[exitRow] - minutes[s.row], false, false));
  }

  method SimulateA0(signals: seq<Signal>, faces: PriceFaces, minutes: seq<int>) returns (trades: seq<Trade>)
    requires Framed(faces, minutes) && InRange(signals, |minutes|)
    ensures trades == Greedy(A0Attempts(faces, minutes, signals), -1)
  {
    ghost var attempts := A0Attempts(faces, minutes, signals);
    trades := [];
    var busyUntil: int := -1;
    DrawnStart(attempts);
    for i := 0 to |signals|
      invariant Drawn(attempts, i, trades, busyUntil)
    {
      assert attempts[i] == A0Attempt(faces, minutes, signals[i]);
      if signals[i].row <= busyUntil {
        DrawnSkip(attempts, i, trades, busyUntil);
        continue;
      }
      var trade := TryA0(signals[i], faces, minutes);
      if trade.None? {
        DrawnSkip(attempts, i, trades, busyUntil);
        continue;
      }
      DrawnTake(attempts, i, trades, busyUntil);
      trades := trades + [trade.value];
      busyUntil := trade.value.exitRow;
    }
    DrawnEnd(attempts, trades, busyUntil);
  }
}
