/**
  The attempts read off the prices themselves: which bar closes a position, on which face, and for how many
  pips, for a BUY and for a SELL apart and without gains, paths or signs.
 */
module InPrices {
  import opened Wrappers
  import opened ExitEngine
  import opened Simulators
  import opened SimulatorLaws
  import Rounding

  /** The bars a position is closed on. */
  datatype Bars = Bars(minutes: seq<int>, close: seq<real>, high: seq<real>, low: seq<real>) {
    predicate Shaped() {
      |close| == |high| == |low| == |minutes|
    }
  }

  /** Each BID bar raised by the spread its bar closed with: what a SELL is bought back at. */
  function AskBars(minutes: seq<int>, faces: PriceFaces): (bars: Bars)
    requires Framed(faces, minutes) && |faces.askClose| == |minutes|
    ensures bars.Shaped()
  {
    Bars(minutes,
      faces.askClose,
      seq(|minutes|, k requires 0 <= k < |minutes| => faces.bidHigh[k] + (faces.askClose[k] - faces.bidClose[k])),
      seq(|minutes|, k requires 0 <= k < |minutes| => faces.bidLow[k] + (faces.askClose[k] - faces.bidClose[k])))
  }

  function BidBars(minutes: seq<int>, faces: PriceFaces): (bars: Bars)
    requires Framed(faces, minutes)
    ensures bars.Shaped()
  {
    Bars(minutes, faces.bidClose, faces.bidHigh, faces.bidLow)
  }

  // ----- when a position stays open, and how it closes

  /** From `row` up to `end`, in time, above the stop and below the target. */
  ghost predicate BuyStaysOpen(bars: Bars, row: nat, stop: real, target: real, deadline: int, end: nat)
    requires bars.Shaped() && end <= |bars.minutes|
  {
    forall j :: row < j < end ==> bars.minutes[j] <= deadline && bars.low[j] > stop && bars.high[j] < target
  }

  ghost predicate SellStaysOpen(bars: Bars, row: nat, stop: real, target: real, deadline: int, end: nat)
    requires bars.Shaped() && end <= |bars.minutes|
  {
    forall j :: row < j < end ==> bars.minutes[j] <= deadline && bars.high[j] < stop && bars.low[j] > target
  }

  /** Bar `k` closes a BUY: late on the close before it, or else at the stop, or else at the target. */
  predicate BuyClosesAt(
    bars: Bars, entry: real, stop: real, target: real, deadline: int, k: nat, exitRow: nat, pips: real)
    requires bars.Shaped() && 0 < k < |bars.minutes|
  {
    if bars.minutes[k] > deadline then exitRow == k - 1 && pips == (bars.close[k - 1] - entry) / 0.01
    else if bars.low[k] <= stop then exitRow == k && pips == (stop - entry) / 0.01
    else bars.high[k] >= target && exitRow == k && pips == (target - entry) / 0.01
  }

  predicate SellClosesAt(
    bars: Bars, entry: real, stop: real, target: real, deadline: int, k: nat, exitRow: nat, pips: real)
    requires bars.Shaped() && 0 < k < |bars.minutes|
  {
    if bars.minutes[k] > deadline then exitRow == k - 1 && pips == (entry - bars.close[k - 1]) / 0.01
    else if bars.high[k] >= stop then exitRow == k && pips == (entry - stop) / 0.01
    else bars.low[k] <= target && exitRow == k && pips == (entry - target) / 0.01
  }

  /** The first bar that closes the position decides. */
  ghost predicate BuyCloses(
    bars: Bars, row: nat, entry: real, stop: real, target: real, deadline: int, exitRow: nat, pips: real)
    requires bars.Shaped()
  {
    exists k :: row < k < |bars.minutes| && BuyStaysOpen(bars, row, stop, target, deadline, k) &&
      BuyClosesAt(bars, entry, stop, target, deadline, k, exitRow, pips)
  }

  ghost predicate SellCloses(
    bars: Bars, row: nat, entry: real, stop: real, target: real, deadline: int, exitRow: nat, pips: real)
    requires bars.Shaped()
  {
    exists k :: row < k < |bars.minutes| && SellStaysOpen(bars, row, stop, target, deadline, k) &&
      SellClosesAt(bars, entry, stop, target, deadline, k, exitRow, pips)
  }

  /** What becomes of one BUY signal: no trade where nothing closes it. */
  ghost predicate BuyOutcome(
    bars: Bars, row: nat, entry: real, stop: real, target: real, deadline: int, attempt: Option<Trade>)
    requires bars.Shaped() && row < |bars.minutes|
  {
    match attempt
    case None => BuyStaysOpen(bars, row, stop, target, deadline, |bars.minutes|)
    case Some(t) =>
      && t.side == Buy && t.entryRow == row <= t.exitRow < |bars.minutes|
      && t.holdMinutes == bars.minutes[t.exitRow] - bars.minutes[row]
      && BuyCloses(bars, row, entry, stop, target, deadline, t.exitRow, t.rawPips)
  }

  ghost predicate SellOutcome(
    bars: Bars, row: nat, entry: real, stop: real, target: real, deadline: int, attempt: Option<Trade>)
    requires bars.Shaped() && row < |bars.minutes|
  {
    match attempt
    case None => SellStaysOpen(bars, row, stop, target, deadline, |bars.minutes|)
    case Some(t) =>
      && t.side == Sell && t.entryRow == row <= t.exitRow < |bars.minutes|
      && t.holdMinutes == bars.minutes[t.exitRow] - bars.minutes[row]
      && SellCloses(bars, row, entry, stop, target, deadline, t.exitRow, t.rawPips)
  }

  /** `last` is the last bar in time after `row`: every bar up to it is in time, and the next one is late. */
  ghost predicate LastInTime(minutes: seq<int>, row: nat, deadline: int, last: nat)
    requires last < |minutes|
  {
    && row <= last
    && (forall j :: row < j <= last ==> minutes[j] <= deadline)
    && (last + 1 < |minutes| ==> minutes[last + 1] > deadline)
  }

  /** A position closed by the clock alone, on its last bar in time. */
  predicate ClosedOn(bars: Bars, row: nat, side: Side, entry: real, last: nat, t: Trade)
    requires bars.Shaped() && row < |bars.minutes| && last < |bars.minutes|
  {
    && t.entryRow == row && t.exitRow == last && t.side == side
    && t.rawPips == (if side == Buy then bars.close[last] - entry else entry - bars.close[last]) / 0.01
    && t.holdMinutes == bars.minutes[last] - bars.minutes[row]
  }

  // ----- from gains back to prices

  ghost predicate BuyPath(bars: Bars, path: Path, entry: real)
    requires bars.Shaped() && path.Shaped()
  {
    path.minutes == bars.minutes && forall k :: 0 <= k < |bars.minutes| ==>
      path.close[k] == bars.close[k] - entry && path.best[k] == bars.high[k] - entry &&
      path.worst[k] == bars.low[k] - entry
  }

  ghost predicate SellPath(bars: Bars, path: Path, entry: real)
    requires bars.Shaped() && path.Shaped()
  {
    path.minutes == bars.minutes && forall k :: 0 <= k < |bars.minutes| ==>
      path.close[k] == entry - bars.close[k] && path.best[k] == entry - bars.low[k] &&
      path.worst[k] == entry - bars.high[k]
  }

  /** A path of gains on bought or sold bars, and its first exit in prices. */
  lemma {:induction false} BuyEnds(
    bars: Bars, path: Path, entry: real, stop: real, target: real, deadline: int, k: nat)
    requires bars.Shaped() && path.Shaped() && BuyPath(bars, path, entry) && 0 < k < |bars.minutes|
    ensures var b := Barriers(stop - entry, target - entry);
      && (Ends(path, b, deadline, k) <==> bars.minutes[k] > deadline || bars.low[k] <= stop || bars.high[k] >= target)
      && (Ends(path, b, deadline, k) ==>
            var e := ExitAt(path, b, deadline, k);
            BuyClosesAt(bars, entry, stop, target, deadline, k, e.row, e.gain / 0.01))
  {
  }

  lemma {:induction false} BuyWalk(
    bars: Bars, path: Path, row: nat, entry: real, stop: real, target: real, deadline: int, k: nat)
    requires bars.Shaped() && path.Shaped() && BuyPath(bars, path, entry) && row < k <= |bars.minutes|
    requires BuyStaysOpen(bars, row, stop, target, deadline, k)
    ensures match FirstExit(path, Barriers(stop - entry, target - entry), deadline, k)
      case None => BuyStaysOpen(bars, row, stop, target, deadline, |bars.minutes|)
      case Some(e) =>
        row <= e.row < |bars.minutes| && BuyCloses(bars, row, entry, stop, target, deadline, e.row, e.gain / 0.01)
    decreases |bars.minutes| - k
  {
    if k < |bars.minutes| {
      BuyEnds(bars, path, entry, stop, target, deadline, k);
      if !Ends(path, Barriers(stop - entry, target - entry), deadline, k) {
        BuyWalk(bars, path, row, entry, stop, target, deadline, k + 1);
      }
    }
  }

  lemma {:induction false} SellEnds(
    bars: Bars, path: Path, entry: real, stop: real, target: real, deadline: int, k: nat)
    requires bars.Shaped() && path.Shaped() && SellPath(bars, path, entry) && 0 < k < |bars.minutes|
    ensures var b := Barriers(entry - stop, entry - target);
      && (Ends(path, b, deadline, k) <==> bars.minutes[k] > deadline || bars.high[k] >= stop || bars.low[k] <= target)
      && (Ends(path, b, deadline, k) ==>
            var e := ExitAt(path, b, deadline, k);
            SellClosesAt(bars, entry, stop, target, deadline, k, e.row, e.gain / 0.01))
  {
  }

  lemma {:induction false} SellWalk(
    bars: Bars, path: Path, row: nat, entry: real, stop: real, target: real, deadline: int, k: nat)
    requires bars.Shaped() && path.Shaped() && SellPath(bars, path, entry) && row < k <= |bars.minutes|
    requires SellStaysOpen(bars, row, stop, target, deadline, k)
    ensures match FirstExit(path, Barriers(entry - stop, entry - target), deadline, k)
      case None => SellStaysOpen(bars, row, stop, target, deadline, |bars.minutes|)
      case Some(e) =>
        row <= e.row < |bars.minutes| && SellCloses(bars, row, entry, stop, target, deadline, e.row, e.gain / 0.01)
    decreases |bars.minutes| - k
  {
    if k < |bars.minutes| {
      SellEnds(bars, path, entry, stop, target, deadline, k);
      if !Ends(path, Barriers(entry - stop, entry - target), deadline, k) {
        SellWalk(bars, path, row, entry, stop, target, deadline, k + 1);
      }
    }
  }

  lemma {:induction false} BuySettled(
    bars: Bars, path: Path, row: nat, entry: real, stop: real, target: real, deadline: int, floor: bool, cap: bool)
    requires bars.Shaped() && path.Shaped() && BuyPath(bars, path, entry) && row < |bars.minutes|
    ensures var exit := FirstExit(path, Barriers(stop - entry, target - entry), deadline, row + 1);
      && (exit.Some? ==> row <= exit.value.row < |bars.minutes|)
      && BuyOutcome(bars, row, entry, stop, target, deadline,
           Settle(Signal(row, Buy), exit, bars.minutes, floor, cap))
  {
    BuyWalk(bars, path, row, entry, stop, target, deadline, row + 1);
  }

  lemma {:induction false} SellSettled(
    bars: Bars, path: Path, row: nat, entry: real, stop: real, target: real, deadline: int, floor: bool, cap: bool)
    requires bars.Shaped() && path.Shaped() && SellPath(bars, path, entry) && row < |bars.minutes|
    ensures var exit := FirstExit(path, Barriers(entry - stop, entry - target), deadline, row + 1);
      && (exit.Some? ==> row <= exit.value.row < |bars.minutes|)
      && SellOutcome(bars, row, entry, stop, target, deadline,
           Settle(Signal(row, Sell), exit, bars.minutes, floor, cap))
  {
    SellWalk(bars, path, row, entry, stop, target, deadline, row + 1);
  }

  lemma {:induction false} ClockWalk(path: Path, row: nat, deadline: int)
    requires path.Shaped() && row < |path.minutes|
    ensures match FirstExit(path, NoBarriers, deadline, row + 1)
      case None => forall j :: row < j < |path.minutes| ==> path.minutes[j] <= deadline
      case Some(e) =>
        && e.row + 1 < |path.minutes| && LastInTime(path.minutes, row, deadline, e.row)
        && e.gain == path.close[e.row]
  {
    var exit := FirstExit(path, NoBarriers, deadline, row + 1);
    FirstExitIsFirstTouch(path, NoBarriers, deadline, row + 1, exit);
    assert forall k :: 0 <= k < |path.minutes| ==>
      (Ends(path, NoBarriers, deadline, k) <==> path.minutes[k] > deadline);
  }

  /**
    On BID/ASK prices a SELL is bought back dearer than on BID prices by each bar's closing spread, at the close,
    at the best and at the worst; a BUY pays the spread of its entry bar throughout.
   */
  lemma {:induction false} SpreadShiftsPath(faces: PriceFaces, minutes: seq<int>, s: Signal, k: nat)
    requires Framed(faces, minutes) && |faces.askClose| == |minutes| && s.row < |minutes| && k < |minutes|
    ensures var p, q := faces.(mode := BidAskM1), faces.(mode := LegacyBidOnly);
      var bidAsk := PathOf(p, minutes, s.side, p.Entry(s.row, s.side));
      var legacy := PathOf(q, minutes, s.side, q.Entry(s.row, s.side));
      var paid := if s.side == Sell then k else s.row;
      var spread := faces.askClose[paid] - faces.bidClose[paid];
      && bidAsk.close[k] == legacy.close[k] - spread
      && bidAsk.best[k] == legacy.best[k] - spread
      && bidAsk.worst[k] == legacy.worst[k] - spread
  {
  }

  // ----- what one signal enters at, is closed on, and comes to

  /** A BUY enters at the ASK on BID/ASK prices, everything else at the BID. */
  function EntryPrice(faces: PriceFaces, s: Signal): real
    requires faces.Shaped() && s.row < |faces.bidClose|
  {
    if faces.mode == BidAskM1 && s.side == Buy then faces.askClose[s.row] else faces.bidClose[s.row]
  }

  /** A SELL is closed on the ASK bars on BID/ASK prices, everything else on the BID bars. */
  function ExitBars(faces: PriceFaces, minutes: seq<int>, side: Side): (bars: Bars)
    requires Framed(faces, minutes)
    ensures bars.Shaped() && bars.minutes == minutes
  {
    if faces.mode == BidAskM1 && side == Sell then AskBars(minutes, faces) else BidBars(minutes, faces)
  }

  ghost predicate Outcome(
    bars: Bars, s: Signal, entry: real, stop: real, target: real, deadline: int, attempt: Option<Trade>)
    requires bars.Shaped() && s.row < |bars.minutes|
  {
    if s.side == Buy then BuyOutcome(bars, s.row, entry, stop, target, deadline, attempt)
    else SellOutcome(bars, s.row, entry, stop, target, deadline, attempt)
  }

  ghost predicate SidedPath(bars: Bars, path: Path, side: Side, entry: real)
    requires bars.Shaped() && path.Shaped()
  {
    if side == Buy then BuyPath(bars, path, entry) else SellPath(bars, path, entry)
  }

  lemma {:induction false} PathOfFaces(faces: PriceFaces, minutes: seq<int>, s: Signal)
    requires Framed(faces, minutes) && s.row < |minutes|
    ensures faces.Entry(s.row, s.side) == EntryPrice(faces, s)
    ensures SidedPath(
      ExitBars(faces, minutes, s.side), PathOf(faces, minutes, s.side, EntryPrice(faces, s)), s.side,
      EntryPrice(faces, s))
  {
  }

  /** The walk of one signal between two prices, settled. */
  lemma {:induction false} WalkInPrices(
    bars: Bars, path: Path, s: Signal, entry: real, stop: real, target: real, deadline: int, floor: bool, cap: bool)
    requires bars.Shaped() && path.Shaped() && SidedPath(bars, path, s.side, entry) && s.row < |bars.minutes|
    ensures var exit := FirstExit(path, BarriersAt(s.side, entry, stop, target), deadline, s.row + 1);
      && (exit.Some? ==> s.row <= exit.value.row < |bars.minutes|)
      && Outcome(bars, s, entry, stop, target, deadline, Settle(s, exit, bars.minutes, floor, cap))
  {
    match s.side
    case Buy =>
      assert BarriersAt(s.side, entry, stop, target) == Barriers(stop - entry, target - entry);
      BuySettled(bars, path, s.row, entry, stop, target, deadline, floor, cap);
      assert s == Signal(s.row, Buy);
    case Sell =>
      assert BarriersAt(s.side, entry, stop, target) == Barriers(entry - stop, entry - target);
      SellSettled(bars, path, s.row, entry, stop, target, deadline, floor, cap);
      assert s == Signal(s.row, Sell);
  }

  /** At most one outcome is right, the clamp flags apart. */
  lemma {:induction false} OutcomeIsUnique(
    bars: Bars, s: Signal, entry: real, stop: real, target: real, deadline: int, x: Option<Trade>, y: Option<Trade>)
    requires bars.Shaped() && s.row < |bars.minutes|
    requires Outcome(bars, s, entry, stop, target, deadline, x) && Outcome(bars, s, entry, stop, target, deadline, y)
    ensures x.Some? <==> y.Some?
    ensures x.Some? ==> y.value == x.value.(floorClamped := y.value.floorClamped, capClamped := y.value.capClamped)
  {
  }

  /** A settled walk on the faces of a signal's side, whatever path and barriers were computed for it. */
  lemma {:induction false} AttemptInPrices(
    faces: PriceFaces, minutes: seq<int>, s: Signal, path: Path, b: Barriers, stop: real, target: real, deadline: int,
    floor: bool, cap: bool, exit: Option<Exit>)
    requires Framed(faces, minutes) && s.row < |minutes|
    requires path == PathOf(faces, minutes, s.side, faces.Entry(s.row, s.side))
    requires b == BarriersAt(s.side, EntryPrice(faces, s), stop, target)
    requires exit == FirstExit(path, b, deadline, s.row + 1)
    ensures exit.Some? ==> s.row <= exit.value.row < |minutes|
    ensures Outcome(
      ExitBars(faces, minutes, s.side), s, EntryPrice(faces, s), stop, target, deadline,
      Settle(s, exit, minutes, floor, cap))
  {
    PathOfFaces(faces, minutes, s);
    WalkInPrices(
      ExitBars(faces, minutes, s.side), path, s, EntryPrice(faces, s), stop, target, deadline, floor, cap);
  }

  // ----- the simulators

  lemma {:induction false} RuleBarriersInPrices(
    rule: ExitRule, m: real, r: real, side: Side, entry: real, atr: real, stop: real, target: real)
    requires rule.stopAtrMultiple == Some(m) && rule.takeProfitRMultiple == Some(r)
    requires stop == if side == Buy then entry - m * atr else entry + m * atr
    requires target == if side == Buy then entry + m * atr * r else entry - m * atr * r
    ensures RuleBarriers(rule, side, entry, Some(atr)) == BarriersAt(side, entry, stop, target)
    ensures RuleBarriers(rule, side, entry, Some(atr)) == Barriers(-m * atr, m * r * atr)
  {
    assert m * atr * r == m * r * atr;
  }

  /** The reference simulator: m ATR to the stop and r times that to the target, both unrounded. */
  lemma {:induction false} ReferenceInPrices(
    rule: ExitRule, m: real, r: real, faces: PriceFaces, atr: seq<Option<real>>, minutes: seq<int>, s: Signal,
    a: real, stop: real, target: real)
    requires Framed(faces, minutes) && s.row < |minutes| == |atr| && atr[s.row] == Some(a)
    requires rule.stopAtrMultiple == Some(m) && rule.takeProfitRMultiple == Some(r)
    requires stop == if s.side == Buy then EntryPrice(faces, s) - m * a else EntryPrice(faces, s) + m * a
    requires target == if s.side == Buy then EntryPrice(faces, s) + m * a * r else EntryPrice(faces, s) - m * a * r
    ensures
      var attempt := RuleAttempt(rule, faces, atr, minutes, s);
      && Outcome(
           ExitBars(faces, minutes, s.side), s, EntryPrice(faces, s), stop, target,
           minutes[s.row] + rule.timeoutMinutes, attempt)
      && (attempt.Some? ==> !attempt.value.floorClamped && !attempt.value.capClamped)
  {
    var entry := EntryPrice(faces, s);
    PathOfFaces(faces, minutes, s);
    RuleBarriersInPrices(rule, m, r, s.side, entry, a, stop, target);
    AttemptInPrices(
      faces, minutes, s, PathOf(faces, minutes, s.side, entry), RuleBarriers(rule, s.side, entry, atr[s.row]),
      stop, target, minutes[s.row] + rule.timeoutMinutes, false, false,
      RuleExit(rule, faces, atr[s.row], minutes, s));
  }

  lemma {:induction false} GridBarriersInPrices(
    c: A1Candidate, side: Side, entry: real, atr: real, pips: real, sl: real, tp: real, stop: real, target: real)
    requires pips == if atr / 0.01 < 3.75 then 3.75 else if atr / 0.01 > 20.0 / 1.2 then 20.0 / 1.2 else atr / 0.01
    requires sl == c.slR * pips * 0.01 && tp == c.tpR * pips * 0.01
    requires stop == Rounding.Quantize(if side == Buy then entry - sl else entry + sl)
    requires target == Rounding.Quantize(if side == Buy then entry + tp else entry - tp)
    ensures A1Barriers(c, side, entry, atr) == BarriersAt(side, entry, stop, target)
    ensures CommonRPips(atr) == CommonR(pips, atr / 0.01 < 3.75, atr / 0.01 > 20.0 / 1.2)
  {
    CommonRInPips(atr, pips);
    DistancesInPips(c, atr, pips, sl, tp);
    LevelsInPrices(side, entry, sl, tp, stop, target);
  }

  lemma {:induction false} DistancesInPips(c: A1Candidate, atr: real, pips: real, sl: real, tp: real)
    requires CommonRPips(atr).pips == pips && sl == c.slR * pips * 0.01 && tp == c.tpR * pips * 0.01
    ensures SlDistance(c, atr) == sl && TpDistance(c, atr) == tp
  {
  }

  lemma {:induction false} CommonRInPips(atr: real, pips: real)
    requires pips == if atr / 0.01 < 3.75 then 3.75 else if atr / 0.01 > 20.0 / 1.2 then 20.0 / 1.2 else atr / 0.01
    ensures CommonRPips(atr) == CommonR(pips, atr / 0.01 < 3.75, atr / 0.01 > 20.0 / 1.2)
  {
    assert COMMON_R_FLOOR_PIPS == 3.75 && COMMON_R_CAP_PIPS == 20.0 / 1.2;
  }

  lemma {:induction false} LevelsInPrices(side: Side, entry: real, sl: real, tp: real, stop: real, target: real)
    requires stop == Rounding.Quantize(if side == Buy then entry - sl else entry + sl)
    requires target == Rounding.Quantize(if side == Buy then entry + tp else entry - tp)
    ensures QuantizedBarriers(side, entry, sl, tp) == BarriersAt(side, entry, stop, target)
  {
  }

  /** The grid: both levels on the tick grid, common_R held between 3.75 and 20 / 1.2 pips, thirty minutes. */
  lemma {:induction false} GridInPrices(
    c: A1Candidate, faces: PriceFaces, atr: seq<Option<real>>, minutes: seq<int>, s: Signal,
    rawPips: real, pips: real, sl: real, tp: real, stop: real, target: real)
    requires Framed(faces, minutes) && s.row < |minutes| == |atr| && atr[s.row].Some?
    requires rawPips == atr[s.row].value / 0.01
    requires pips == if rawPips < 3.75 then 3.75 else if rawPips > 20.0 / 1.2 then 20.0 / 1.2 else rawPips
    requires sl == c.slR * pips * 0.01 && tp == c.tpR * pips * 0.01
    requires stop == Rounding.Quantize(
      if s.side == Buy then EntryPrice(faces, s) - sl else EntryPrice(faces, s) + sl)
    requires target == Rounding.Quantize(
      if s.side == Buy then EntryPrice(faces, s) + tp else EntryPrice(faces, s) - tp)
    ensures
      var attempt := A1Attempt(c, faces, atr, minutes, s);
      && Outcome(
           ExitBars(faces, minutes, s.side), s, EntryPrice(faces, s), stop, target, minutes[s.row] + 30, attempt)
      && (attempt.Some? ==>
            && (attempt.value.floorClamped <==> rawPips < 3.75)
            && (attempt.value.capClamped <==> rawPips > 20.0 / 1.2))
  {
    GridBarriersInPrices(c, s.side, EntryPrice(faces, s), atr[s.row].value, pips, sl, tp, stop, target);
    GridBetween(c, faces, atr, minutes, s, stop, target);
  }

  lemma {:induction false} GridBetween(
    c: A1Candidate, faces: PriceFaces, atr: seq<Option<real>>, minutes: seq<int>, s: Signal, stop: real, target: real)
    requires Framed(faces, minutes) && s.row < |minutes| == |atr| && atr[s.row].Some?
    requires A1Barriers(c, s.side, EntryPrice(faces, s), atr[s.row].value) ==
      BarriersAt(s.side, EntryPrice(faces, s), stop, target)
    ensures
      var attempt, r := A1Attempt(c, faces, atr, minutes, s), CommonRPips(atr[s.row].value);
      && Outcome(
           ExitBars(faces, minutes, s.side), s, EntryPrice(faces, s), stop, target, minutes[s.row] + 30, attempt)
      && (attempt.Some? ==>
            attempt.value.floorClamped == r.floorClamped && attempt.value.capClamped == r.capClamped)
  {
    var entry, a := EntryPrice(faces, s), atr[s.row].value;
    PathOfFaces(faces, minutes, s);
    AttemptInPrices(
      faces, minutes, s, PathOf(faces, minutes, s.side, entry), A1Barriers(c, s.side, entry, a), stop, target,
      minutes[s.row] + 30, CommonRPips(a).floorClamped, CommonRPips(a).capClamped, A1Exit(c, faces, a, minutes, s));
  }

  /** The replay: 1.5 ATR to the stop, 1.5 times that to the target, and the timeout it is called with. */
  lemma {:induction false} ReplayInPrices(
    faces: PriceFaces, atr: seq<Option<real>>, minutes: seq<int>, timeout: int, s: Signal,
    a: real, stop: real, target: real)
    requires Framed(faces, minutes) && s.row < |minutes| == |atr| && atr[s.row] == Some(a)
    requires stop == if s.side == Buy then EntryPrice(faces, s) - 1.5 * a else EntryPrice(faces, s) + 1.5 * a
    requires target == if s.side == Buy then EntryPrice(faces, s) + 2.25 * a else EntryPrice(faces, s) - 2.25 * a
    ensures
      var attempt := ReplayAttempt(faces, atr, minutes, timeout, s);
      && Outcome(
           ExitBars(faces, minutes, s.side), s, EntryPrice(faces, s), stop, target, minutes[s.row] + timeout, attempt)
      && (attempt.Some? ==> !attempt.value.floorClamped && !attempt.value.capClamped)
  {
    var entry := EntryPrice(faces, s);
    PathOfFaces(faces, minutes, s);
    ReplayBarriersInPrices(s.side, entry, a, stop, target);
    AttemptInPrices(
      faces, minutes, s, PathOf(faces, minutes, s.side, entry), ReplayBarriers(s.side, entry, a), stop, target,
      minutes[s.row] + timeout, false, false, ReplayExit(faces, a, minutes, timeout, s));
  }

  lemma {:induction false} ReplayBarriersInPrices(side: Side, entry: real, a: real, stop: real, target: real)
    requires stop == if side == Buy then entry - 1.5 * a else entry + 1.5 * a
    requires target == if side == Buy then entry + 2.25 * a else entry - 2.25 * a
    ensures ReplayBarriers(side, entry, a) == BarriersAt(side, entry, stop, target)
  {
  }

  /** A rule without a stop closes on the last bar in time, and only once a later bar is late. */
  lemma {:induction false} TimedRuleInPrices(
    rule: ExitRule, faces: PriceFaces, atr: seq<Option<real>>, minutes: seq<int>, s: Signal)
    requires Framed(faces, minutes) && s.row < |minutes| == |atr| && rule.stopAtrMultiple.None?
    ensures var deadline := minutes[s.row] + rule.timeoutMinutes;
      match RuleAttempt(rule, faces, atr, minutes, s)
      case None => forall j :: s.row < j < |minutes| ==> minutes[j] <= deadline
      case Some(t) =>
        && t.exitRow + 1 < |minutes| && LastInTime(minutes, s.row, deadline, t.exitRow)
        && ClosedOn(ExitBars(faces, minutes, s.side), s.row, s.side, EntryPrice(faces, s), t.exitRow, t)
  {
    PathOfFaces(faces, minutes, s);
    ClockWalk(
      PathOf(faces, minutes, s.side, EntryPrice(faces, s)), s.row, minutes[s.row] + rule.timeoutMinutes);
  }

  lemma {:induction false} LastHeldIsLastInTime(minutes: seq<int>, row: nat, deadline: int, k: nat)
    requires row < k <= |minutes| && forall j :: row < j < k ==> minutes[j] <= deadline
    ensures LastInTime(minutes, row, deadline, LastHeld(minutes, deadline, k))
    decreases |minutes| - k
  {
    if k < |minutes| && minutes[k] <= deadline {
      LastHeldIsLastInTime(minutes, row, deadline, k + 1);
    }
  }

  /** A0 closes on the last bar of thirty minutes, the data's last bar included, and takes nothing on the entry row. */
  lemma {:induction false} A0InPrices(faces: PriceFaces, minutes: seq<int>, s: Signal)
    requires Framed(faces, minutes) && s.row < |minutes|
    ensures
      match A0Attempt(faces, minutes, s)
      case None => LastInTime(minutes, s.row, minutes[s.row] + 30, s.row)
      case Some(t) =>
        && t.exitRow > s.row && LastInTime(minutes, s.row, minutes[s.row] + 30, t.exitRow)
        && ClosedOn(ExitBars(faces, minutes, s.side), s.row, s.side, EntryPrice(faces, s), t.exitRow, t)
        && !t.floorClamped && !t.capClamped
  {
    LastHeldIsLastInTime(minutes, s.row, minutes[s.row] + 30, s.row + 1);
  }

  /** Every reported trade is an attempt, half a pip taken off. */
  lemma {:induction false} ReportsAreAttempts(attempts: seq<Option<Trade>>, i: nat)
    requires Ordered(attempts) && i < |Report(Greedy(attempts, -1))|
    ensures var t := Greedy(attempts, -1)[i];
      && Some(t) in attempts
      && Report(Greedy(attempts, -1))[i] == RuleTrade(t.entryRow, t.rawPips - 0.5, t.holdMinutes)
  {
    GreedyIsDisjoint(attempts, -1);
    assert Greedy(attempts, -1)[i] in Greedy(attempts, -1);
  }
}
