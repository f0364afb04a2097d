/** What the simulators promise of each other, over every frame and every signal list. */
module SimulatorLaws {
  import opened Wrappers
  import opened ExitEngine
  import opened Simulators
  import PathLaws
  import Rounding

  ghost predicate Increasing(minutes: seq<int>) {
    forall i, j :: 0 <= i < j < |minutes| ==> minutes[i] < minutes[j]
  }

  ghost predicate RowsIncrease(signals: seq<Signal>) {
    forall i, j :: 0 <= i < j < |signals| ==> signals[i].row < signals[j].row
  }

  // ----- one position at a time, first touch, within the timeout

  /** The greedy selection: disjoint holdings, drawn from the attempts, and none passed over without cause. */
  ghost predicate OneAtATime(attempts: seq<Option<Trade>>, trades: seq<Trade>) {
    && Disjoint(trades, -1)
    && (forall t :: t in trades ==> Some(t) in attempts)
    && (forall t :: Some(t) in attempts && t !in trades ==>
          exists u :: u in trades && u.entryRow < t.entryRow <= u.exitRow)
  }

  lemma {:induction false} SelectionIsOneAtATime(attempts: seq<Option<Trade>>)
    requires Ordered(attempts)
    ensures OneAtATime(attempts, Greedy(attempts, -1))
  {
    GreedyIsDisjoint(attempts, -1);
    forall t | Some(t) in attempts && t !in Greedy(attempts, -1)
      ensures exists u :: u in Greedy(attempts, -1) && u.entryRow < t.entryRow <= u.exitRow
    {
      GreedyIsMaximal(attempts, -1, t);
    }
  }

  predicate WithinTimeout(attempt: Option<Trade>, s: Signal, timeout: int) {
    attempt.Some? ==>
      var t := attempt.value;
      t.entryRow == s.row && t.side == s.side && t.entryRow <= t.exitRow && t.holdMinutes <= timeout
  }

  /** Attempt `i` starts at signal `i`, ends no earlier, and is held no longer than the timeout. */
  ghost predicate HeldWithin(attempts: seq<Option<Trade>>, signals: seq<Signal>, timeout: int) {
    |attempts| == |signals| && forall i :: 0 <= i < |attempts| ==> WithinTimeout(attempts[i], signals[i], timeout)
  }

  lemma {:induction false} HeldIsOneAtATime(attempts: seq<Option<Trade>>, signals: seq<Signal>, timeout: int)
    requires HeldWithin(attempts, signals, timeout) && RowsIncrease(signals)
    ensures OneAtATime(attempts, Greedy(attempts, -1))
  {
    assert forall i :: 0 <= i < |attempts| ==> WithinTimeout(attempts[i], signals[i], timeout);
    SelectionIsOneAtATime(attempts);
  }

  /** The reference simulator holds one position at a time, and never past its timeout. */
  lemma {:induction false} ReferenceHoldsOneAtATime(
    rule: ExitRule, faces: PriceFaces, atr: seq<Option<real>>, minutes: seq<int>, signals: seq<Signal>)
    requires Framed(faces, minutes) && AtrKnown(signals, atr, |minutes|)
    requires rule.timeoutMinutes >= 0 && (rule.stopAtrMultiple.Some? ==> rule.takeProfitRMultiple.Some?)
    requires Increasing(minutes) && RowsIncrease(signals)
    ensures var attempts := RuleAttempts(rule, faces, atr, minutes, signals);
      HeldWithin(attempts, signals, rule.timeoutMinutes) && OneAtATime(attempts, Greedy(attempts, -1))
  {
    var attempts := RuleAttempts(rule, faces, atr, minutes, signals);
    forall i | 0 <= i < |signals|
      ensures WithinTimeout(attempts[i], signals[i], rule.timeoutMinutes)
    {
      var s := signals[i];
      var entry := faces.Entry(s.row, s.side);
      FirstExitWithinDeadline(
        PathOf(faces, minutes, s.side, entry), RuleBarriers(rule, s.side, entry, atr[s.row]),
        minutes[s.row] + rule.timeoutMinutes, s.row + 1);
    }
    HeldIsOneAtATime(attempts, signals, rule.timeoutMinutes);
  }

  /** So does the common_R grid simulator, within 30 minutes. */
  lemma {:induction false} GridHoldsOneAtATime(
    c: A1Candidate, faces: PriceFaces, atr: seq<Option<real>>, minutes: seq<int>, signals: seq<Signal>)
    requires Framed(faces, minutes) && AtrKnown(signals, atr, |minutes|)
    requires Increasing(minutes) && RowsIncrease(signals)
    ensures var attempts := A1Attempts(c, faces, atr, minutes, signals);
      HeldWithin(attempts, signals, A1_MAX_HOLD_MINUTES) && OneAtATime(attempts, Greedy(attempts, -1))
  {
    var attempts := A1Attempts(c, faces, atr, minutes, signals);
    forall i | 0 <= i < |signals|
      ensures WithinTimeout(attempts[i], signals[i], A1_MAX_HOLD_MINUTES)
    {
      var s := signals[i];
      var entry := faces.Entry(s.row, s.side);
      FirstExitWithinDeadline(
        PathOf(faces, minutes, s.side, entry), A1Barriers(c, s.side, entry, atr[s.row].value),
        minutes[s.row] + A1_MAX_HOLD_MINUTES, s.row + 1);
    }
    HeldIsOneAtATime(attempts, signals, A1_MAX_HOLD_MINUTES);
  }

  /** So does the production replay, within its time limit. */
  lemma {:induction false} ReplayHoldsOneAtATime(
    faces: PriceFaces, atr: seq<Option<real>>, minutes: seq<int>, timeout: nat, signals: seq<Signal>)
    requires Framed(faces, minutes) && AtrKnown(signals, atr, |minutes|)
    requires Increasing(minutes) && RowsIncrease(signals)
    ensures var attempts := ReplayAttempts(faces, atr, minutes, timeout, signals);
      HeldWithin(attempts, signals, timeout) && OneAtATime(attempts, Greedy(attempts, -1))
  {
    var attempts := ReplayAttempts(faces, atr, minutes, timeout, signals);
    forall i | 0 <= i < |signals|
      ensures WithinTimeout(attempts[i], signals[i], timeout)
    {
      var s := signals[i];
      var entry := faces.Entry(s.row, s.side);
      FirstExitWithinDeadline(
        PathOf(faces, minutes, s.side, entry), ReplayBarriers(s.side, entry, atr[s.row].value),
        minutes[s.row] + timeout, s.row + 1);
    }
    HeldIsOneAtATime(attempts, signals, timeout);
  }

  /** So does the bare 30-minute exit. */
  lemma {:induction false} A0HoldsOneAtATime(
    faces: PriceFaces, minutes: seq<int>, signals: seq<Signal>)
    requires Framed(faces, minutes) && InRange(signals, |minutes|)
    requires Increasing(minutes) && RowsIncrease(signals)
    ensures var attempts := A0Attempts(faces, minutes, signals);
      HeldWithin(attempts, signals, A1_MAX_HOLD_MINUTES) && OneAtATime(attempts, Greedy(attempts, -1))
  {
    var attempts := A0Attempts(faces, minutes, signals);
    forall i | 0 <= i < |signals|
      ensures WithinTimeout(attempts[i], signals[i], A1_MAX_HOLD_MINUTES)
    {
      var s := signals[i];
      LastHeldWithinDeadline(minutes, minutes[s.row] + A1_MAX_HOLD_MINUTES, s.row + 1);
    }
    HeldIsOneAtATime(attempts, signals, A1_MAX_HOLD_MINUTES);
  }

  lemma {:induction false} LastHeldWithinDeadline(minutes: seq<int>, deadline: int, k: nat)
    requires 0 < k <= |minutes| && minutes[k - 1] <= deadline
    ensures minutes[LastHeld(minutes, deadline, k)] <= deadline
    decreases |minutes| - k
  {
    if k < |minutes| && minutes[k] <= deadline {
      LastHeldWithinDeadline(minutes, deadline, k + 1);
    }
  }

  lemma {:induction false} ReferenceFirstTouch(
    rule: ExitRule, faces: PriceFaces, atr: seq<Option<real>>, minutes: seq<int>, s: Signal, exit: Option<Exit>)
    requires Framed(faces, minutes) && s.row < |minutes| == |atr| && atr[s.row].Some?
    requires rule.stopAtrMultiple.Some? ==> rule.takeProfitRMultiple.Some?
    requires exit.Some? ==> exit.value.row < |minutes|
    ensures var entry := faces.Entry(s.row, s.side);
      IsFirstTouch(PathOf(faces, minutes, s.side, entry), RuleBarriers(rule, s.side, entry, atr[s.row]),
        minutes[s.row] + rule.timeoutMinutes, s.row + 1, exit) ==>
      RuleAttempt(rule, faces, atr, minutes, s) == Settle(s, exit, minutes, false, false)
  {
    var entry := faces.Entry(s.row, s.side);
    FirstExitIsFirstTouch(
      PathOf(faces, minutes, s.side, entry), RuleBarriers(rule, s.side, entry, atr[s.row]),
      minutes[s.row] + rule.timeoutMinutes, s.row + 1, exit);
  }

  lemma {:induction false} GridFirstTouch(
    c: A1Candidate, faces: PriceFaces, atr: seq<Option<real>>, minutes: seq<int>, s: Signal, exit: Option<Exit>)
    requires Framed(faces, minutes) && s.row < |minutes| == |atr| && atr[s.row].Some?
    requires exit.Some? ==> exit.value.row < |minutes|
    ensures var entry := faces.Entry(s.row, s.side); var r := CommonRPips(atr[s.row].value);
      IsFirstTouch(PathOf(faces, minutes, s.side, entry), A1Barriers(c, s.side, entry, atr[s.row].value),
        minutes[s.row] + A1_MAX_HOLD_MINUTES, s.row + 1, exit) ==>
      A1Attempt(c, faces, atr, minutes, s) == Settle(s, exit, minutes, r.floorClamped, r.capClamped)
  {
    var entry := faces.Entry(s.row, s.side);
    FirstExitIsFirstTouch(
      PathOf(faces, minutes, s.side, entry), A1Barriers(c, s.side, entry, atr[s.row].value),
      minutes[s.row] + A1_MAX_HOLD_MINUTES, s.row + 1, exit);
  }

  lemma {:induction false} ReplayFirstTouch(
    timeout: int, faces: PriceFaces, atr: seq<Option<real>>, minutes: seq<int>, s: Signal, exit: Option<Exit>)
    requires Framed(faces, minutes) && s.row < |minutes| == |atr| && atr[s.row].Some?
    requires exit.Some? ==> exit.value.row < |minutes|
    ensures var entry := faces.Entry(s.row, s.side);
      IsFirstTouch(PathOf(faces, minutes, s.side, entry), ReplayBarriers(s.side, entry, atr[s.row].value),
        minutes[s.row] + timeout, s.row + 1, exit) ==>
      ReplayAttempt(faces, atr, minutes, timeout, s) == Settle(s, exit, minutes, false, false)
  {
    var entry := faces.Entry(s.row, s.side);
    FirstExitIsFirstTouch(
      PathOf(faces, minutes, s.side, entry), ReplayBarriers(s.side, entry, atr[s.row].value),
      minutes[s.row] + timeout, s.row + 1, exit);
  }

  /**
    The reference, grid and replay simulators all close a signal at the earliest of stop, target and
    last bar before the deadline passes, the stop winning ties, and close nothing when the data runs out.
   */
  lemma {:induction false} AttemptsAreFirstTouches(
    c: A1Candidate, rule: ExitRule, timeout: int, faces: PriceFaces, atr: seq<Option<real>>, minutes: seq<int>,
    s: Signal, exit: Option<Exit>)
    requires Framed(faces, minutes) && s.row < |minutes| == |atr| && atr[s.row].Some?
    requires rule.stopAtrMultiple.Some? ==> rule.takeProfitRMultiple.Some?
    requires exit.Some? ==> exit.value.row < |minutes|
    ensures var entry := faces.Entry(s.row, s.side); var path := PathOf(faces, minutes, s.side, entry);
      var r := CommonRPips(atr[s.row].value);
      && (IsFirstTouch(path, RuleBarriers(rule, s.side, entry, atr[s.row]),
            minutes[s.row] + rule.timeoutMinutes, s.row + 1, exit) ==>
          RuleAttempt(rule, faces, atr, minutes, s) == Settle(s, exit, minutes, false, false))
      && (IsFirstTouch(path, A1Barriers(c, s.side, entry, atr[s.row].value),
            minutes[s.row] + A1_MAX_HOLD_MINUTES, s.row + 1, exit) ==>
          A1Attempt(c, faces, atr, minutes, s) == Settle(s, exit, minutes, r.floorClamped, r.capClamped))
      && (IsFirstTouch(path, ReplayBarriers(s.side, entry, atr[s.row].value),
            minutes[s.row] + timeout, s.row + 1, exit) ==>
          ReplayAttempt(faces, atr, minutes, timeout, s) == Settle(s, exit, minutes, false, false))
  {
    ReferenceFirstTouch(rule, faces, atr, minutes, s, exit);
    GridFirstTouch(c, faces, atr, minutes, s, exit);
    ReplayFirstTouch(timeout, faces, atr, minutes, s, exit);
  }

  // ----- the replay is the reference rule

  /** In LEGACY mode the replay with timeout T reports exactly what the reference rule (1.5, 1.5, T) reports. */
  lemma {:induction false} ReplayIsReferenceRule(
    close: seq<real>, high: seq<real>, low: seq<real>, atr: seq<Option<real>>, minutes: seq<int>, timeout: int,
    signals: seq<Signal>)
    requires |close| == |high| == |low| == |minutes|
    requires AtrKnown(signals, atr, |minutes|)
    ensures var faces := BidFaces(close, high, low);
      Greedy(ReplayAttempts(faces, atr, minutes, timeout, signals), -1) ==
      Greedy(RuleAttempts(ExitRule(Some(1.5), Some(1.5), timeout), faces, atr, minutes, signals), -1)
  {
    var faces := BidFaces(close, high, low);
    assert ReplayAttempts(faces, atr, minutes, timeout, signals) ==
      RuleAttempts(ExitRule(Some(1.5), Some(1.5), timeout), faces, atr, minutes, signals);
  }

  // ----- greedy selection commutes with row-preserving changes of the trades

  function Apply(attempt: Option<Trade>, f: Trade -> Trade): Option<Trade> {
    match attempt
    case None => None
    case Some(t) => Some(f(t))
  }

  function MapAttempts(attempts: seq<Option<Trade>>, f: Trade -> Trade): (mapped: seq<Option<Trade>>) {
    seq(|attempts|, i requires 0 <= i < |attempts| => Apply(attempts[i], f))
  }

  function MapTrades(trades: seq<Trade>, f: Trade -> Trade): (mapped: seq<Trade>)
    ensures |mapped| == |trades|
  {
    seq(|trades|, i requires 0 <= i < |trades| => f(trades[i]))
  }

  ghost predicate KeepsRows(f: Trade -> Trade) {
    forall t :: f(t).entryRow == t.entryRow && f(t).exitRow == t.exitRow
  }

  lemma {:induction false} MapAttemptsTail(attempts: seq<Option<Trade>>, f: Trade -> Trade)
    requires attempts != []
    ensures MapAttempts(attempts, f) == [Apply(attempts[0], f)] + MapAttempts(attempts[1..], f)
  {
  }

  lemma {:induction false} MapTradesCons(t: Trade, trades: seq<Trade>, f: Trade -> Trade)
    ensures MapTrades([t] + trades, f) == [f(t)] + MapTrades(trades, f)
  {
  }

  lemma {:induction false} GreedyCons(attempt: Option<Trade>, rest: seq<Option<Trade>>, busyUntil: int)
    ensures Greedy([attempt] + rest, busyUntil) ==
      if attempt.None? || attempt.value.entryRow <= busyUntil then Greedy(rest, busyUntil)
      else [attempt.value] + Greedy(rest, attempt.value.exitRow)
  {
    assert ([attempt] + rest)[1..] == rest;
  }

  lemma {:induction false} GreedyCommutes(attempts: seq<Option<Trade>>, f: Trade -> Trade, busyUntil: int)
    requires KeepsRows(f)
    ensures Greedy(MapAttempts(attempts, f), busyUntil) == MapTrades(Greedy(attempts, busyUntil), f)
  {
    if attempts != [] {
      var rest := attempts[1..];
      MapAttemptsTail(attempts, f);
      GreedyCons(Apply(attempts[0], f), MapAttempts(rest, f), busyUntil);
      if attempts[0].None? || attempts[0].value.entryRow <= busyUntil {
        GreedyCommutes(rest, f, busyUntil);
      } else {
        var t := attempts[0].value;
        GreedyCommutes(rest, f, t.exitRow);
        MapTradesCons(t, Greedy(rest, t.exitRow), f);
      }
    }
  }

  // ----- BUY and SELL are mirror images

  function Negated(prices: seq<real>): (negated: seq<real>)
    ensures |negated| == |prices|
  {
    seq(|prices|, i requires 0 <= i < |prices| => -prices[i])
  }

  /** All prices negated; highs and lows change places. */
  function MirrorFaces(faces: PriceFaces): PriceFaces {
    PriceFaces(faces.mode, Negated(faces.bidClose), Negated(faces.bidLow), Negated(faces.bidHigh), Negated(faces.askClose))
  }

  function MirrorSignals(signals: seq<Signal>): (mirrored: seq<Signal>)
    ensures |mirrored| == |signals|
  {
    seq(|signals|, i requires 0 <= i < |signals| => Signal(signals[i].row, Flip(signals[i].side)))
  }

  function MirrorTrade(t: Trade): Trade {
    t.(side := Flip(t.side))
  }

  lemma {:induction false} MirrorKeepsPath(faces: PriceFaces, minutes: seq<int>, s: Signal)
    requires Framed(faces, minutes) && s.row < |minutes| && faces.mode.LegacyBidOnly?
    ensures Framed(MirrorFaces(faces), minutes)
    ensures MirrorFaces(faces).Entry(s.row, Flip(s.side)) == -faces.Entry(s.row, s.side)
    ensures PathOf(MirrorFaces(faces), minutes, Flip(s.side), -faces.Entry(s.row, s.side)) ==
      PathOf(faces, minutes, s.side, faces.Entry(s.row, s.side))
  {
    var p := PathOf(MirrorFaces(faces), minutes, Flip(s.side), -faces.Entry(s.row, s.side));
    var q := PathOf(faces, minutes, s.side, faces.Entry(s.row, s.side));
    assert p.close == q.close;
    assert p.best == q.best;
    assert p.worst == q.worst;
  }

  lemma {:induction false} MirrorReferenceAttempt(
    rule: ExitRule, faces: PriceFaces, atr: seq<Option<real>>, minutes: seq<int>, s: Signal)
    requires Framed(faces, minutes) && faces.mode.LegacyBidOnly? && s.row < |minutes| == |atr| && atr[s.row].Some?
    requires rule.stopAtrMultiple.Some? ==> rule.takeProfitRMultiple.Some?
    ensures Framed(MirrorFaces(faces), minutes)
    ensures RuleAttempt(rule, MirrorFaces(faces), atr, minutes, Signal(s.row, Flip(s.side))) ==
      Apply(RuleAttempt(rule, faces, atr, minutes, s), MirrorTrade)
  {
    MirrorKeepsPath(faces, minutes, s);
    var entry := faces.Entry(s.row, s.side);
    assert RuleBarriers(rule, Flip(s.side), -entry, atr[s.row]) == RuleBarriers(rule, s.side, entry, atr[s.row]);
  }

  lemma {:induction false} MirrorGridBarriers(c: A1Candidate, side: Side, entry: real, atr: real)
    ensures A1Barriers(c, Flip(side), -entry, atr) == A1Barriers(c, side, entry, atr)
  {
    MirrorQuantized(side, entry, SlDistance(c, atr), TpDistance(c, atr));
  }

  lemma {:induction false} MirrorQuantized(side: Side, entry: real, sl: real, tp: real)
    ensures QuantizedBarriers(Flip(side), -entry, sl, tp) == QuantizedBarriers(side, entry, sl, tp)
  {
    var below, above := entry - Signed(side, sl), entry + Signed(side, tp);
    Rounding.QuantizeLaws(below, 0.0, 0);
    Rounding.QuantizeLaws(above, 0.0, 0);
    assert -entry - Signed(Flip(side), sl) == -below && -entry + Signed(Flip(side), tp) == -above;
  }

  lemma {:induction false} MirrorGridExit(c: A1Candidate, faces: PriceFaces, atr: real, minutes: seq<int>, s: Signal)
    requires Framed(faces, minutes) && faces.mode.LegacyBidOnly? && s.row < |minutes|
    ensures Framed(MirrorFaces(faces), minutes)
    ensures A1Exit(c, MirrorFaces(faces), atr, minutes, Signal(s.row, Flip(s.side))) ==
      A1Exit(c, faces, atr, minutes, s)
  {
    MirrorKeepsPath(faces, minutes, s);
    MirrorGridBarriers(c, s.side, faces.Entry(s.row, s.side), atr);
  }

  lemma {:induction false} MirrorGridAttempt(
    c: A1Candidate, faces: PriceFaces, atr: seq<Option<real>>, minutes: seq<int>, s: Signal)
    requires Framed(faces, minutes) && faces.mode.LegacyBidOnly? && s.row < |minutes| == |atr| && atr[s.row].Some?
    ensures Framed(MirrorFaces(faces), minutes)
    ensures A1Attempt(c, MirrorFaces(faces), atr, minutes, Signal(s.row, Flip(s.side))) ==
      Apply(A1Attempt(c, faces, atr, minutes, s), MirrorTrade)
  {
    MirrorGridExit(c, faces, atr[s.row].value, minutes, s);
  }

  /** On mirrored prices and flipped signals the reference simulator reports the very same list. */
  lemma {:induction false} ReferenceMirrors(
    rule: ExitRule, faces: PriceFaces, atr: seq<Option<real>>, minutes: seq<int>, signals: seq<Signal>)
    requires Framed(faces, minutes) && faces.mode.LegacyBidOnly? && AtrKnown(signals, atr, |minutes|)
    requires rule.stopAtrMultiple.Some? ==> rule.takeProfitRMultiple.Some?
    ensures Report(Greedy(RuleAttempts(rule, MirrorFaces(faces), atr, minutes, MirrorSignals(signals)), -1)) ==
      Report(Greedy(RuleAttempts(rule, faces, atr, minutes, signals), -1))
  {
    var attempts := RuleAttempts(rule, faces, atr, minutes, signals);
    var mirrored := RuleAttempts(rule, MirrorFaces(faces), atr, minutes, MirrorSignals(signals));
    forall i | 0 <= i < |signals|
      ensures mirrored[i] == MapAttempts(attempts, MirrorTrade)[i]
    {
      MirrorReferenceAttempt(rule, faces, atr, minutes, signals[i]);
    }
    assert mirrored == MapAttempts(attempts, MirrorTrade);
    GreedyCommutes(attempts, MirrorTrade, -1);
  }

  /** In LEGACY mode the grid simulator takes the same trades on the other side, quantisation included. */
  lemma {:induction false} GridMirrors(
    c: A1Candidate, faces: PriceFaces, atr: seq<Option<real>>, minutes: seq<int>, signals: seq<Signal>)
    requires Framed(faces, minutes) && faces.mode.LegacyBidOnly? && AtrKnown(signals, atr, |minutes|)
    ensures Greedy(A1Attempts(c, MirrorFaces(faces), atr, minutes, MirrorSignals(signals)), -1) ==
      MapTrades(Greedy(A1Attempts(c, faces, atr, minutes, signals), -1), MirrorTrade)
  {
    var attempts := A1Attempts(c, faces, atr, minutes, signals);
    var mirrored := A1Attempts(c, MirrorFaces(faces), atr, minutes, MirrorSignals(signals));
    forall i | 0 <= i < |signals|
      ensures mirrored[i] == MapAttempts(attempts, MirrorTrade)[i]
    {
      MirrorGridAttempt(c, faces, atr, minutes, signals[i]);
    }
    assert mirrored == MapAttempts(attempts, MirrorTrade);
    GreedyCommutes(attempts, MirrorTrade, -1);
  }

  // ----- a real spread never helps

  ghost predicate SpreadsNonNegative(faces: PriceFaces)
    requires faces.Shaped()
  {
    |faces.askClose| == |faces.bidClose| && forall k :: 0 <= k < |faces.bidClose| ==> faces.bidClose[k] <= faces.askClose[k]
  }

  lemma {:induction false} SpreadDominates(faces: PriceFaces, minutes: seq<int>, s: Signal)
    requires Framed(faces, minutes) && s.row < |minutes| && SpreadsNonNegative(faces)
    ensures var bidAsk, legacy := faces.(mode := BidAskM1), faces.(mode := LegacyBidOnly);
      PathLaws.Dominated(
        PathOf(bidAsk, minutes, s.side, bidAsk.Entry(s.row, s.side)),
        PathOf(legacy, minutes, s.side, legacy.Entry(s.row, s.side)), s.row)
  {
  }

  /** Unquantised barriers lie at the same gains whatever the entry. */
  lemma {:induction false} PlainBarriers(side: Side, entry: real, atr: real)
    ensures ReplayBarriers(side, entry, atr) == Barriers(-1.5 * atr, 1.5 * atr * 1.5)
  {
  }

  /** At one signal the replay never earns more on BID/ASK prices than on BID prices alone. */
  lemma {:induction false} SpreadNeverHelps(
    faces: PriceFaces, atr: seq<Option<real>>, minutes: seq<int>, timeout: int, s: Signal)
    requires Framed(faces, minutes) && s.row < |minutes| == |atr| && atr[s.row].Some? && atr[s.row].value >= 0.0
    requires faces.Bounded() && SpreadsNonNegative(faces)
    ensures
      var bidAsk := ReplayAttempt(faces.(mode := BidAskM1), atr, minutes, timeout, s);
      var legacy := ReplayAttempt(faces.(mode := LegacyBidOnly), atr, minutes, timeout, s);
      && (bidAsk.Some? && legacy.Some? ==> bidAsk.value.rawPips <= legacy.value.rawPips)
      && (bidAsk.None? && legacy.Some? ==> legacy.value.rawPips == 2.25 * atr[s.row].value / PIP)
  {
    var bidAsk, legacy := faces.(mode := BidAskM1), faces.(mode := LegacyBidOnly);
    var p := PathOf(bidAsk, minutes, s.side, bidAsk.Entry(s.row, s.side));
    var q := PathOf(legacy, minutes, s.side, legacy.Entry(s.row, s.side));
    PathLaws.PathOfIsBounded(bidAsk, minutes, s.side, bidAsk.Entry(s.row, s.side));
    PathLaws.PathOfIsBounded(legacy, minutes, s.side, legacy.Entry(s.row, s.side));
    SpreadDominates(faces, minutes, s);
    var d := 1.5 * atr[s.row].value;
    PlainBarriers(s.side, bidAsk.Entry(s.row, s.side), atr[s.row].value);
    PlainBarriers(s.side, legacy.Entry(s.row, s.side), atr[s.row].value);
    PathLaws.DominatedNeverEndsBetter(p, q, Barriers(-d, d * 1.5), minutes[s.row] + timeout, s.row + 1);
  }

  /** The row at which a time exit pays the spread: the entry of a BUY, the exit of a SELL. */
  function SpreadRow(t: Trade): nat {
    if t.side.Buy? then t.entryRow else t.exitRow
  }

  function PaySpread(faces: PriceFaces, t: Trade): Trade {
    if |faces.askClose| == |faces.bidClose| && SpreadRow(t) < |faces.bidClose| then
      t.(rawPips := t.rawPips - (faces.askClose[SpreadRow(t)] - faces.bidClose[SpreadRow(t)]) / PIP)
    else t
  }

  /** The two price modes of A0 take the same rows, and each trade differs by exactly one spread. */
  lemma {:induction false} A0PaysOneSpread(faces: PriceFaces, minutes: seq<int>, signals: seq<Signal>)
    requires Framed(faces, minutes) && InRange(signals, |minutes|) && |faces.askClose| == |faces.bidClose|
    ensures Greedy(A0Attempts(faces.(mode := BidAskM1), minutes, signals), -1) ==
      MapTrades(
        Greedy(A0Attempts(faces.(mode := LegacyBidOnly), minutes, signals), -1), (t: Trade) => PaySpread(faces, t))
  {
    var f := (t: Trade) => PaySpread(faces, t);
    assert A0Attempts(faces.(mode := BidAskM1), minutes, signals) ==
      MapAttempts(A0Attempts(faces.(mode := LegacyBidOnly), minutes, signals), f);
    GreedyCommutes(A0Attempts(faces.(mode := LegacyBidOnly), minutes, signals), f, -1);
  }
}
