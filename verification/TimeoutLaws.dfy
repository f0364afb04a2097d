/** The bare 30-minute exit A0 against the reference simulator under its 30-minute rule. */
module TimeoutLaws {
  import opened Wrappers
  import opened ExitEngine
  import opened Simulators
  import opened SimulatorLaws

  /** Thirty minutes fixed, neither stop nor target. */
  const THIRTY_MINUTE_RULE := ExitRule(None, None, 30)

  /** Drop the reports held for no time at all. */
  function KeepHeld(reports: seq<RuleTrade>): seq<RuleTrade> {
    if reports == [] then []
    else if reports[0].holdMinutes == 0 then KeepHeld(reports[1..])
    else [reports[0]] + KeepHeld(reports[1..])
  }

  /** The A0 trade and the reference report are the same holding, the fixed spread cost added back. */
  predicate Restores(t: Trade, r: RuleTrade) {
    t.entryRow == r.entryRow && t.rawPips == r.netPips + SPREAD_PIPS && t.holdMinutes == r.holdMinutes
  }

  /** `trades` are the `kept` reports, followed by at most one trade that ends on row `last`. */
  ghost predicate ExtendsByAtMostOne(trades: seq<Trade>, kept: seq<RuleTrade>, last: int) {
    && |kept| <= |trades| <= |kept| + 1
    && (forall i :: 0 <= i < |kept| ==> Restores(trades[i], kept[i]))
    && (|trades| == |kept| + 1 ==> trades[|kept|].exitRow == last)
  }

  /** How the two simulators' attempts at one signal compare on `n` rows. */
  ghost predicate Matched(a: Option<Trade>, r: Option<Trade>, s: Signal, n: int) {
    && (a.Some? ==> a.value.entryRow == s.row < a.value.exitRow)
    && match r
       case None => (a.Some? <==> s.row < n - 1) && (a.Some? ==> a.value.exitRow == n - 1)
       case Some(t) =>
         && t.entryRow == s.row <= t.exitRow
         && (t.holdMinutes == 0 <==> t.exitRow == s.row)
         && a == (if t.exitRow == s.row then None else Some(t))
  }

  lemma {:induction false} BareWalk(path: Path, deadline: int, k: nat)
    requires path.Shaped() && 0 < k <= |path.minutes|
    ensures var row := LastHeld(path.minutes, deadline, k);
      var exit := FirstExit(path, NoBarriers, deadline, k);
      && (exit.Some? ==> exit.value == Exit(row, path.close[row]))
      && (exit.None? ==> row == |path.minutes| - 1 && forall j :: k <= j < |path.minutes| ==> path.minutes[j] <= deadline)
    decreases |path.minutes| - k
  {
    if k < |path.minutes| && path.minutes[k] <= deadline {
      BareWalk(path, deadline, k + 1);
    }
  }

  lemma {:induction false} AttemptsMatch(faces: PriceFaces, atr: seq<Option<real>>, minutes: seq<int>, s: Signal)
    requires Framed(faces, minutes) && Increasing(minutes) && s.row < |minutes| == |atr|
    ensures Matched(
      A0Attempt(faces, minutes, s), RuleAttempt(THIRTY_MINUTE_RULE, faces, atr, minutes, s), s, |minutes|)
    ensures RuleAttempt(THIRTY_MINUTE_RULE, faces, atr, minutes, s).None? <==>
      minutes[|minutes| - 1] <= minutes[s.row] + 30
  {
    var path := PathOf(faces, minutes, s.side, faces.Entry(s.row, s.side));
    var deadline := minutes[s.row] + 30;
    BareWalk(path, deadline, s.row + 1);
    LastHeldWithinDeadline(minutes, deadline, s.row + 1);
    if RuleAttempt(THIRTY_MINUTE_RULE, faces, atr, minutes, s).Some? {
      ExpiredBeforeLast(path, deadline, s.row + 1);
    }
  }

  lemma {:induction false} ExpiredBeforeLast(path: Path, deadline: int, k: nat)
    requires path.Shaped() && 0 < k <= |path.minutes| && Increasing(path.minutes)
    requires FirstExit(path, NoBarriers, deadline, k).Some?
    ensures path.minutes[|path.minutes| - 1] > deadline
    decreases |path.minutes| - k
  {
    if path.minutes[k] <= deadline {
      ExpiredBeforeLast(path, deadline, k + 1);
    }
  }

  /** Once the data ends inside a holding, the reference simulator closes nothing more. */
  ghost predicate RunsOffOnce(rule: seq<Option<Trade>>) {
    forall i, j :: 0 <= i < j < |rule| && rule[i].None? ==> rule[j].None?
  }

  lemma {:induction false} NothingMore(rule: seq<Option<Trade>>, busyUntil: int)
    requires forall i :: 0 <= i < |rule| ==> rule[i].None?
    ensures Greedy(rule, busyUntil) == []
  {
    if rule != [] {
      NothingMore(rule[1..], busyUntil);
    }
  }

  lemma {:induction false} BusyToTheEnd(bare: seq<Option<Trade>>, busyUntil: int)
    requires forall i :: 0 <= i < |bare| && bare[i].Some? ==> bare[i].value.entryRow <= busyUntil
    ensures Greedy(bare, busyUntil) == []
  {
    if bare != [] {
      BusyToTheEnd(bare[1..], busyUntil);
    }
  }

  lemma {:induction false} KeptAfter(t: Trade, later: seq<Trade>)
    ensures KeepHeld(Report([t] + later)) ==
      if t.holdMinutes == 0 then KeepHeld(Report(later))
      else [RuleTrade(t.entryRow, t.rawPips - SPREAD_PIPS, t.holdMinutes)] + KeepHeld(Report(later))
  {
    assert Report([t] + later)[1..] == Report(later);
  }

  lemma {:induction false} ExtendsAfter(t: Trade, trades: seq<Trade>, kept: seq<RuleTrade>, last: int)
    requires ExtendsByAtMostOne(trades, kept, last)
    ensures ExtendsByAtMostOne(
      [t] + trades, [RuleTrade(t.entryRow, t.rawPips - SPREAD_PIPS, t.holdMinutes)] + kept, last)
  {
  }

  /** Signal by signal, the attempts of the two simulators match. */
  ghost predicate AllMatched(bare: seq<Option<Trade>>, rule: seq<Option<Trade>>, signals: seq<Signal>, n: int) {
    && |bare| == |rule| == |signals|
    && forall i :: 0 <= i < |signals| ==> signals[i].row < n && Matched(bare[i], rule[i], signals[i], n)
  }

  lemma {:induction false} MatchedTail(bare: seq<Option<Trade>>, rule: seq<Option<Trade>>, signals: seq<Signal>, n: int)
    requires AllMatched(bare, rule, signals, n) && RowsIncrease(signals) && RunsOffOnce(rule) && signals != []
    ensures AllMatched(bare[1..], rule[1..], signals[1..], n) && RowsIncrease(signals[1..]) && RunsOffOnce(rule[1..])
    ensures forall i :: 0 <= i < |signals[1..]| ==> signals[0].row < signals[1..][i].row
  {
  }

  lemma {:induction false} SelectionsMatch(
    bare: seq<Option<Trade>>, rule: seq<Option<Trade>>, signals: seq<Signal>, n: int, bareBusy: int, ruleBusy: int)
    requires AllMatched(bare, rule, signals, n) && RowsIncrease(signals) && RunsOffOnce(rule)
    requires forall i :: 0 <= i < |signals| ==> (signals[i].row <= bareBusy <==> signals[i].row <= ruleBusy)
    ensures ExtendsByAtMostOne(Greedy(bare, bareBusy), KeepHeld(Report(Greedy(rule, ruleBusy))), n - 1)
  {
    if signals != [] {
      assert Matched(bare[0], rule[0], signals[0], n);
      MatchedTail(bare, rule, signals, n);
      if signals[0].row <= bareBusy {
        SelectionsMatch(bare[1..], rule[1..], signals[1..], n, bareBusy, ruleBusy);
      } else if rule[0].None? {
        NothingMore(rule, ruleBusy);
        if bare[0].Some? {
          BusyToTheEnd(bare[1..], n - 1);
        } else {
          SelectionsMatch(bare[1..], rule[1..], signals[1..], n, bareBusy, ruleBusy);
        }
      } else {
        var t := rule[0].value;
        KeptAfter(t, Greedy(rule[1..], t.exitRow));
        if bare[0].Some? {
          SelectionsMatch(bare[1..], rule[1..], signals[1..], n, t.exitRow, t.exitRow);
          ExtendsAfter(t, Greedy(bare[1..], t.exitRow), KeepHeld(Report(Greedy(rule[1..], t.exitRow))), n - 1);
        } else {
          SelectionsMatch(bare[1..], rule[1..], signals[1..], n, bareBusy, t.exitRow);
        }
      }
    }
  }

  /**
    On BID prices and strictly increasing minutes, A0 takes exactly the reference simulator's 30-minute
    holdings that last any time, with the 0.5 pip put back, and then at most one cut off by the end of data.
   */
  lemma {:induction false} A0IsTheThirtyMinuteRule(
    close: seq<real>, high: seq<real>, low: seq<real>, atr: seq<Option<real>>, minutes: seq<int>, signals: seq<Signal>)
    requires |close| == |high| == |low| == |minutes| == |atr|
    requires InRange(signals, |minutes|) && Increasing(minutes) && RowsIncrease(signals)
    ensures var faces := BidFaces(close, high, low);
      ExtendsByAtMostOne(
        Greedy(A0Attempts(faces, minutes, signals), -1),
        KeepHeld(Report(Greedy(RuleAttempts(THIRTY_MINUTE_RULE, faces, atr, minutes, signals), -1))),
        |minutes| - 1)
  {
    var faces := BidFaces(close, high, low);
    var bare := A0Attempts(faces, minutes, signals);
    var rule := RuleAttempts(THIRTY_MINUTE_RULE, faces, atr, minutes, signals);
    forall i | 0 <= i < |signals|
      ensures Matched(bare[i], rule[i], signals[i], |minutes|)
      ensures rule[i].None? <==> minutes[|minutes| - 1] <= minutes[signals[i].row] + 30
    {
      AttemptsMatch(faces, atr, minutes, signals[i]);
    }
    SelectionsMatch(bare, rule, signals, |minutes|, -1, -1);
  }
}
