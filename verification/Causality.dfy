/**
  What more data does to a list of trades. A closed attempt never changes; but an attempt still open at the
  end of the data may close later, and then takes the place of trades already reported.
 */
module Causality {
  import opened Wrappers
  import opened ExitEngine
  import opened Simulators
  import SimulatorLaws
  import PathLaws
  import TimeoutLaws

  // ----- the three simulators on one kind of input

  /** The simulators that drop a trade the data cuts off. */
  datatype Simulator = Reference(rule: ExitRule) | Grid(candidate: A1Candidate) | Replay(timeout: int) {
    predicate WellFormed() {
      Reference? && rule.stopAtrMultiple.Some? ==> rule.takeProfitRMultiple.Some?
    }

    function HoldMinutes(): int {
      match this
      case Reference(rule) => rule.timeoutMinutes
      case Grid(_) => A1_MAX_HOLD_MINUTES
      case Replay(timeout) => timeout
    }

    function BarriersFor(side: Side, entry: real, atr: real): Barriers
      requires WellFormed()
    {
      match this
      case Reference(rule) => RuleBarriers(rule, side, entry, Some(atr))
      case Grid(candidate) => A1Barriers(candidate, side, entry, atr)
      case Replay(_) => ReplayBarriers(side, entry, atr)
    }

    /** Whether the grid's common_R was held at its floor, and at its cap. */
    function Clamped(atr: real): (bool, bool) {
      if Grid? then (CommonRPips(atr).floorClamped, CommonRPips(atr).capClamped) else (false, false)
    }
  }

  /** A frame, its ATR column and its signals. */
  datatype Feed = Feed(faces: PriceFaces, atr: seq<Option<real>>, minutes: seq<int>, signals: seq<Signal>) {
    ghost predicate Valid() {
      && Framed(faces, minutes) && AtrKnown(signals, atr, |minutes|)
      && SimulatorLaws.Increasing(minutes) && SimulatorLaws.RowsIncrease(signals)
    }

    /** The same rows, followed by more; the same signals, followed by signals at the new rows. */
    ghost predicate Continues(later: Feed) {
      && faces.mode == later.faces.mode && faces.bidClose <= later.faces.bidClose
      && faces.bidHigh <= later.faces.bidHigh && faces.bidLow <= later.faces.bidLow
      && (faces.mode.BidAskM1? ==> faces.askClose <= later.faces.askClose)
      && atr <= later.atr && minutes <= later.minutes && signals <= later.signals
      && forall i :: |signals| <= i < |later.signals| ==> later.signals[i].row >= |minutes|
    }
  }

  function AttemptAt(sim: Simulator, feed: Feed, s: Signal): (attempt: Option<Trade>)
    requires sim.WellFormed() && Framed(feed.faces, feed.minutes)
    requires s.row < |feed.minutes| == |feed.atr| && feed.atr[s.row].Some?
    ensures attempt.Some? ==> attempt.value.entryRow == s.row
  {
    match sim
    case Reference(rule) => RuleAttempt(rule, feed.faces, feed.atr, feed.minutes, s)
    case Grid(candidate) => A1Attempt(candidate, feed.faces, feed.atr, feed.minutes, s)
    case Replay(timeout) => ReplayAttempt(feed.faces, feed.atr, feed.minutes, timeout, s)
  }

  function Attempts(sim: Simulator, feed: Feed): (attempts: seq<Option<Trade>>)
    requires sim.WellFormed() && Framed(feed.faces, feed.minutes) && AtrKnown(feed.signals, feed.atr, |feed.minutes|)
    ensures |attempts| == |feed.signals|
  {
    seq(|feed.signals|, i requires 0 <= i < |feed.signals| => AttemptAt(sim, feed, feed.signals[i]))
  }

  /** The list a simulator returns. */
  function Trades(sim: Simulator, feed: Feed): seq<Trade>
    requires sim.WellFormed() && Framed(feed.faces, feed.minutes) && AtrKnown(feed.signals, feed.atr, |feed.minutes|)
  {
    Greedy(Attempts(sim, feed), -1)
  }

  /** It is the list each of the three loops was proved to return. */
  lemma {:induction false} TradesAreReturned(sim: Simulator, feed: Feed)
    requires sim.WellFormed() && Framed(feed.faces, feed.minutes) && AtrKnown(feed.signals, feed.atr, |feed.minutes|)
    ensures Trades(sim, feed) == match sim
      case Reference(rule) => Greedy(RuleAttempts(rule, feed.faces, feed.atr, feed.minutes, feed.signals), -1)
      case Grid(c) => Greedy(A1Attempts(c, feed.faces, feed.atr, feed.minutes, feed.signals), -1)
      case Replay(timeout) => Greedy(ReplayAttempts(feed.faces, feed.atr, feed.minutes, timeout, feed.signals), -1)
  {
    match sim
    case Reference(rule) =>
      assert Attempts(sim, feed) == RuleAttempts(rule, feed.faces, feed.atr, feed.minutes, feed.signals);
    case Grid(c) =>
      assert Attempts(sim, feed) == A1Attempts(c, feed.faces, feed.atr, feed.minutes, feed.signals);
    case Replay(timeout) =>
      assert Attempts(sim, feed) == ReplayAttempts(feed.faces, feed.atr, feed.minutes, timeout, feed.signals);
  }

  // ----- one attempt

  function WalkOf(feed: Feed, s: Signal): (path: Path)
    requires Framed(feed.faces, feed.minutes) && s.row < |feed.minutes|
    ensures path.Shaped() && path.minutes == feed.minutes
  {
    PathOf(feed.faces, feed.minutes, s.side, feed.faces.Entry(s.row, s.side))
  }

  function BarriersOf(sim: Simulator, feed: Feed, s: Signal): Barriers
    requires sim.WellFormed() && Framed(feed.faces, feed.minutes)
    requires s.row < |feed.minutes| == |feed.atr| && feed.atr[s.row].Some?
  {
    sim.BarriersFor(s.side, feed.faces.Entry(s.row, s.side), feed.atr[s.row].value)
  }

  function ExitOf(sim: Simulator, feed: Feed, s: Signal): Option<Exit>
    requires sim.WellFormed() && Framed(feed.faces, feed.minutes)
    requires s.row < |feed.minutes| == |feed.atr| && feed.atr[s.row].Some?
  {
    FirstExit(WalkOf(feed, s), BarriersOf(sim, feed, s), feed.minutes[s.row] + sim.HoldMinutes(), s.row + 1)
  }

  lemma {:induction false} AttemptFromExit(sim: Simulator, feed: Feed, s: Signal)
    requires sim.WellFormed() && Framed(feed.faces, feed.minutes)
    requires s.row < |feed.minutes| == |feed.atr| && feed.atr[s.row].Some?
    ensures var exit, clamped := ExitOf(sim, feed, s), sim.Clamped(feed.atr[s.row].value);
      && (exit.Some? ==> s.row <= exit.value.row < |feed.minutes|)
      && AttemptAt(sim, feed, s) == Settle(s, exit, feed.minutes, clamped.0, clamped.1)
  {
    FirstExitInRange(
      WalkOf(feed, s), BarriersOf(sim, feed, s), feed.minutes[s.row] + sim.HoldMinutes(), s.row + 1);
    match sim
    case Reference(_) =>
    case Grid(_) =>
    case Replay(_) =>
  }

  lemma {:induction false} WalkContinues(feed: Feed, later: Feed, s: Signal)
    requires Framed(feed.faces, feed.minutes) && Framed(later.faces, later.minutes) && feed.Continues(later)
    requires s.row < |feed.minutes|
    ensures later.faces.Entry(s.row, s.side) == feed.faces.Entry(s.row, s.side)
    ensures PathLaws.Extends(WalkOf(later, s), WalkOf(feed, s))
  {
  }

  lemma {:induction false} SameBarriers(sim: Simulator, feed: Feed, later: Feed, s: Signal)
    requires sim.WellFormed() && Framed(feed.faces, feed.minutes) && Framed(later.faces, later.minutes)
    requires feed.Continues(later) && s.row < |feed.minutes| == |feed.atr| && |later.minutes| == |later.atr|
    requires feed.atr[s.row].Some?
    ensures later.atr[s.row] == feed.atr[s.row] && later.minutes[s.row] == feed.minutes[s.row]
    ensures BarriersOf(sim, later, s) == BarriersOf(sim, feed, s)
  {
    WalkContinues(feed, later, s);
  }

  /** An exit found stays. */
  lemma {:induction false} ExitIsFinal(sim: Simulator, feed: Feed, later: Feed, s: Signal)
    requires sim.WellFormed() && Framed(feed.faces, feed.minutes) && Framed(later.faces, later.minutes)
    requires feed.Continues(later) && s.row < |feed.minutes| == |feed.atr| && |later.minutes| == |later.atr|
    requires feed.atr[s.row].Some? && ExitOf(sim, feed, s).Some?
    ensures ExitOf(sim, later, s) == ExitOf(sim, feed, s)
  {
    WalkContinues(feed, later, s);
    SameBarriers(sim, feed, later, s);
    PathLaws.ExitsAreFinal(
      WalkOf(feed, s), WalkOf(later, s), BarriersOf(sim, feed, s), feed.minutes[s.row] + sim.HoldMinutes(), s.row + 1);
  }

  /** What a signal is given depends on its exit alone, and on the ATR of its row. */
  lemma {:induction false} SameExitSameAttempt(sim: Simulator, feed: Feed, later: Feed, s: Signal)
    requires sim.WellFormed() && Framed(feed.faces, feed.minutes) && Framed(later.faces, later.minutes)
    requires feed.Continues(later) && s.row < |feed.minutes| == |feed.atr| && |later.minutes| == |later.atr|
    requires feed.atr[s.row].Some?
    requires ExitOf(sim, feed, s).Some? && ExitOf(sim, later, s) == ExitOf(sim, feed, s)
    ensures AttemptAt(sim, later, s) == AttemptAt(sim, feed, s)
  {
    SameBarriers(sim, feed, later, s);
    AttemptFromExit(sim, feed, s);
    AttemptFromExit(sim, later, s);
    var e := ExitOf(sim, feed, s).value;
    assert later.minutes[e.row] == feed.minutes[e.row];
  }

  /** An attempt closed on the first rows is closed the same way on all of them. */
  lemma {:induction false} AttemptIsFinal(sim: Simulator, feed: Feed, later: Feed, s: Signal)
    requires sim.WellFormed() && Framed(feed.faces, feed.minutes) && Framed(later.faces, later.minutes)
    requires feed.Continues(later) && s.row < |feed.minutes| == |feed.atr| && |later.minutes| == |later.atr|
    requires feed.atr[s.row].Some? && AttemptAt(sim, feed, s).Some?
    ensures later.atr[s.row].Some? && AttemptAt(sim, later, s) == AttemptAt(sim, feed, s)
  {
    SameBarriers(sim, feed, later, s);
    AttemptFromExit(sim, feed, s);
    ExitIsFinal(sim, feed, later, s);
    SameExitSameAttempt(sim, feed, later, s);
  }

  // ----- two lists of attempts, the second with more known

  /** `late` knows at least what `early` knows about its signals, and then goes on with later ones. */
  ghost predicate KnowsMore(early: seq<Option<Trade>>, late: seq<Option<Trade>>, signals: seq<Signal>) {
    && |early| == |signals| <= |late| && SimulatorLaws.RowsIncrease(signals)
    && (forall i :: 0 <= i < |early| && early[i].Some? ==> late[i] == early[i])
    && (forall i :: 0 <= i < |early| && late[i].Some? ==> late[i].value.entryRow == signals[i].row)
  }

  lemma {:induction false} KnowsMoreTail(early: seq<Option<Trade>>, late: seq<Option<Trade>>, signals: seq<Signal>)
    requires KnowsMore(early, late, signals) && early != []
    ensures KnowsMore(early[1..], late[1..], signals[1..])
  {
  }

  /** The first signal that is free to trade and not closed; the number of signals when there is none. */
  function FirstOpen(early: seq<Option<Trade>>, signals: seq<Signal>, busyUntil: int): (k: nat)
    requires |early| == |signals|
    ensures k <= |early|
  {
    if early == [] then 0
    else if signals[0].row <= busyUntil then 1 + FirstOpen(early[1..], signals[1..], busyUntil)
    else match early[0]
      case None => 0
      case Some(t) => 1 + FirstOpen(early[1..], signals[1..], t.exitRow)
  }

  /** The first such signal that does close later. */
  function FirstTaken(
    early: seq<Option<Trade>>, late: seq<Option<Trade>>, signals: seq<Signal>, busyUntil: int): (k: nat)
    requires |early| == |signals| <= |late|
    ensures k <= |early|
  {
    if early == [] then 0
    else if signals[0].row <= busyUntil then 1 + FirstTaken(early[1..], late[1..], signals[1..], busyUntil)
    else match early[0]
      case Some(t) => 1 + FirstTaken(early[1..], late[1..], signals[1..], t.exitRow)
      case None => if late[0].Some? then 0 else 1 + FirstTaken(early[1..], late[1..], signals[1..], busyUntil)
  }

  lemma {:induction false} FirstTakenIsOpen(
    early: seq<Option<Trade>>, late: seq<Option<Trade>>, signals: seq<Signal>, busyUntil: int)
    requires |early| == |signals| <= |late|
    ensures FirstOpen(early, signals, busyUntil) <= FirstTaken(early, late, signals, busyUntil)
  {
    if early != [] {
      if signals[0].row <= busyUntil || early[0].None? {
        FirstTakenIsOpen(early[1..], late[1..], signals[1..], busyUntil);
      } else {
        FirstTakenIsOpen(early[1..], late[1..], signals[1..], early[0].value.exitRow);
      }
    }
  }

  lemma {:induction false} GreedyTake(attempts: seq<Option<Trade>>, k: nat, busyUntil: int)
    requires 0 < k <= |attempts|
    ensures Greedy(attempts[..k], busyUntil) ==
      if attempts[0].None? || attempts[0].value.entryRow <= busyUntil then Greedy(attempts[1..][..k - 1], busyUntil)
      else [attempts[0].value] + Greedy(attempts[1..][..k - 1], attempts[0].value.exitRow)
  {
    assert attempts[..k][1..] == attempts[1..][..k - 1];
  }

  lemma {:induction false} PrefixAfter(t: Trade, a: seq<Trade>, b: seq<Trade>)
    ensures [t] + a <= [t] + b <==> a <= b
    ensures [t] + a == [t] + b <==> a == b
  {
    assert ([t] + a)[1..] == a && ([t] + b)[1..] == b;
  }

  /** Up to the first open signal, both lists take the same trades. */
  lemma {:induction false} SameUpTo(
    early: seq<Option<Trade>>, late: seq<Option<Trade>>, signals: seq<Signal>, busyUntil: int, k: nat)
    requires KnowsMore(early, late, signals) && k <= FirstTaken(early, late, signals, busyUntil)
    ensures Greedy(early[..k], busyUntil) <= Greedy(early, busyUntil)
    ensures Greedy(early[..k], busyUntil) <= Greedy(late, busyUntil)
  {
    if k > 0 {
      KnowsMoreTail(early, late, signals);
      GreedyTake(early, k, busyUntil);
      var rest := early[1..];
      if signals[0].row <= busyUntil || early[0].None? {
        SameUpTo(rest, late[1..], signals[1..], busyUntil, k - 1);
      } else {
        var t := early[0].value;
        SameUpTo(rest, late[1..], signals[1..], t.exitRow, k - 1);
        PrefixAfter(t, Greedy(rest[..k - 1], t.exitRow), Greedy(rest, t.exitRow));
        PrefixAfter(t, Greedy(rest[..k - 1], t.exitRow), Greedy(late[1..], t.exitRow));
      }
    }
  }

  lemma {:induction false} HeadIsLater(attempts: seq<Option<Trade>>, signals: seq<Signal>, busyUntil: int, row: int)
    requires |attempts| == |signals|
    requires forall i :: 0 <= i < |attempts| && attempts[i].Some? ==>
      attempts[i].value.entryRow == signals[i].row && signals[i].row > row
    ensures Greedy(attempts, busyUntil) != [] ==> Greedy(attempts, busyUntil)[0].entryRow > row
  {
    if attempts != [] && (attempts[0].None? || attempts[0].value.entryRow <= busyUntil) {
      HeadIsLater(attempts[1..], signals[1..], busyUntil, row);
    }
  }

  /**
    The early list survives as the beginning of the late one exactly when it took nothing after the first
    open signal that closes later.
   */
  lemma {:induction false} SurvivesIff(
    early: seq<Option<Trade>>, late: seq<Option<Trade>>, signals: seq<Signal>, busyUntil: int)
    requires KnowsMore(early, late, signals)
    ensures var k := FirstTaken(early, late, signals, busyUntil);
      Greedy(early, busyUntil) <= Greedy(late, busyUntil) <==> Greedy(early, busyUntil) == Greedy(early[..k], busyUntil)
  {
    var k := FirstTaken(early, late, signals, busyUntil);
    if early == [] {
      assert early[..k] == early;
    } else if signals[0].row > busyUntil && early[0].None? && late[0].Some? {
      TakenFirst(early, late, signals, busyUntil);
    } else {
      KnowsMoreTail(early, late, signals);
      GreedyTake(early, k, busyUntil);
      var rest := early[1..];
      if signals[0].row <= busyUntil || early[0].None? {
        SurvivesIff(rest, late[1..], signals[1..], busyUntil);
      } else {
        var t := early[0].value;
        SurvivesIff(rest, late[1..], signals[1..], t.exitRow);
        PrefixAfter(t, Greedy(rest, t.exitRow), Greedy(late[1..], t.exitRow));
        PrefixAfter(t, Greedy(rest, t.exitRow), Greedy(rest[..k - 1], t.exitRow));
      }
    }
  }

  lemma {:induction false} TakenFirst(
    early: seq<Option<Trade>>, late: seq<Option<Trade>>, signals: seq<Signal>, busyUntil: int)
    requires KnowsMore(early, late, signals) && early != []
    requires signals[0].row > busyUntil && early[0].None? && late[0].Some?
    ensures Greedy(early, busyUntil) <= Greedy(late, busyUntil) <==> Greedy(early, busyUntil) == []
  {
    forall i | 0 <= i < |early[1..]| && early[1..][i].Some?
      ensures early[1..][i].value.entryRow == signals[1..][i].row && signals[1..][i].row > signals[0].row
    {
      assert late[i + 1] == early[i + 1];
    }
    HeadIsLater(early[1..], signals[1..], busyUntil, signals[0].row);
    assert Greedy(late, busyUntil)[0] == late[0].value;
  }

  // ----- the lists two feeds give

  lemma {:induction false} LaterKnowsMore(sim: Simulator, feed: Feed, later: Feed)
    requires sim.WellFormed() && feed.Valid() && later.Valid() && feed.Continues(later)
    ensures KnowsMore(Attempts(sim, feed), Attempts(sim, later), feed.signals)
  {
    var early, late := Attempts(sim, feed), Attempts(sim, later);
    forall i | 0 <= i < |early|
      ensures early[i].Some? ==> late[i] == early[i]
      ensures late[i].Some? ==> late[i].value.entryRow == feed.signals[i].row
    {
      assert later.signals[i] == feed.signals[i];
      if early[i].Some? {
        AttemptIsFinal(sim, feed, later, feed.signals[i]);
      }
    }
  }

  /** How many signals come before the first that is free to trade and that the data leaves open. */
  function OpenFrom(sim: Simulator, feed: Feed): (k: nat)
    requires sim.WellFormed() && Framed(feed.faces, feed.minutes) && AtrKnown(feed.signals, feed.atr, |feed.minutes|)
    ensures k <= |feed.signals|
  {
    FirstOpen(Attempts(sim, feed), feed.signals, -1)
  }

  /** The trades reported before the first open signal. */
  function SettledTrades(sim: Simulator, feed: Feed): seq<Trade>
    requires sim.WellFormed() && Framed(feed.faces, feed.minutes) && AtrKnown(feed.signals, feed.atr, |feed.minutes|)
  {
    Greedy(Attempts(sim, feed)[..OpenFrom(sim, feed)], -1)
  }

  /** Whatever the future brings, the trades before the first open signal begin both lists. */
  lemma {:induction false} SettledTradesStay(sim: Simulator, feed: Feed, later: Feed)
    requires sim.WellFormed() && feed.Valid() && later.Valid() && feed.Continues(later)
    ensures SettledTrades(sim, feed) <= Trades(sim, feed) && SettledTrades(sim, feed) <= Trades(sim, later)
  {
    LaterKnowsMore(sim, feed, later);
    FirstTakenIsOpen(Attempts(sim, feed), Attempts(sim, later), feed.signals, -1);
    SameUpTo(Attempts(sim, feed), Attempts(sim, later), feed.signals, -1, OpenFrom(sim, feed));
  }

  /** The list survives a given future exactly when it holds nothing after the first open signal that future closes. */
  lemma {:induction false} ListSurvivesIff(sim: Simulator, feed: Feed, later: Feed)
    requires sim.WellFormed() && feed.Valid() && later.Valid() && feed.Continues(later)
    ensures Trades(sim, feed) <= Trades(sim, later) <==>
      Trades(sim, feed) ==
        Greedy(Attempts(sim, feed)[..FirstTaken(Attempts(sim, feed), Attempts(sim, later), feed.signals, -1)], -1)
  {
    LaterKnowsMore(sim, feed, later);
    SurvivesIff(Attempts(sim, feed), Attempts(sim, later), feed.signals, -1);
  }

  // ----- a future that closes everything

  function Appended(prices: seq<real>): seq<real> {
    if prices == [] then [0.0] else prices + [prices[|prices| - 1]]
  }

  /** One more bar, at a minute past every deadline so far that matters. */
  function OneBarOn(feed: Feed, minute: int): Feed {
    Feed(
      PriceFaces(feed.faces.mode, Appended(feed.faces.bidClose), Appended(feed.faces.bidHigh),
        Appended(feed.faces.bidLow), if feed.faces.mode.BidAskM1? then Appended(feed.faces.askClose) else []),
      feed.atr + [None], feed.minutes + [minute], feed.signals)
  }

  lemma {:induction false} OneBarContinues(feed: Feed, minute: int)
    requires feed.Valid() && feed.minutes != [] && minute > feed.minutes[|feed.minutes| - 1]
    ensures OneBarOn(feed, minute).Valid() && feed.Continues(OneBarOn(feed, minute))
  {
    var later := OneBarOn(feed, minute);
    forall i | 0 <= i < |later.signals|
      ensures later.signals[i].row < |later.minutes| && later.atr[later.signals[i].row].Some?
    {
      assert feed.signals[i].row < |feed.minutes|;
    }
  }

  /** A walk the data does not end is ended by a bar past its deadline. */
  lemma {:induction false} LateBarEnds(p: Path, q: Path, b: Barriers, deadline: int, k: nat)
    requires p.Shaped() && q.Shaped() && PathLaws.Extends(q, p) && |q.minutes| == |p.minutes| + 1
    requires 0 < k <= |p.minutes| && FirstExit(p, b, deadline, k).None? && q.minutes[|p.minutes|] > deadline
    ensures FirstExit(q, b, deadline, k).Some?
    decreases |p.minutes| - k
  {
    if k < |p.minutes| {
      assert Ends(p, b, deadline, k) <==> Ends(q, b, deadline, k);
      LateBarEnds(p, q, b, deadline, k + 1);
    }
  }

  lemma {:induction false} OpenAttemptCloses(sim: Simulator, feed: Feed, s: Signal, minute: int)
    requires sim.WellFormed() && feed.Valid() && s in feed.signals && s.row < |feed.minutes|
    requires feed.minutes != [] && minute > feed.minutes[|feed.minutes| - 1]
    requires minute > feed.minutes[s.row] + sim.HoldMinutes() && feed.atr[s.row].Some?
    requires AttemptAt(sim, feed, s).None?
    ensures OneBarOn(feed, minute).atr[s.row].Some? && OneBarOn(feed, minute).Valid()
    ensures AttemptAt(sim, OneBarOn(feed, minute), s).Some?
  {
    var later := OneBarOn(feed, minute);
    OneBarContinues(feed, minute);
    WalkContinues(feed, later, s);
    SameBarriers(sim, feed, later, s);
    AttemptFromExit(sim, feed, s);
    AttemptFromExit(sim, later, s);
    LateBarEnds(
      WalkOf(feed, s), WalkOf(later, s), BarriersOf(sim, feed, s), feed.minutes[s.row] + sim.HoldMinutes(), s.row + 1);
  }

  lemma {:induction false} OpenIsOpen(early: seq<Option<Trade>>, signals: seq<Signal>, busyUntil: int)
    requires |early| == |signals|
    ensures var k := FirstOpen(early, signals, busyUntil); k < |early| ==> early[k].None?
  {
    if early != [] {
      if signals[0].row <= busyUntil {
        OpenIsOpen(early[1..], signals[1..], busyUntil);
      } else if early[0].Some? {
        OpenIsOpen(early[1..], signals[1..], early[0].value.exitRow);
      }
    }
  }

  /** If the first open signal closes later, it is the first one taken. */
  lemma {:induction false} OpenIsTaken(
    early: seq<Option<Trade>>, late: seq<Option<Trade>>, signals: seq<Signal>, busyUntil: int)
    requires |early| == |signals| <= |late|
    requires var k := FirstOpen(early, signals, busyUntil); k < |early| ==> late[k].Some?
    ensures FirstTaken(early, late, signals, busyUntil) == FirstOpen(early, signals, busyUntil)
  {
    if early != [] {
      if signals[0].row <= busyUntil {
        OpenIsTaken(early[1..], late[1..], signals[1..], busyUntil);
      } else if early[0].Some? {
        OpenIsTaken(early[1..], late[1..], signals[1..], early[0].value.exitRow);
      }
    }
  }

  /** Every continuation keeps the list as the beginning of its own. */
  ghost predicate ListIsFinal(sim: Simulator, feed: Feed)
    requires sim.WellFormed() && feed.Valid()
  {
    forall later: Feed :: later.Valid() && feed.Continues(later) ==> Trades(sim, feed) <= Trades(sim, later)
  }

  /** A future in which the first open signal closes. */
  lemma {:induction false} ClosingFuture(sim: Simulator, feed: Feed) returns (later: Feed)
    requires sim.WellFormed() && feed.Valid() && OpenFrom(sim, feed) < |feed.signals|
    ensures later.Valid() && feed.Continues(later) && |later.signals| == |feed.signals|
    ensures Attempts(sim, later)[OpenFrom(sim, feed)].Some?
  {
    var k := OpenFrom(sim, feed);
    var s := feed.signals[k];
    OpenIsOpen(Attempts(sim, feed), feed.signals, -1);
    var last, deadline := feed.minutes[|feed.minutes| - 1], feed.minutes[s.row] + sim.HoldMinutes();
    var minute := 1 + if last < deadline then deadline else last;
    later := OneBarOn(feed, minute);
    OneBarContinues(feed, minute);
    OpenAttemptCloses(sim, feed, s, minute);
  }

  /**
    A reported list is final -- no future changes any trade in it -- exactly when it reports nothing after the
    first signal that is free to trade and still open.
   */
  lemma {:induction false} ListIsFinalIff(sim: Simulator, feed: Feed)
    requires sim.WellFormed() && feed.Valid()
    ensures ListIsFinal(sim, feed) <==> Trades(sim, feed) == SettledTrades(sim, feed)
  {
    assert Attempts(sim, feed)[..|feed.signals|] == Attempts(sim, feed);
    if Trades(sim, feed) == SettledTrades(sim, feed) {
      forall later: Feed | later.Valid() && feed.Continues(later)
        ensures Trades(sim, feed) <= Trades(sim, later)
      {
        SettledTradesStay(sim, feed, later);
      }
    } else {
      var later := ClosingFuture(sim, feed);
      OpenIsTaken(Attempts(sim, feed), Attempts(sim, later), feed.signals, -1);
      ListSurvivesIff(sim, feed, later);
    }
  }

  // ----- A0, which reports a trade the data cuts off

  function BareAttempts(feed: Feed): (attempts: seq<Option<Trade>>)
    requires Framed(feed.faces, feed.minutes) && InRange(feed.signals, |feed.minutes|)
    ensures |attempts| == |feed.signals|
  {
    A0Attempts(feed.faces, feed.minutes, feed.signals)
  }

  /** The last row the bare exit holds for a signal. */
  function HeldTo(feed: Feed, s: Signal): (row: nat)
    requires Framed(feed.faces, feed.minutes) && s.row < |feed.minutes|
    ensures s.row <= row < |feed.minutes|
  {
    LastHeld(feed.minutes, feed.minutes[s.row] + A1_MAX_HOLD_MINUTES, s.row + 1)
  }

  /** The attempts that end before row `last`. */
  function EndedBefore(attempts: seq<Option<Trade>>, last: int): (ended: seq<Option<Trade>>)
    ensures |ended| == |attempts|
  {
    seq(|attempts|, i requires 0 <= i < |attempts| =>
      if attempts[i].Some? && attempts[i].value.exitRow < last then attempts[i] else None)
  }

  lemma {:induction false} HeldStays(minutes: seq<int>, later: seq<int>, deadline: int, k: nat)
    requires minutes <= later && 0 < k <= |minutes| && LastHeld(minutes, deadline, k) < |minutes| - 1
    ensures LastHeld(later, deadline, k) == LastHeld(minutes, deadline, k)
    decreases |minutes| - k
  {
    if k < |minutes| && minutes[k] <= deadline {
      HeldStays(minutes, later, deadline, k + 1);
    }
  }

  lemma {:induction false} HeldToEndIff(minutes: seq<int>, deadline: int, k: nat)
    requires SimulatorLaws.Increasing(minutes) && 0 < k <= |minutes|
    ensures LastHeld(minutes, deadline, k) == |minutes| - 1 <==> k == |minutes| || minutes[|minutes| - 1] <= deadline
    decreases |minutes| - k
  {
    if k < |minutes| && minutes[k] <= deadline {
      HeldToEndIff(minutes, deadline, k + 1);
    }
  }

  /** Once one signal is held to the end of the data, so is every later one. */
  lemma {:induction false} LaterHeldToEnd(feed: Feed, i: nat, j: nat)
    requires feed.Valid() && i <= j < |feed.signals| && HeldTo(feed, feed.signals[i]) == |feed.minutes| - 1
    ensures HeldTo(feed, feed.signals[j]) == |feed.minutes| - 1
  {
    var s, t := feed.signals[i], feed.signals[j];
    HeldToEndIff(feed.minutes, feed.minutes[s.row] + A1_MAX_HOLD_MINUTES, s.row + 1);
    HeldToEndIff(feed.minutes, feed.minutes[t.row] + A1_MAX_HOLD_MINUTES, t.row + 1);
    assert s.row <= t.row;
    assert feed.minutes[s.row] <= feed.minutes[t.row];
  }

  lemma {:induction false} BareAttemptStays(feed: Feed, later: Feed, s: Signal)
    requires feed.Valid() && later.Valid() && feed.Continues(later) && s.row < |feed.minutes|
    requires HeldTo(feed, s) < |feed.minutes| - 1
    ensures A0Attempt(later.faces, later.minutes, s) == A0Attempt(feed.faces, feed.minutes, s)
  {
    HeldStays(feed.minutes, later.minutes, feed.minutes[s.row] + A1_MAX_HOLD_MINUTES, s.row + 1);
    WalkContinues(feed, later, s);
    var row := HeldTo(feed, s);
    assert later.minutes[row] == feed.minutes[row] && later.minutes[s.row] == feed.minutes[s.row];
    assert later.faces.ExitClose(row, s.side) == feed.faces.ExitClose(row, s.side);
  }

  /** What early knowledge takes survives if nothing follows a signal that only later knowledge takes. */
  lemma {:induction false} SurvivesIfRestOpen(
    early: seq<Option<Trade>>, late: seq<Option<Trade>>, signals: seq<Signal>, busyUntil: int)
    requires KnowsMore(early, late, signals)
    requires forall i, j :: 0 <= i <= j < |early| && early[i].None? && late[i].Some? ==> early[j].None?
    ensures Greedy(early, busyUntil) <= Greedy(late, busyUntil)
  {
    if early != [] {
      KnowsMoreTail(early, late, signals);
      if signals[0].row > busyUntil && early[0].Some? {
        var t := early[0].value;
        SurvivesIfRestOpen(early[1..], late[1..], signals[1..], t.exitRow);
        PrefixAfter(t, Greedy(early[1..], t.exitRow), Greedy(late[1..], t.exitRow));
      } else if signals[0].row > busyUntil && late[0].Some? {
        TimeoutLaws.NothingMore(early, busyUntil);
      } else {
        SurvivesIfRestOpen(early[1..], late[1..], signals[1..], busyUntil);
      }
    }
  }

  lemma {:induction false} BareEndedFacts(feed: Feed, i: nat)
    requires feed.Valid() && i < |feed.signals|
    ensures var attempt := A0Attempt(feed.faces, feed.minutes, feed.signals[i]);
      attempt.Some? ==> attempt.value.exitRow == HeldTo(feed, feed.signals[i])
  {
  }

  lemma {:induction false} EndedKnowsLess(feed: Feed, later: Feed)
    requires feed.Valid() && later.Valid() && feed.Continues(later)
    ensures var ended := EndedBefore(BareAttempts(feed), |feed.minutes| - 1);
      && KnowsMore(ended, BareAttempts(later), feed.signals)
      && forall i, j :: 0 <= i <= j < |ended| && ended[i].None? && BareAttempts(later)[i].Some? ==> ended[j].None?
  {
    var ended, late := EndedBefore(BareAttempts(feed), |feed.minutes| - 1), BareAttempts(later);
    forall i | 0 <= i < |ended|
      ensures ended[i].Some? ==> late[i] == ended[i]
      ensures ended[i].None? && late[i].Some? ==> HeldTo(feed, feed.signals[i]) == |feed.minutes| - 1
    {
      assert later.signals[i] == feed.signals[i];
      BareEndedFacts(feed, i);
      if HeldTo(feed, feed.signals[i]) < |feed.minutes| - 1 {
        BareAttemptStays(feed, later, feed.signals[i]);
      }
    }
    forall i, j | 0 <= i <= j < |ended| && ended[i].None? && late[i].Some?
      ensures ended[j].None?
    {
      LaterHeldToEnd(feed, i, j);
      BareEndedFacts(feed, j);
    }
  }

  /** The trades a list adds to those ended before row `last`: at most one, ending there. */
  ghost predicate AddsCutOff(ended: seq<Trade>, trades: seq<Trade>, last: int) {
    trades == ended || (|trades| == |ended| + 1 && ended <= trades && trades[|ended|].exitRow == last)
  }

  lemma {:induction false} CutOffComesLast(attempts: seq<Option<Trade>>, last: int, busyUntil: int)
    requires forall i :: 0 <= i < |attempts| && attempts[i].Some? ==>
      attempts[i].value.entryRow <= attempts[i].value.exitRow <= last
    requires forall i, j :: 0 <= i <= j < |attempts| && attempts[i].Some? && attempts[i].value.exitRow == last ==>
      attempts[j].None? || attempts[j].value.exitRow == last
    ensures AddsCutOff(Greedy(EndedBefore(attempts, last), busyUntil), Greedy(attempts, busyUntil), last)
  {
    if attempts != [] {
      var rest, ended := attempts[1..], EndedBefore(attempts, last);
      assert ended[1..] == EndedBefore(rest, last);
      if attempts[0].None? || attempts[0].value.entryRow <= busyUntil {
        CutOffComesLast(rest, last, busyUntil);
      } else if attempts[0].value.exitRow < last {
        var t := attempts[0].value;
        CutOffComesLast(rest, last, t.exitRow);
        PrefixAfter(t, Greedy(ended[1..], t.exitRow), Greedy(rest, t.exitRow));
      } else {
        TimeoutLaws.NothingMore(ended, busyUntil);
        TimeoutLaws.BusyToTheEnd(rest, last);
      }
    }
  }

  lemma {:induction false} BareAttemptsFit(feed: Feed)
    requires feed.Valid()
    ensures var attempts, last := BareAttempts(feed), |feed.minutes| - 1;
      && (forall i :: 0 <= i < |attempts| && attempts[i].Some? ==>
            attempts[i].value.entryRow <= attempts[i].value.exitRow <= last)
      && (forall i, j :: 0 <= i <= j < |attempts| && attempts[i].Some? && attempts[i].value.exitRow == last ==>
            attempts[j].None? || attempts[j].value.exitRow == last)
  {
    var attempts, last := BareAttempts(feed), |feed.minutes| - 1;
    forall i | 0 <= i < |attempts| && attempts[i].Some?
      ensures attempts[i].value.exitRow == HeldTo(feed, feed.signals[i])
    {
      BareEndedFacts(feed, i);
    }
    forall i, j | 0 <= i <= j < |attempts| && attempts[i].Some? && attempts[i].value.exitRow == last
      ensures attempts[j].None? || attempts[j].value.exitRow == last
    {
      LaterHeldToEnd(feed, i, j);
    }
  }

  /**
    A0, which does report a trade the data cuts off, loses none: all it reports but a last trade ending on the
    last row begins the list of every continuation.
   */
  lemma {:induction false} BareListIsFinalButLast(feed: Feed, later: Feed)
    requires feed.Valid() && later.Valid() && feed.Continues(later)
    ensures var last := |feed.minutes| - 1;
      var ended := Greedy(EndedBefore(BareAttempts(feed), last), -1);
      && ended <= Greedy(BareAttempts(later), -1)
      && AddsCutOff(ended, Greedy(BareAttempts(feed), -1), last)
  {
    EndedKnowsLess(feed, later);
    SurvivesIfRestOpen(
      EndedBefore(BareAttempts(feed), |feed.minutes| - 1), BareAttempts(later), feed.signals, -1);
    BareAttemptsFit(feed);
    CutOffComesLast(BareAttempts(feed), |feed.minutes| - 1, -1);
  }

  // ----- a trade that vanishes

  /** A BUY left open on three bars; the SELL after it closes there, and is not taken on four. */
  function Example(bars: nat): Feed
    requires 3 <= bars <= 4
  {
    Feed(
      BidFaces([100.0, 100.2, 100.9, 101.8][..bars], [100.1, 100.6, 101.3, 102.0][..bars],
        [99.9, 100.1, 100.1, 101.0][..bars]),
      [Some(1.0), Some(1.0), Some(1.0), Some(1.0)][..bars], [0, 1, 2, 3][..bars],
      [Signal(0, Buy), Signal(1, Sell)])
  }

  const EXAMPLE_RULE: Simulator := Reference(ExitRule(Some(1.0), Some(1.5), 100))

  lemma {:induction false} ExampleValid(bars: nat)
    requires 3 <= bars <= 4
    ensures EXAMPLE_RULE.WellFormed() && Example(bars).Valid()
  {
  }

  lemma {:induction false} BuyWalk(bars: nat)
    requires 3 <= bars <= 4 && Example(bars).Valid()
    ensures ExitOf(EXAMPLE_RULE, Example(bars), Signal(0, Buy)) == if bars == 3 then None else Some(Exit(3, 1.5))
  {
    var feed, s := Example(bars), Signal(0, Buy);
    var path, b := WalkOf(feed, s), BarriersOf(EXAMPLE_RULE, feed, s);
    assert b == Barriers(-1.0, 1.5);
    assert !Ends(path, b, 100, 1) && !Ends(path, b, 100, 2);
    assert FirstExit(path, b, 100, 1) == FirstExit(path, b, 100, 2) == FirstExit(path, b, 100, 3);
    if bars == 4 {
      assert TargetHit(path, b, 3) && !StopHit(path, b, 3);
    }
  }

  lemma {:induction false} SellWalk(bars: nat)
    requires 3 <= bars <= 4 && Example(bars).Valid()
    ensures ExitOf(EXAMPLE_RULE, Example(bars), Signal(1, Sell)) == Some(Exit(2, -1.0))
  {
    var feed, s := Example(bars), Signal(1, Sell);
    var path, b := WalkOf(feed, s), BarriersOf(EXAMPLE_RULE, feed, s);
    assert b == Barriers(-1.0, 1.5);
    assert StopHit(path, b, 2) && !Expired(path, 101, 2);
  }

  lemma {:induction false} ExampleAttempts(bars: nat)
    requires 3 <= bars <= 4 && Example(bars).Valid()
    ensures Attempts(EXAMPLE_RULE, Example(bars)) == [
      if bars == 3 then None else Some(Trade(0, 3, Buy, 150.0, 3, false, false)),
      Some(Trade(1, 2, Sell, -100.0, 1, false, false))]
  {
    BuyWalk(bars);
    SellWalk(bars);
    AttemptFromExit(EXAMPLE_RULE, Example(bars), Signal(0, Buy));
    AttemptFromExit(EXAMPLE_RULE, Example(bars), Signal(1, Sell));
  }

  /** One more bar can take a reported trade out of the list. */
  lemma {:induction false} TradesCanVanish()
    ensures EXAMPLE_RULE.WellFormed() && Example(3).Valid() && Example(4).Valid() && Example(3).Continues(Example(4))
    ensures Trades(EXAMPLE_RULE, Example(3)) == [Trade(1, 2, Sell, -100.0, 1, false, false)]
    ensures Trades(EXAMPLE_RULE, Example(4)) == [Trade(0, 3, Buy, 150.0, 3, false, false)]
  {
    ExampleValid(3);
    ExampleValid(4);
    ExampleAttempts(3);
    ExampleAttempts(4);
    GreedyOfTwo(None, Trade(1, 2, Sell, -100.0, 1, false, false));
    GreedyOfTwo(Some(Trade(0, 3, Buy, 150.0, 3, false, false)), Trade(1, 2, Sell, -100.0, 1, false, false));
  }

  lemma {:induction false} GreedyOfTwo(first: Option<Trade>, second: Trade)
    requires first.Some? ==> second.entryRow <= first.value.exitRow && first.value.entryRow >= 0
    ensures Greedy([first, Some(second)], -1) == if first.Some? then [first.value] else [second]
  {
    assert [first, Some(second)][1..] == [Some(second)] && [Some(second)][1..] == [];
    assert Greedy([], second.exitRow) == [];
    assert Greedy([Some(second)], -1) == [second];
    if first.Some? {
      assert Greedy([], first.value.exitRow) == [];
      assert Greedy([Some(second)], first.value.exitRow) == [];
    }
  }
}
