/**
  How one signal becomes a trade, and how trades are drawn from a list of signals.

  The simulators compare prices; the specification looks at the same walk as a `Path`
  of gains over the entry price, in which a BUY and a SELL read alike.
 */
module ExitEngine {
  import opened Wrappers

  const PIP: real := 0.01

  datatype Side = Buy | Sell

  datatype Signal = Signal(row: nat, side: Side)

  datatype Mode = LegacyBidOnly | BidAskM1

  datatype Trade = Trade(
    entryRow: nat, exitRow: nat, side: Side, rawPips: real, holdMinutes: int,
    floorClamped: bool, capClamped: bool)

  /** `direction * x`, where direction is +1 for a BUY and -1 for a SELL. */
  function Signed(side: Side, x: real): real {
    if side.Buy? then x else -x
  }

  function Flip(side: Side): Side {
    if side.Buy? then Sell else Buy
  }

  /** Which price face each leg of a trade transacts on. */
  datatype PriceFaces = PriceFaces(
    mode: Mode, bidClose: seq<real>, bidHigh: seq<real>, bidLow: seq<real>, askClose: seq<real>)
  {
    predicate Shaped() {
      && |bidHigh| == |bidLow| == |bidClose|
      && (mode.BidAskM1? ==> |askClose| == |bidClose|)
    }

    function Entry(row: nat, side: Side): real
      requires Shaped() && row < |bidClose|
    {
      if mode.BidAskM1? && side.Buy? then askClose[row] else bidClose[row]
    }

    function ExitClose(row: nat, side: Side): real
      requires Shaped() && row < |bidClose|
    {
      if mode.BidAskM1? && side.Sell? then askClose[row] else bidClose[row]
    }

    function ExitHigh(row: nat, side: Side): real
      requires Shaped() && row < |bidClose|
    {
      if mode.BidAskM1? && side.Sell? then bidHigh[row] + (askClose[row] - bidClose[row]) else bidHigh[row]
    }

    function ExitLow(row: nat, side: Side): real
      requires Shaped() && row < |bidClose|
    {
      if mode.BidAskM1? && side.Sell? then bidLow[row] + (askClose[row] - bidClose[row]) else bidLow[row]
    }

    /** Every bar closes between its low and its high. */
    ghost predicate Bounded()
      requires Shaped()
    {
      forall k :: 0 <= k < |bidClose| ==> bidLow[k] <= bidClose[k] <= bidHigh[k]
    }
  }

  /** Gains over the entry price at each bar: at the close, at the best and at the worst extreme. */
  datatype Path = Path(minutes: seq<int>, close: seq<real>, best: seq<real>, worst: seq<real>) {
    predicate Shaped() {
      |close| == |best| == |worst| == |minutes|
    }
  }

  function PathOf(faces: PriceFaces, minutes: seq<int>, side: Side, entry: real): (path: Path)
    requires faces.Shaped() && |minutes| == |faces.bidClose|
    ensures path.Shaped()
  {
    var n := |minutes|;
    Path(
      minutes,
      seq(n, k requires 0 <= k < n => Signed(side, faces.ExitClose(k, side) - entry)),
      seq(n, k requires 0 <= k < n =>
        if side.Buy? then faces.ExitHigh(k, side) - entry else entry - faces.ExitLow(k, side)),
      seq(n, k requires 0 <= k < n =>
        if side.Buy? then faces.ExitLow(k, side) - entry else entry - faces.ExitHigh(k, side)))
  }

  /** A stop and a target, as gains; the 30-minute rule has neither. */
  datatype Barriers = NoBarriers | Barriers(stop: real, target: real)

  function BarriersAt(side: Side, entry: real, stop: real, target: real): Barriers {
    Barriers(Signed(side, stop - entry), Signed(side, target - entry))
  }

  datatype Exit = Exit(row: nat, gain: real)

  // ----- the first-touch specification of one walk

  predicate Expired(path: Path, deadline: int, k: nat)
    requires path.Shaped() && k < |path.minutes|
  {
    path.minutes[k] > deadline
  }

  predicate StopHit(path: Path, b: Barriers, k: nat)
    requires path.Shaped() && k < |path.minutes|
  {
    b.Barriers? && path.worst[k] <= b.stop
  }

  predicate TargetHit(path: Path, b: Barriers, k: nat)
    requires path.Shaped() && k < |path.minutes|
  {
    b.Barriers? && path.best[k] >= b.target
  }

  predicate Ends(path: Path, b: Barriers, deadline: int, k: nat)
    requires path.Shaped() && k < |path.minutes|
  {
    Expired(path, deadline, k) || StopHit(path, b, k) || TargetHit(path, b, k)
  }

  /** What happens at an ending bar: a passed deadline closes on the bar before, and the stop wins ties. */
  function ExitAt(path: Path, b: Barriers, deadline: int, k: nat): Exit
    requires path.Shaped() && 0 < k < |path.minutes| && Ends(path, b, deadline, k)
  {
    if Expired(path, deadline, k) then Exit(k - 1, path.close[k - 1])
    else if StopHit(path, b, k) then Exit(k, b.stop)
    else Exit(k, b.target)
  }

  /** The exit of a walk that has reached bar `k`; None when the data runs out first. */
  function FirstExit(path: Path, b: Barriers, deadline: int, k: nat): Option<Exit>
    requires path.Shaped() && 0 < k <= |path.minutes|
    decreases |path.minutes| - k
  {
    if k == |path.minutes| then None
    else if Ends(path, b, deadline, k) then Some(ExitAt(path, b, deadline, k))
    else FirstExit(path, b, deadline, k + 1)
  }

  /** The declarative reading: the earliest ending bar decides, and no ending bar means no exit. */
  ghost predicate IsFirstTouch(path: Path, b: Barriers, deadline: int, start: nat, exit: Option<Exit>)
    requires path.Shaped() && 0 < start <= |path.minutes|
  {
    match exit
    case None => forall k :: start <= k < |path.minutes| ==> !Ends(path, b, deadline, k)
    case Some(e) =>
      exists k :: start <= k < |path.minutes| && Ends(path, b, deadline, k) &&
        e == ExitAt(path, b, deadline, k) &&
        forall j :: start <= j < k ==> !Ends(path, b, deadline, j)
  }

  lemma {:induction false} FirstExitIsFirstTouch(path: Path, b: Barriers, deadline: int, k: nat, exit: Option<Exit>)
    requires path.Shaped() && 0 < k <= |path.minutes|
    ensures exit == FirstExit(path, b, deadline, k) <==> IsFirstTouch(path, b, deadline, k, exit)
    decreases |path.minutes| - k
  {
    if k < |path.minutes| && !Ends(path, b, deadline, k) {
      FirstExitIsFirstTouch(path, b, deadline, k + 1, exit);
      assert IsFirstTouch(path, b, deadline, k + 1, exit) <==> IsFirstTouch(path, b, deadline, k, exit);
    }
  }

  /** An exit falls inside the walk, and no later than the deadline. */
  lemma {:induction false} FirstExitWithinDeadline(path: Path, b: Barriers, deadline: int, k: nat)
    requires path.Shaped() && 0 < k <= |path.minutes|
    requires path.minutes[k - 1] <= deadline
    ensures var exit := FirstExit(path, b, deadline, k);
      exit.Some? ==> k - 1 <= exit.value.row < |path.minutes| && path.minutes[exit.value.row] <= deadline
    decreases |path.minutes| - k
  {
    if k < |path.minutes| && !Ends(path, b, deadline, k) {
      FirstExitWithinDeadline(path, b, deadline, k + 1);
    }
  }

  // ----- trades drawn greedily, one position at a time

  function Settle(s: Signal, exit: Option<Exit>, minutes: seq<int>, floorClamped: bool, capClamped: bool): Option<Trade>
    requires s.row < |minutes|
    requires exit.Some? ==> exit.value.row < |minutes|
  {
    match exit
    case None => None
    case Some(e) =>
      Some(Trade(s.row, e.row, s.side, e.gain / PIP, minutes[e.row] - minutes[s.row], floorClamped, capClamped))
  }

  /** Take each closing attempt whose entry row lies beyond the last exit row. */
  function Greedy(attempts: seq<Option<Trade>>, busyUntil: int): seq<Trade> {
    if attempts == [] then []
    else match attempts[0]
      case Some(t) =>
        if t.entryRow <= busyUntil then Greedy(attempts[1..], busyUntil)
        else [t] + Greedy(attempts[1..], t.exitRow)
      case None => Greedy(attempts[1..], busyUntil)
  }

  /** Attempts start in signal order and never exit before they enter. */
  ghost predicate Ordered(attempts: seq<Option<Trade>>) {
    && (forall i, j :: 0 <= i < j < |attempts| && attempts[i].Some? && attempts[j].Some? ==>
          attempts[i].value.entryRow < attempts[j].value.entryRow)
    && (forall i :: 0 <= i < |attempts| && attempts[i].Some? ==>
          attempts[i].value.entryRow <= attempts[i].value.exitRow)
  }

  /** Every trade enters after `busyUntil` and after every earlier trade has exited. */
  ghost predicate Disjoint(trades: seq<Trade>, busyUntil: int) {
    && (forall i :: 0 <= i < |trades| ==> trades[i].entryRow > busyUntil)
    && (forall i, j :: 0 <= i < j < |trades| ==> trades[j].entryRow > trades[i].exitRow)
  }

  /** One position at a time, and every trade is one of the attempts. */
  lemma {:induction false} GreedyIsDisjoint(attempts: seq<Option<Trade>>, busyUntil: int)
    requires Ordered(attempts)
    ensures Disjoint(Greedy(attempts, busyUntil), busyUntil)
    ensures forall t :: t in Greedy(attempts, busyUntil) ==> Some(t) in attempts
  {
    if attempts != [] {
      var rest := attempts[1..];
      assert forall x :: x in rest ==> x in attempts;
      if attempts[0].Some? && attempts[0].value.entryRow > busyUntil {
        assert attempts[0].value.entryRow <= attempts[0].value.exitRow;
        GreedyIsDisjoint(rest, attempts[0].value.exitRow);
      } else {
        GreedyIsDisjoint(rest, busyUntil);
      }
    }
  }

  lemma {:induction false} TailIsOrdered(attempts: seq<Option<Trade>>)
    requires attempts != [] && Ordered(attempts)
    ensures Ordered(attempts[1..])
    ensures attempts[0].Some? ==> forall t :: Some(t) in attempts[1..] ==> attempts[0].value.entryRow < t.entryRow
  {
    forall t | attempts[0].Some? && Some(t) in attempts[1..]
      ensures attempts[0].value.entryRow < t.entryRow
    {
      var i :| 0 <= i < |attempts[1..]| && attempts[1..][i] == Some(t);
      assert attempts[i + 1] == Some(t);
    }
  }

  /** Nothing is skipped without cause: an attempt left out starts while a taken one is open. */
  lemma {:induction false} GreedyIsMaximal(attempts: seq<Option<Trade>>, busyUntil: int, t: Trade)
    requires Ordered(attempts)
    requires Some(t) in attempts && t.entryRow > busyUntil
    ensures t in Greedy(attempts, busyUntil) ||
      exists u :: u in Greedy(attempts, busyUntil) && u.entryRow < t.entryRow <= u.exitRow
  {
    var rest := attempts[1..];
    assert attempts == [attempts[0]] + rest;
    TailIsOrdered(attempts);
    if attempts[0].Some? && attempts[0].value.entryRow > busyUntil {
      var h := attempts[0].value;
      assert Greedy(attempts, busyUntil) == [h] + Greedy(rest, h.exitRow);
      assert h in Greedy(attempts, busyUntil);
      if h != t && t.entryRow > h.exitRow {
        GreedyIsMaximal(rest, h.exitRow, t);
      }
    } else {
      GreedyIsMaximal(rest, busyUntil, t);
    }
  }
}
