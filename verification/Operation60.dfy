/**
  Operation 60: a one-shot protocol over three files -- a start marker created exclusively, a result, and
  a persistent halt -- in which any process may die between any two steps, and several may run at once.
 */
module Operation60 {
  import opened Wrappers

  datatype Outcome = Passed | Unknown

  datatype Marker = Absent | Created | Written

  datatype ResultFile = NoResult | Torn | Complete(outcome: Outcome)

  datatype Disk = Disk(marker: Marker, result: ResultFile, halted: bool)

  /** Where a process stands. */
  datatype Pc =
    | Ready
    | Refused
    | MarkerCreated
    | Started(startedAt: real)
    | Installing(installStart: real)
    | Polling(readinessStart: real)
    | Decided(decision: Outcome)
    | RefusedByResult
    | Writing(writing: Outcome)
    | ResultWritten(written: Outcome)
    | Returned(returned: Outcome)
    | Dead

  datatype Event =
    | InstallerInvoked(invoker: nat)
    | InstallerReturned(installerOf: nat, elapsed: real)
    | ReadinessConfirmed(observer: nat)

  /** The files, every process so far, who created the marker, and what has happened. */
  datatype World = World(disk: Disk, processes: map<nat, Pc>, owner: Option<nat>, log: seq<Event>)

  datatype Limits = Limits(installer: real, readiness: real)

  function At(w: World, id: nat, pc: Pc): World {
    w.(processes := w.processes[id := pc])
  }

  // ----- the steps of one process

  /** `O_CREAT | O_EXCL`: whoever creates the marker owns the operation, everyone else is refused. */
  ghost predicate StartStep(w: World, w': World, id: nat) {
    && id in w.processes && w.processes[id] == Ready
    && if w.disk.marker == Absent then
         w' == At(w, id, MarkerCreated).(disk := w.disk.(marker := Created), owner := Some(id))
       else w' == At(w, id, Refused)
  }

  ghost predicate WriteMarkerStep(w: World, w': World, id: nat) {
    && id in w.processes && w.processes[id] == MarkerCreated
    && exists now: real :: w' == At(w, id, Started(now)).(disk := w.disk.(marker := Written))
  }

  ghost predicate InvokeInstallerStep(w: World, w': World, id: nat) {
    && id in w.processes && w.processes[id].Started?
    && w' == Invoked(w, id, w.processes[id].startedAt)
  }

  function Invoked(w: World, id: nat, start: real): World {
    At(w, id, Installing(start)).(log := w.log + [InstallerInvoked(id)])
  }

  /** The installer raises, overruns its limit, or returns in time. */
  ghost predicate InstallerEndsStep(w: World, w': World, id: nat, limits: Limits) {
    && id in w.processes && w.processes[id].Installing?
    && (w' == At(w, id, Decided(Unknown))
        || exists elapsed: real, readinessStart: real ::
             w' == InstallerReturns(w, id, elapsed, readinessStart, limits))
  }

  function InstallerReturns(w: World, id: nat, elapsed: real, readinessStart: real, limits: Limits): World {
    At(w.(log := w.log + [InstallerReturned(id, elapsed)]), id,
      if elapsed <= limits.installer then Polling(readinessStart) else Decided(Unknown))
  }

  /** One poll: the window has closed, the check raises, confirms, or asks for another round after a sleep. */
  ghost predicate PollStep(w: World, w': World, id: nat) {
    && id in w.processes && w.processes[id].Polling?
    && (w' == At(w, id, Decided(Unknown))
        || w' == Confirms(w, id)
        || w' == w)
  }

  ghost predicate OpenResultStep(w: World, w': World, id: nat) {
    && id in w.processes && w.processes[id].Decided?
    && if w.disk.result != NoResult then w' == At(w, id, RefusedByResult)
       else w' == At(w, id, Writing(w.processes[id].decision)).(disk := w.disk.(result := Torn))
  }

  ghost predicate FinishResultStep(w: World, w': World, id: nat) {
    && id in w.processes && w.processes[id].Writing?
    && var outcome := w.processes[id].writing;
       w' == At(w, id, ResultWritten(outcome)).(disk := w.disk.(result := Complete(outcome)))
  }

  /** An unknown outcome engages the persistent halt before returning. */
  ghost predicate ReturnStep(w: World, w': World, id: nat) {
    && id in w.processes && w.processes[id].ResultWritten?
    && var outcome := w.processes[id].written;
       w' == At(w, id, Returned(outcome)).(disk := w.disk.(halted := w.disk.halted || outcome == Unknown))
  }

  ghost predicate ProcessStep(w: World, w': World, id: nat, limits: Limits) {
    || StartStep(w, w', id)
    || WriteMarkerStep(w, w', id)
    || InvokeInstallerStep(w, w', id)
    || InstallerEndsStep(w, w', id, limits)
    || PollStep(w, w', id)
    || OpenResultStep(w, w', id)
    || FinishResultStep(w, w', id)
    || ReturnStep(w, w', id)
  }

  /** A new process starts, one dies where it stands, or something else engages the halt. */
  ghost predicate OutsideStep(w: World, w': World, id: nat) {
    || (id !in w.processes && w' == At(w, id, Ready))
    || (id in w.processes && w' == At(w, id, Dead))
    || w' == w.(disk := w.disk.(halted := true))
  }

  ghost predicate Step(w: World, w': World, limits: Limits) {
    exists id :: ProcessStep(w, w', id, limits) || OutsideStep(w, w', id)
  }

  /** Nothing has run: no marker, no result, no process. */
  ghost predicate Initial(w: World) {
    w.disk.marker == Absent && w.disk.result == NoResult && w.processes == map[] && w.owner == None && w.log == []
  }

  ghost predicate IsRun(run: seq<World>, limits: Limits) {
    && run != [] && Initial(run[0])
    && forall i :: 0 <= i < |run| - 1 ==> Step(run[i], run[i + 1], limits)
  }

  // ----- the invariant

  function Installs(log: seq<Event>): nat {
    if log == [] then 0 else Installs(log[..|log| - 1]) + if log[|log| - 1].InstallerInvoked? then 1 else 0
  }

  ghost predicate InstalledInTime(log: seq<Event>, id: nat, limits: Limits, n: nat)
    requires n <= |log|
  {
    exists i :: 0 <= i < n && log[i].InstallerReturned? && log[i].installerOf == id && log[i].elapsed <= limits.installer
  }

  /** A readiness check succeeded, after an installer run that met its limit. */
  ghost predicate ConfirmedAfterInstall(log: seq<Event>, id: nat, limits: Limits) {
    exists j :: 0 <= j < |log| && log[j] == ReadinessConfirmed(id) && InstalledInTime(log, id, limits, j)
  }

  /** What the owner's position says about the files and the log. */
  ghost predicate OwnerFits(pc: Pc, disk: Disk, log: seq<Event>, id: nat, limits: Limits) {
    match pc
    case MarkerCreated => disk.result == NoResult && Installs(log) == 0
    case Started(_) => disk.result == NoResult && Installs(log) == 0
    case Installing(_) => disk.result == NoResult
    case Polling(_) => disk.result == NoResult && InstalledInTime(log, id, limits, |log|)
    case Decided(o) => disk.result == NoResult && (o == Passed ==> ConfirmedAfterInstall(log, id, limits))
    case Writing(o) => disk.result == Torn && (o == Passed ==> ConfirmedAfterInstall(log, id, limits))
    case ResultWritten(o) => disk.result == Complete(o)
    case Returned(o) => disk.result == Complete(o) && (o == Unknown ==> disk.halted)
    case Dead => true
    case _ => false
  }

  ghost predicate Inv(w: World, limits: Limits) {
    && (w.owner.None? <==> w.disk.marker == Absent)
    && (w.owner.None? ==> w.disk.result == NoResult && w.log == [])
    && (forall id :: id in w.processes && w.owner != Some(id) ==> w.processes[id] in {Ready, Refused, Dead})
    && Installs(w.log) <= 1
    && match w.owner
       case None => true
       case Some(id) =>
         && id in w.processes
         && OwnerFits(w.processes[id], w.disk, w.log, id, limits)
         && (w.disk.result == Complete(Passed) ==> ConfirmedAfterInstall(w.log, id, limits))
  }

  lemma {:induction false} InstallsGrow(log: seq<Event>, e: Event)
    ensures Installs(log + [e]) == Installs(log) + if e.InstallerInvoked? then 1 else 0
  {
    assert (log + [e])[..|log|] == log;
  }

  lemma {:induction false} LogKeepsFacts(log: seq<Event>, e: Event, id: nat, limits: Limits)
    ensures InstalledInTime(log, id, limits, |log|) ==> InstalledInTime(log + [e], id, limits, |log|)
    ensures ConfirmedAfterInstall(log, id, limits) ==> ConfirmedAfterInstall(log + [e], id, limits)
  {
    if InstalledInTime(log, id, limits, |log|) {
      var i :| 0 <= i < |log| && log[i].InstallerReturned? && log[i].installerOf == id && log[i].elapsed <= limits.installer;
      assert (log + [e])[i] == log[i];
    }
    if ConfirmedAfterInstall(log, id, limits) {
      var j :| 0 <= j < |log| && log[j] == ReadinessConfirmed(id) && InstalledInTime(log, id, limits, j);
      var i :| 0 <= i < j && log[i].InstallerReturned? && log[i].installerOf == id && log[i].elapsed <= limits.installer;
      assert (log + [e])[i] == log[i] && (log + [e])[j] == log[j];
    }
  }

  lemma {:induction false} StartKeepsInv(w: World, w': World, id: nat, limits: Limits)
    requires Inv(w, limits) && (StartStep(w, w', id) || WriteMarkerStep(w, w', id))
    ensures Inv(w', limits)
  {
  }

  lemma {:induction false} InvokeKeepsInv(w: World, w': World, id: nat, limits: Limits)
    requires Inv(w, limits) && InvokeInstallerStep(w, w', id)
    ensures Inv(w', limits)
  {
    assert w.owner == Some(id);
    InstallsGrow(w.log, InstallerInvoked(id));
    LogKeepsFacts(w.log, InstallerInvoked(id), id, limits);
  }

  lemma {:induction false} InstalledNow(log: seq<Event>, id: nat, elapsed: real, limits: Limits)
    requires elapsed <= limits.installer
    ensures var more := log + [InstallerReturned(id, elapsed)]; InstalledInTime(more, id, limits, |more|)
  {
    var more := log + [InstallerReturned(id, elapsed)];
    assert more[|log|] == InstallerReturned(id, elapsed);
  }

  lemma {:induction false} InstallerReturnsKeepsInv(
    w: World, id: nat, elapsed: real, readinessStart: real, limits: Limits)
    requires Inv(w, limits) && id in w.processes && w.processes[id].Installing?
    ensures Inv(InstallerReturns(w, id, elapsed, readinessStart, limits), limits)
  {
    InstallsGrow(w.log, InstallerReturned(id, elapsed));
    assert w.owner == Some(id);
    if elapsed <= limits.installer {
      InstalledNow(w.log, id, elapsed, limits);
    }
  }

  lemma {:induction false} InstallerEndsKeepsInv(w: World, w': World, id: nat, limits: Limits)
    requires Inv(w, limits) && InstallerEndsStep(w, w', id, limits)
    ensures Inv(w', limits)
  {
    if w' != At(w, id, Decided(Unknown)) {
      var elapsed, readinessStart :| w' == InstallerReturns(w, id, elapsed, readinessStart, limits);
      InstallerReturnsKeepsInv(w, id, elapsed, readinessStart, limits);
    }
  }

  function Confirms(w: World, id: nat): World {
    At(w.(log := w.log + [ReadinessConfirmed(id)]), id, Decided(Passed))
  }

  lemma {:induction false} ConfirmedNow(log: seq<Event>, id: nat, limits: Limits)
    requires InstalledInTime(log, id, limits, |log|)
    ensures ConfirmedAfterInstall(log + [ReadinessConfirmed(id)], id, limits)
  {
    var e := ReadinessConfirmed(id);
    LogKeepsFacts(log, e, id, limits);
    assert (log + [e])[|log|] == e;
  }

  lemma {:induction false} ConfirmKeepsInv(w: World, id: nat, limits: Limits)
    requires Inv(w, limits) && id in w.processes && w.processes[id].Polling?
    ensures Inv(Confirms(w, id), limits)
  {
    assert w.owner == Some(id);
    InstallsGrow(w.log, ReadinessConfirmed(id));
    ConfirmedNow(w.log, id, limits);
  }

  lemma {:induction false} PollKeepsInv(w: World, w': World, id: nat, limits: Limits)
    requires Inv(w, limits) && PollStep(w, w', id)
    ensures Inv(w', limits)
  {
    if w' == Confirms(w, id) {
      ConfirmKeepsInv(w, id, limits);
    } else if w' == At(w, id, Decided(Unknown)) {
      assert w.owner == Some(id);
    }
  }

  lemma {:induction false} ResultKeepsInv(w: World, w': World, id: nat, limits: Limits)
    requires Inv(w, limits)
    requires OpenResultStep(w, w', id) || FinishResultStep(w, w', id) || ReturnStep(w, w', id)
    ensures Inv(w', limits)
  {
    assert w.owner == Some(id);
  }

  lemma {:induction false} OutsideKeepsInv(w: World, w': World, id: nat, limits: Limits)
    requires Inv(w, limits) && OutsideStep(w, w', id)
    ensures Inv(w', limits)
  {
  }

  /** Every step of every process, every death and every outside halt keeps the invariant. */
  lemma {:induction false} StepKeepsInv(w: World, w': World, limits: Limits)
    requires Inv(w, limits) && Step(w, w', limits)
    ensures Inv(w', limits)
  {
    var id :| ProcessStep(w, w', id, limits) || OutsideStep(w, w', id);
    if OutsideStep(w, w', id) {
      OutsideKeepsInv(w, w', id, limits);
    } else if StartStep(w, w', id) || WriteMarkerStep(w, w', id) {
      StartKeepsInv(w, w', id, limits);
    } else if InvokeInstallerStep(w, w', id) {
      InvokeKeepsInv(w, w', id, limits);
    } else if InstallerEndsStep(w, w', id, limits) {
      InstallerEndsKeepsInv(w, w', id, limits);
    } else if PollStep(w, w', id) {
      PollKeepsInv(w, w', id, limits);
    } else {
      ResultKeepsInv(w, w', id, limits);
    }
  }

  lemma {:induction false} RunKeepsInv(run: seq<World>, limits: Limits, i: nat)
    requires IsRun(run, limits) && i < |run|
    ensures Inv(run[i], limits)
  {
    if i > 0 {
      RunKeepsInv(run, limits, i - 1);
      assert Step(run[i - 1], run[i - 1 + 1], limits);
      StepKeepsInv(run[i - 1], run[i], limits);
    }
  }

  // ----- what every run guarantees

  /** At any moment of any run: at most one installer call; a result only after a marker; never a refusal by result. */
  lemma {:induction false} InstallerRunsAtMostOnce(run: seq<World>, limits: Limits, i: nat)
    requires IsRun(run, limits) && i < |run|
    ensures Installs(run[i].log) <= 1
    ensures run[i].disk.result != NoResult ==> run[i].disk.marker != Absent
    ensures forall id :: id in run[i].processes ==> run[i].processes[id] != RefusedByResult
    ensures forall id, id' :: id in run[i].processes && id' in run[i].processes && id != id' ==>
      run[i].processes[id] in {Ready, Refused, Dead} || run[i].processes[id'] in {Ready, Refused, Dead}
  {
    RunKeepsInv(run, limits, i);
  }

  /** A PASSED result was preceded by a readiness check that succeeded after an installer run within its limit. */
  lemma {:induction false} PassedIsEarned(run: seq<World>, limits: Limits, i: nat)
    requires IsRun(run, limits) && i < |run| && run[i].disk.result == Complete(Passed)
    ensures run[i].owner.Some? && ConfirmedAfterInstall(run[i].log, run[i].owner.value, limits)
  {
    RunKeepsInv(run, limits, i);
  }

  /** A process that returns UNKNOWN has engaged the halt, and whatever it returns is what the result file says. */
  lemma {:induction false} UnknownHalts(run: seq<World>, limits: Limits, i: nat, id: nat)
    requires IsRun(run, limits) && i < |run|
    requires id in run[i].processes && run[i].processes[id].Returned?
    ensures run[i].disk.result == Complete(run[i].processes[id].returned)
    ensures run[i].processes[id].returned == Unknown ==> run[i].disk.halted
  {
    RunKeepsInv(run, limits, i);
  }

  /** From moment `j` to moment `i` the owner has written UNKNOWN and not yet halted: it stands or has died there. */
  ghost predicate BetweenWrites(run: seq<World>, j: nat, i: nat)
    requires j <= i < |run|
  {
    && run[j].owner.Some? && run[j].owner.value in run[j].processes
    && run[j].processes[run[j].owner.value] == ResultWritten(Unknown)
    && forall k :: j <= k <= i ==>
      && run[k].owner == run[j].owner && run[k].owner.value in run[k].processes
      && run[k].processes[run[k].owner.value] in {ResultWritten(Unknown), Dead}
  }

  /** A step that leaves an unhalted UNKNOWN result has just written it, or at most killed its writer. */
  lemma {:induction false} UnhaltedStep(w: World, w': World, limits: Limits)
    requires Inv(w, limits) && Inv(w', limits) && Step(w, w', limits)
    requires w'.disk.result == Complete(Unknown) && !w'.disk.halted
    ensures w'.owner.Some? && w'.owner.value in w'.processes
    ensures w.disk.result != Complete(Unknown) ==> w'.processes[w'.owner.value] == ResultWritten(Unknown)
    ensures w.disk.result == Complete(Unknown) ==> !w.disk.halted && w'.owner == w.owner
    ensures w'.processes[w'.owner.value] in {ResultWritten(Unknown), Dead}
  {
    var id :| ProcessStep(w, w', id, limits) || OutsideStep(w, w', id);
  }

  /** An UNKNOWN result without a halt: its writer stands between the two writes, or died exactly there. */
  lemma {:induction false} UnhaltedUnknownIsInterrupted(run: seq<World>, limits: Limits, i: nat) returns (j: nat)
    requires IsRun(run, limits) && i < |run|
    requires run[i].disk.result == Complete(Unknown) && !run[i].disk.halted
    ensures j <= i && BetweenWrites(run, j, i)
  {
    RunKeepsInv(run, limits, i);
    assert i > 0;
    RunKeepsInv(run, limits, i - 1);
    assert Step(run[i - 1], run[i - 1 + 1], limits);
    UnhaltedStep(run[i - 1], run[i], limits);
    if run[i - 1].disk.result == Complete(Unknown) {
      j := UnhaltedUnknownIsInterrupted(run, limits, i - 1);
    } else {
      j := i;
    }
  }

  lemma {:induction false} RunGoesOn(run: seq<World>, w: World, limits: Limits)
    requires IsRun(run, limits) && Step(run[|run| - 1], w, limits)
    ensures IsRun(run + [w], limits)
  {
    var more := run + [w];
    forall i | 0 <= i < |more| - 1
      ensures Step(more[i], more[i + 1], limits)
    {
      if i < |run| - 1 {
        assert more[i] == run[i] && more[i + 1] == run[i + 1];
      } else {
        assert more[i] == run[|run| - 1] && more[i + 1] == w;
      }
    }
  }

  lemma {:induction false} OneMore(run: seq<World>, w: World, id: nat, limits: Limits) returns (more: seq<World>)
    requires IsRun(run, limits) && (ProcessStep(run[|run| - 1], w, id, limits) || OutsideStep(run[|run| - 1], w, id))
    ensures IsRun(more, limits) && more[|more| - 1] == w
  {
    assert Step(run[|run| - 1], w, limits);
    RunGoesOn(run, w, limits);
    more := run + [w];
  }

  /** A run whose only process has called the installer. */
  lemma {:induction false} InstallerCanBeReached(limits: Limits) returns (run: seq<World>)
    ensures IsRun(run, limits)
    ensures run[|run| - 1] ==
      World(Disk(Written, NoResult, false), map[0 := Installing(0.0)], Some(0), [InstallerInvoked(0)])
  {
    var w0 := World(Disk(Absent, NoResult, false), map[], None, []);
    var w1 := At(w0, 0, Ready);
    var w2 := At(w1, 0, MarkerCreated).(disk := Disk(Created, NoResult, false), owner := Some(0));
    var w3 := At(w2, 0, Started(0.0)).(disk := Disk(Written, NoResult, false));
    var w4 := At(w3, 0, Installing(0.0)).(log := [InstallerInvoked(0)]);
    run := OneMore([w0], w1, 0, limits);
    assert StartStep(w1, w2, 0);
    run := OneMore(run, w2, 0, limits);
    assert WriteMarkerStep(w2, w3, 0);
    run := OneMore(run, w3, 0, limits);
    assert InvokeInstallerStep(w3, w4, 0);
    run := OneMore(run, w4, 0, limits);
    assert w4.processes == map[0 := Installing(0.0)];
  }

  /** Such a death is possible: the halt is not guaranteed by an UNKNOWN result file alone. */
  lemma {:induction false} UnknownCanGoUnhalted(limits: Limits) returns (run: seq<World>)
    ensures IsRun(run, limits)
    ensures run[|run| - 1].disk == Disk(Written, Complete(Unknown), false)
    ensures run[|run| - 1].processes == map[0 := Dead]
  {
    run := InstallerCanBeReached(limits);
    var w4 := run[|run| - 1];
    var w5 := At(w4, 0, Decided(Unknown));
    var w6 := At(w5, 0, Writing(Unknown)).(disk := Disk(Written, Torn, false));
    var w7 := At(w6, 0, ResultWritten(Unknown)).(disk := Disk(Written, Complete(Unknown), false));
    var w8 := At(w7, 0, Dead);
    assert InstallerEndsStep(w4, w5, 0, limits);
    run := OneMore(run, w5, 0, limits);
    assert OpenResultStep(w5, w6, 0);
    run := OneMore(run, w6, 0, limits);
    assert FinishResultStep(w6, w7, 0);
    run := OneMore(run, w7, 0, limits);
    run := OneMore(run, w8, 0, limits);
    assert w8.processes == map[0 := Dead];
  }

  // ----- one process, step by step

  datatype Readiness = Confirmed | NotYet | Raises

  /** What a process meets outside: successive clock readings, whether the installer raises, each readiness check. */
  class Surroundings {
    const reading: nat -> real
    const installerRaises: bool
    const readiness: nat -> Readiness
    var readings: nat
    var polls: nat
    var installs: nat

    constructor (reading: nat -> real, installerRaises: bool, readiness: nat -> Readiness)
      ensures this.reading == reading && this.installerRaises == installerRaises && this.readiness == readiness
      ensures readings == 0 && polls == 0 && installs == 0
    {
      this.reading, this.installerRaises, this.readiness := reading, installerRaises, readiness;
      readings, polls, installs := 0, 0, 0;
    }

    method Monotonic() returns (now: real)
      modifies this`readings
      ensures now == reading(old(readings)) && readings == old(readings) + 1
    {
      now := reading(readings);
      readings := readings + 1;
    }

    method RunInstaller() returns (raised: bool)
      modifies this`installs
      ensures raised == installerRaises && installs == old(installs) + 1
    {
      raised := installerRaises;
      installs := installs + 1;
    }

    method VerifyReadiness() returns (answer: Readiness)
      modifies this`polls
      ensures answer == readiness(old(polls)) && polls == old(polls) + 1
    {
      answer := readiness(polls);
      polls := polls + 1;
    }
  }

  /** After each sleep the polling loop reads a clock advanced by at least `grain`. */
  ghost predicate SleepsAdvance(reading: nat -> real, grain: real) {
    grain > 0.0 && forall k: nat :: k >= 3 ==> reading(k) + grain <= reading(k + 1)
  }

  /** The files of one state root. */
  class StateRoot {
    var marker: Marker
    var result: ResultFile
    var halted: bool

    function OnDisk(): Disk
      reads this
    {
      Disk(marker, result, halted)
    }

    constructor ()
      ensures OnDisk() == Disk(Absent, NoResult, false)
    {
      marker, result, halted := Absent, NoResult, false;
    }
  }

  /** How many readings, `grain` apart, still fall within the limit. */
  ghost function Rounds(limit: real, elapsed: real, grain: real): nat
    requires grain > 0.0
  {
    if elapsed > limit then 0 else RoundsLeft(limit - elapsed, grain)
  }

  ghost function RoundsLeft(left: real, grain: real): nat
    requires grain > 0.0 && left >= 0.0
  {
    assert left / grain >= 0.0;
    (left / grain).Floor + 1
  }

  lemma {:induction false} ZeroProduct(x: real, d: real)
    requires x * d == 0.0 && d > 0.0
    ensures x == 0.0
  {
  }

  lemma {:induction false} RoundsShrink(limit: real, elapsed: real, later: real, grain: real)
    requires grain > 0.0 && elapsed <= limit && elapsed + grain <= later
    ensures Rounds(limit, later, grain) + 1 <= Rounds(limit, elapsed, grain)
  {
    if later <= limit {
      var x, y := (limit - elapsed) / grain, (limit - later) / grain;
      var z := (limit - elapsed - grain) / grain;
      assert x * grain == limit - elapsed && z * grain == limit - elapsed - grain;
      ZeroProduct(x - 1.0 - z, grain);
      QuotientGrows(limit - later, limit - elapsed - grain, grain);
      assert y <= x - 1.0;
    }
  }

  lemma {:induction false} QuotientGrows(x: real, y: real, d: real)
    requires x <= y && d > 0.0
    ensures x / d <= y / d
  {
    assert (y - x) / d >= 0.0;
    assert y / d == x / d + (y - x) / d;
  }

  lemma {:induction false} RoundsGrow(limit: real, elapsed: real, grain: real)
    requires grain > 0.0 && elapsed >= 0.0
    ensures Rounds(limit, elapsed, grain) <= Rounds(limit, 0.0, grain)
  {
    if elapsed <= limit {
      QuotientGrows(limit - elapsed, limit, grain);
    }
  }

  /** Consecutive steps of one process. */
  ghost predicate Follows(trace: seq<World>, id: nat, limits: Limits) {
    forall i :: 0 < i < |trace| ==> ProcessStep(trace[i - 1], trace[i], id, limits)
  }

  lemma {:induction false} Extend(trace: seq<World>, w: World, id: nat, limits: Limits)
    requires trace != [] && Follows(trace, id, limits) && ProcessStep(trace[|trace| - 1], w, id, limits)
    ensures Follows(trace + [w], id, limits)
  {
    var more := trace + [w];
    forall i | 0 < i < |more|
      ensures ProcessStep(more[i - 1], more[i], id, limits)
    {
      if i < |trace| {
        assert more[i - 1] == trace[i - 1] && more[i] == trace[i];
      }
    }
  }

  /**
    Check `k`, counted from `firstCheck`, is the first to confirm: every earlier one asked for another round,
    and each clock reading before these checks, taken after the one the window began at, is within the limit.
   */
  ghost predicate ConfirmsAt(
    reading: nat -> real, readiness: nat -> Readiness, begin: nat, firstCheck: nat, limit: real, k: nat)
  {
    && readiness(firstCheck + k) == Confirmed
    && AsksAgain(reading, readiness, begin, firstCheck, limit, k)
    && reading(begin + 1 + k) - reading(begin) <= limit
  }

  /** Round `j` found the window open and asked for another. */
  ghost predicate OpenRound(
    reading: nat -> real, readiness: nat -> Readiness, begin: nat, firstCheck: nat, limit: real, j: nat)
  {
    readiness(firstCheck + j) == NotYet && reading(begin + 1 + j) - reading(begin) <= limit
  }

  ghost predicate AsksAgain(
    reading: nat -> real, readiness: nat -> Readiness, begin: nat, firstCheck: nat, limit: real, k: nat)
  {
    forall j: nat :: j < k ==> OpenRound(reading, readiness, begin, firstCheck, limit, j)
  }

  ghost predicate SomeCheckConfirms(
    reading: nat -> real, readiness: nat -> Readiness, begin: nat, firstCheck: nat, limit: real)
  {
    exists k: nat :: ConfirmsAt(reading, readiness, begin, firstCheck, limit, k)
  }

  /** A round that closes the window or raises leaves no check that could confirm. */
  lemma {:induction false} NoCheckConfirms(
    reading: nat -> real, readiness: nat -> Readiness, begin: nat, firstCheck: nat, limit: real, k: nat)
    requires AsksAgain(reading, readiness, begin, firstCheck, limit, k)
    requires reading(begin + 1 + k) - reading(begin) > limit || readiness(firstCheck + k) == Raises
    ensures !SomeCheckConfirms(reading, readiness, begin, firstCheck, limit)
  {
    assert readiness(firstCheck + k) == Raises ==> readiness(firstCheck + k) != NotYet;
    assert !OpenRound(reading, readiness, begin, firstCheck, limit, k);
    forall n: nat
      ensures !ConfirmsAt(reading, readiness, begin, firstCheck, limit, n)
    {
      assert n < k ==> OpenRound(reading, readiness, begin, firstCheck, limit, n);
      assert n > k && AsksAgain(reading, readiness, begin, firstCheck, limit, n) ==>
        OpenRound(reading, readiness, begin, firstCheck, limit, k);
    }
  }

  lemma {:induction false} AsksOnce(
    reading: nat -> real, readiness: nat -> Readiness, begin: nat, firstCheck: nat, limit: real, k: nat)
    requires AsksAgain(reading, readiness, begin, firstCheck, limit, k)
    requires OpenRound(reading, readiness, begin, firstCheck, limit, k)
    ensures AsksAgain(reading, readiness, begin, firstCheck, limit, k + 1)
  {
  }

  /** Read the clock; while the window is open, ask once. */
  method PollOnce(env: Surroundings, readinessStart: real, limit: real) returns (answer: Option<Readiness>)
    modifies env`readings, env`polls
    ensures env.readings == old(env.readings) + 1
    ensures answer.None? <==> env.reading(old(env.readings)) - readinessStart > limit
    ensures env.polls == old(env.polls) + if answer.Some? then 1 else 0
    ensures answer.Some? ==> answer.value == env.readiness(old(env.polls))
  {
    var now := env.Monotonic();
    if now - readinessStart > limit {
      return None;
    }
    var readiness := env.VerifyReadiness();
    answer := Some(readiness);
  }

  lemma {:induction false} RoundsPositive(limit: real, elapsed: real, grain: real)
    requires grain > 0.0 && elapsed <= limit
    ensures Rounds(limit, elapsed, grain) >= 1
  {
  }

  /** What a round may still use up: the checks made so far and those the clock leaves room for. */
  ghost predicate WithinRounds(checks: int, limit: real, elapsed: real, grain: real)
    requires grain > 0.0
  {
    checks + Rounds(limit, elapsed, grain) <= Rounds(limit, 0.0, grain)
  }

  lemma {:induction false} RoundCounts(checks: int, limit: real, elapsed: real, later: real, grain: real)
    requires grain > 0.0 && elapsed <= limit && elapsed + grain <= later && WithinRounds(checks, limit, elapsed, grain)
    ensures WithinRounds(checks + 1, limit, later, grain)
    ensures checks + 1 <= Rounds(limit, 0.0, grain)
    ensures Rounds(limit, later, grain) < Rounds(limit, elapsed, grain)
  {
    RoundsPositive(limit, elapsed, grain);
    RoundsShrink(limit, elapsed, later, grain);
  }

  /**
    Wait for readiness until the window closes. Each round reads the clock, asks, and sleeps; the loop ends
    because every sleep advances the clock.
   */
  method PollReadiness(env: Surroundings, limit: real, ghost grain: real) returns (outcome: Outcome)
    requires env.readings >= 2 && SleepsAdvance(env.reading, grain)
    requires env.reading(env.readings) <= env.reading(env.readings + 1)
    modifies env`readings, env`polls
    ensures outcome == Passed <==>
      SomeCheckConfirms(env.reading, env.readiness, old(env.readings), old(env.polls), limit)
    ensures outcome == Passed ==> env.polls > old(env.polls) && env.readiness(env.polls - 1) == Confirmed
    ensures env.polls - old(env.polls) <= Rounds(limit, 0.0, grain)
  {
    ghost var begin, firstCheck := env.readings, env.polls;
    var readinessStart := env.Monotonic();
    RoundsGrow(limit, env.reading(env.readings) - readinessStart, grain);
    while true
      invariant env.readings == begin + 1 + (env.polls - firstCheck) && env.polls >= firstCheck
      invariant AsksAgain(env.reading, env.readiness, begin, firstCheck, limit, env.polls - firstCheck)
      invariant WithinRounds(env.polls - firstCheck, limit, env.reading(env.readings) - readinessStart, grain)
      decreases Rounds(limit, env.reading(env.readings) - readinessStart, grain)
    {
      ghost var k, before := env.polls - firstCheck, env.reading(env.readings) - readinessStart;
      var answer := PollOnce(env, readinessStart, limit);
      if answer.Some? {
        RoundCounts(k, limit, before, env.reading(env.readings) - readinessStart, grain);
      }
      if answer == Some(Confirmed) {
        assert ConfirmsAt(env.reading, env.readiness, begin, firstCheck, limit, k);
        return Passed;
      }
      if answer != Some(NotYet) {
        NoCheckConfirms(env.reading, env.readiness, begin, firstCheck, limit, k);
        return Unknown;
      }
      AsksOnce(env.reading, env.readiness, begin, firstCheck, limit, k);
    }
  }

  /** The poll as a step of the protocol. */
  method AwaitReadiness(
    env: Surroundings, limits: Limits, ghost grain: real, ghost w: World, ghost id: nat)
    returns (outcome: Outcome, ghost w': World)
    requires env.readings >= 2 && SleepsAdvance(env.reading, grain)
    requires env.reading(env.readings) <= env.reading(env.readings + 1)
    requires id in w.processes && w.processes[id] == Polling(env.reading(env.readings))
    modifies env`readings, env`polls
    ensures PollStep(w, w', id) && w'.processes[id] == Decided(outcome) && w'.disk == w.disk
    ensures outcome == Passed <==>
      SomeCheckConfirms(env.reading, env.readiness, old(env.readings), old(env.polls), limits.readiness)
    ensures outcome == Passed ==> env.polls > old(env.polls) && env.readiness(env.polls - 1) == Confirmed
    ensures env.polls - old(env.polls) <= Rounds(limits.readiness, 0.0, grain)
  {
    outcome := PollReadiness(env, limits.readiness, grain);
    w' := if outcome == Passed then Confirms(w, id) else At(w, id, Decided(Unknown));
  }

  /** A trace of process `id` that began in `w` and now stands in its last world. */
  ghost predicate TraceFrom(trace: seq<World>, w: World, id: nat, limits: Limits) {
    trace != [] && trace[0] == w && id in trace[|trace| - 1].processes && Follows(trace, id, limits)
  }

  ghost function Last(trace: seq<World>): World
    requires trace != []
  {
    trace[|trace| - 1]
  }

  /** Create the marker exclusively, then write its body; or be refused. */
  method ExclusiveStart(root: StateRoot, ghost start: real, limits: Limits, ghost w: World, ghost id: nat)
    returns (refused: bool, ghost trace: seq<World>)
    requires w.disk == root.OnDisk() && id in w.processes && w.processes[id] == Ready
    modifies root
    ensures TraceFrom(trace, w, id, limits) && Last(trace).disk == root.OnDisk()
    ensures refused <==> old(root.marker) != Absent
    ensures if refused
      then Last(trace).processes[id] == Refused && root.OnDisk() == old(root.OnDisk())
      else
        && Last(trace).processes[id] == Started(start)
        && root.OnDisk() == Disk(Written, old(root.result), old(root.halted))
  {
    if root.marker != Absent {
      trace := [w, At(w, id, Refused)];
      return true, trace;
    }
    ghost var created := At(w, id, MarkerCreated).(disk := w.disk.(marker := Created), owner := Some(id));
    root.marker := Created;
    root.marker := Written;
    ghost var begun := At(created, id, Started(start)).(disk := created.disk.(marker := Written));
    assert WriteMarkerStep(created, begun, id);
    trace := [w, created, begun];
    refused := false;
  }

  /** Calling the installer, and its end. */
  lemma {:induction false} InstallTrace(w: World, w': World, id: nat, limits: Limits)
    requires id in w.processes && w.processes[id].Started?
    requires InstallerEndsStep(Invoked(w, id, w.processes[id].startedAt), w', id, limits)
    ensures Follows([w, Invoked(w, id, w.processes[id].startedAt), w'], id, limits)
  {
    var installing := Invoked(w, id, w.processes[id].startedAt);
    assert InvokeInstallerStep(w, installing, id);
    assert ProcessStep(w, installing, id, limits) && ProcessStep(installing, w', id, limits);
  }

  /** Call the installer once and, if it returns in time, await readiness; anything raised leaves UNKNOWN. */
  method InstallAndAwait(
    env: Surroundings, limits: Limits, ghost grain: real, start: real, ghost w: World, ghost id: nat)
    returns (decision: Outcome, ghost trace: seq<World>)
    requires env.readings == 1 && start == env.reading(0) && SleepsAdvance(env.reading, grain)
    requires forall k: nat :: env.reading(k) <= env.reading(k + 1)
    requires id in w.processes && w.processes[id] == Started(start)
    modifies env
    ensures TraceFrom(trace, w, id, limits)
    ensures Last(trace).disk == w.disk && Last(trace).processes[id] == Decided(decision)
    ensures env.installs == old(env.installs) + 1
    ensures decision == Passed <==>
      && !env.installerRaises && env.reading(1) - env.reading(0) <= limits.installer
      && SomeCheckConfirms(env.reading, env.readiness, 2, old(env.polls), limits.readiness)
    ensures decision == Passed ==>
      && !env.installerRaises && env.reading(1) - env.reading(0) <= limits.installer
      && env.polls > old(env.polls) && env.readiness(env.polls - 1) == Confirmed
    ensures env.polls - old(env.polls) <= Rounds(limits.readiness, 0.0, grain)
  {
    ghost var installing := Invoked(w, id, start);
    var raised := env.RunInstaller();
    if raised {
      trace := [w, installing, At(installing, id, Decided(Unknown))];
      InstallTrace(w, Last(trace), id, limits);
      return Unknown, trace;
    }
    var now := env.Monotonic();
    ghost var returned := InstallerReturns(installing, id, now - start, env.reading(env.readings), limits);
    trace := [w, installing, returned];
    InstallTrace(w, returned, id, limits);
    if now - start > limits.installer {
      return Unknown, trace;
    }
    ghost var decided;
    decision, decided := AwaitReadiness(env, limits, grain, returned, id);
    Extend(trace, decided, id, limits);
    trace := trace + [decided];
  }

  /** Write the result unless one exists, then engage the halt on UNKNOWN. */
  method Publish(root: StateRoot, decision: Outcome, limits: Limits, ghost w: World, ghost id: nat)
    returns (refused: bool, ghost trace: seq<World>)
    requires w.disk == root.OnDisk() && id in w.processes && w.processes[id] == Decided(decision)
    modifies root
    ensures TraceFrom(trace, w, id, limits) && Last(trace).disk == root.OnDisk()
    ensures refused <==> old(root.result) != NoResult
    ensures if refused
      then Last(trace).processes[id] == RefusedByResult && root.OnDisk() == old(root.OnDisk())
      else
        && Last(trace).processes[id] == Returned(decision)
        && root.OnDisk() == Disk(old(root.marker), Complete(decision), old(root.halted) || decision == Unknown)
  {
    if root.result != NoResult {
      trace := [w, At(w, id, RefusedByResult)];
      return true, trace;
    }
    ghost var writing := At(w, id, Writing(decision)).(disk := w.disk.(result := Torn));
    root.result := Torn;
    ghost var written := At(writing, id, ResultWritten(decision)).(disk := writing.disk.(result := Complete(decision)));
    root.result := Complete(decision);
    if decision == Unknown {
      root.halted := true;
    }
    ghost var last := At(written, id, Returned(decision)).(disk := root.OnDisk());
    trace := [w, writing, written, last];
    refused := false;
  }

  lemma {:induction false} Join(a: seq<World>, b: seq<World>, w: World, id: nat, limits: Limits)
    requires TraceFrom(a, w, id, limits) && TraceFrom(b, Last(a), id, limits)
    ensures TraceFrom(a + b[1..], w, id, limits) && Last(a + b[1..]) == Last(b)
  {
    var c := a + b[1..];
    forall i | 0 < i < |c|
      ensures ProcessStep(c[i - 1], c[i], id, limits)
    {
      if i < |a| {
        assert c[i - 1] == a[i - 1] && c[i] == a[i];
      } else {
        var j := i - |a| + 1;
        assert c[i] == b[j] && c[i - 1] == b[j - 1];
        assert ProcessStep(b[j - 1], b[j], id, limits);
      }
    }
  }

  /** Everything after the marker: install, await readiness, publish. */
  method RunStarted(
    root: StateRoot, env: Surroundings, limits: Limits, ghost grain: real, start: real, ghost w: World, ghost id: nat)
    returns (outcome: Option<Outcome>, ghost trace: seq<World>)
    requires env.readings == 1 && start == env.reading(0) && SleepsAdvance(env.reading, grain)
    requires forall k: nat :: env.reading(k) <= env.reading(k + 1)
    requires w.disk == root.OnDisk() && id in w.processes && w.processes[id] == Started(start)
    modifies root, env
    ensures TraceFrom(trace, w, id, limits) && Last(trace).disk == root.OnDisk()
    ensures outcome.None? <==> old(root.result) != NoResult
    ensures match outcome
      case None => Last(trace).processes[id] == RefusedByResult && root.OnDisk() == old(root.OnDisk())
      case Some(o) =>
        && Last(trace).processes[id] == Returned(o)
        && root.OnDisk() == Disk(old(root.marker), Complete(o), old(root.halted) || o == Unknown)
    ensures env.installs == old(env.installs) + 1
    ensures outcome == Some(Passed) <==>
      && old(root.result) == NoResult
      && !env.installerRaises && env.reading(1) - env.reading(0) <= limits.installer
      && SomeCheckConfirms(env.reading, env.readiness, 2, old(env.polls), limits.readiness)
    ensures outcome == Some(Passed) ==>
      && !env.installerRaises && env.reading(1) - env.reading(0) <= limits.installer
      && env.polls > old(env.polls) && env.readiness(env.polls - 1) == Confirmed
    ensures env.polls - old(env.polls) <= Rounds(limits.readiness, 0.0, grain)
  {
    var decision;
    decision, trace := InstallAndAwait(env, limits, grain, start, w, id);
    ghost var more;
    var refused;
    refused, more := Publish(root, decision, limits, Last(trace), id);
    Join(trace, more, w, id, limits);
    trace := trace + more[1..];
    outcome := if refused then None else Some(decision);
  }

  /**
    One run of the operation on its own, starting from any files. It either is refused at the marker, having
    touched nothing, or takes the protocol's steps to the end; dying on the way leaves a prefix of them.
   */
  method RunOperation60Candidate(
    root: StateRoot, env: Surroundings, limits: Limits, ghost grain: real, ghost w: World, ghost id: nat)
    returns (outcome: Result<Outcome, string>, ghost trace: seq<World>)
    requires env.readings == 0 && SleepsAdvance(env.reading, grain)
    requires forall k: nat :: env.reading(k) <= env.reading(k + 1)
    requires w.disk == root.OnDisk() && id in w.processes && w.processes[id] == Ready
    modifies root, env
    ensures TraceFrom(trace, w, id, limits) && Last(trace).disk == root.OnDisk()
    ensures match outcome
      case Ok(o) => Last(trace).processes[id] == Returned(o)
      case Err(_) => Last(trace).processes[id] in {Refused, RefusedByResult}
    ensures outcome == Err("G075_OPERATION_60_ALREADY_STARTED_NO_RETRY") <==> old(root.marker) != Absent
    ensures old(root.marker) != Absent ==> root.OnDisk() == old(root.OnDisk()) && env.installs == old(env.installs)
    ensures old(root.marker) == Absent ==> root.marker == Written && env.installs == old(env.installs) + 1
    ensures old(root.marker) == Absent && old(root.result) == NoResult ==>
      outcome.Ok? && root.result == Complete(outcome.value)
    ensures outcome.Ok? ==> root.halted == (old(root.halted) || outcome.value == Unknown)
    ensures outcome == Ok(Passed) <==>
      && old(root.marker) == Absent && old(root.result) == NoResult
      && !env.installerRaises && env.reading(1) - env.reading(0) <= limits.installer
      && SomeCheckConfirms(env.reading, env.readiness, 2, old(env.polls), limits.readiness)
    ensures outcome == Ok(Passed) ==>
      && !env.installerRaises && env.reading(1) - env.reading(0) <= limits.installer
      && env.polls > old(env.polls) && env.readiness(env.polls - 1) == Confirmed
    ensures env.polls - old(env.polls) <= Rounds(limits.readiness, 0.0, grain)
  {
    var refused;
    refused, trace := ExclusiveStart(root, env.reading(0), limits, w, id);
    if refused {
      return Err("G075_OPERATION_60_ALREADY_STARTED_NO_RETRY"), trace;
    }
    var start := env.Monotonic();
    ghost var more;
    var finished;
    finished, more := RunStarted(root, env, limits, grain, start, Last(trace), id);
    Join(trace, more, w, id, limits);
    trace := trace + more[1..];
    if finished.None? {
      return Err("G075_OPERATION_60_RESULT_EXISTS_NO_RETRY"), trace;
    }
    outcome := Ok(finished.value);
  }
}
