/**
 * The Android session runtime over the native session: callers start and stop, one worker thread prepares, runs and
 * finishes, and every synchronized section is one step.
 */
module SessionRuntime {
  import opened Bytes
  import N = NativeSession

  datatype Kind = ClientKind | ServerKind

  datatype State =
    | Idle
    | Starting(kind: Kind)
    | Running(kind: Kind)
    | Stopping(kind: Kind)
    | Stopped(kind: Kind)
    | Finished(kind: Kind)
    | Failed(kind: Kind)

  /** activeKind, stopRequested and mutableState. */
  datatype Runtime = Runtime(activeKind: Option<Kind>, stopRequested: bool, state: State)

  // ----- the synchronized sections

  function Begun(r: Runtime, kind: Kind): Runtime {
    if r.activeKind.Some? then r else Runtime(Some(kind), false, State.Starting(kind))
  }

  function StopAsked(r: Runtime): Runtime {
    if r.activeKind.Some? && !r.stopRequested then Runtime(r.activeKind, true, State.Stopping(r.activeKind.value)) else r
  }

  function Announced(r: Runtime, kind: Kind): Runtime {
    if r.stopRequested then r else r.(state := State.Running(kind))
  }

  function Ended(r: Runtime, kind: Kind, terminal: State): Runtime {
    if r.activeKind != Some(kind) then r else Runtime(None, false, terminal)
  }

  class SessionObject {
    var activeKind: Option<Kind>
    var stopRequested: bool
    var state: State
    const native: N.Globals

    constructor ()
      ensures View() == Runtime(None, false, Idle) && native.View() == N.Session(None, None, false) && fresh(native)
    {
      activeKind, stopRequested, state := None, false, Idle;
      native := new N.Globals();
    }

    function View(): Runtime
      reads this
    {
      Runtime(activeKind, stopRequested, state)
    }

    /** The locked part of startSession. */
    method StartSession(kind: Kind) returns (ok: bool)
      modifies this, native
      ensures ok == old(activeKind).None? && View() == Begun(old(View()), kind)
      ensures native.View() == if ok then N.Cleared(old(native.View())) else old(native.View())
      ensures ok ==> activeKind == Some(kind) && !stopRequested && state == State.Starting(kind)
      ensures ok ==> native.stopRequested == old(native.stopRequested && (native.prepared.Some? || native.active.Some?))
      ensures !ok ==> View() == old(View())
    {
      if activeKind.Some? {
        return false;
      }
      native.Reset();
      activeKind := Some(kind);
      stopRequested := false;
      state := State.Starting(kind);
      return true;
    }

    /** stop. */
    method Stop()
      modifies this, native
      ensures View() == StopAsked(old(View()))
      ensures activeKind == old(activeKind) && stopRequested == (old(stopRequested) || activeKind.Some?)
      ensures state == if activeKind.Some? && !old(stopRequested) then State.Stopping(activeKind.value) else old(state)
      ensures activeKind.Some? && !old(stopRequested) ==> native.stopRequested
      ensures native.View() == if View() == old(View()) then old(native.View()) else old(native.View()).(stop := true)
    {
      if activeKind.Some? && !stopRequested {
        stopRequested := true;
        state := State.Stopping(activeKind.value);
        var interrupted := native.Interrupt();
      }
    }

    /** The locked parts of runSession and finishSession. */
    method Announce(kind: Kind)
      modifies this
      ensures View() == Announced(old(View()), kind)
      ensures state == (if stopRequested then old(state) else State.Running(kind))
      ensures stopRequested == old(stopRequested) && activeKind == old(activeKind)
    {
      if !stopRequested {
        state := State.Running(kind);
      }
    }

    method FinishSession(kind: Kind, terminal: State)
      modifies this
      ensures View() == Ended(old(View()), kind, terminal)
      ensures old(activeKind) == Some(kind) ==> activeKind == None && !stopRequested && state == terminal
      ensures old(activeKind) != Some(kind) ==> View() == old(View())
    {
      if activeKind != Some(kind) {
        return;
      }
      activeKind := None;
      stopRequested := false;
      state := terminal;
    }
  }

  // ----- the whole

  datatype Outcome = Throws | Zero | Handle(test: N.Address)

  datatype Result = ResultFinished | ResultStopped | ResultFailed

  /** Where the worker is in runSession. */
  datatype Worker =
    | Waiting
    | Preparing(kind: Kind)
    | Announcing(kind: Kind, test: N.Address)
    | Calling(kind: Kind, test: N.Address)
    | InTest(kind: Kind, test: N.Address)
    | Returned(kind: Kind, result: Result)
    | Ending(kind: Kind, terminal: State)

  /** `pending` have left the lock of startSession but not reached the executor, whose queue is `tasks`. */
  datatype World = World(runtime: Runtime, native: N.Session, pending: seq<Kind>, tasks: seq<Kind>, worker: Worker)

  const START: World := World(Runtime(None, false, Idle), N.Session(None, None, false), [], [], Waiting)

  datatype Action =
    | Start(kind: Kind)
    | Stop
    | Submit
    | Take
    | Prepare(outcome: Outcome)
    | Announce
    | RunEnters
    | RunThrows
    | RunLeaves(failed: bool)
    | Decide
    | Finish

  predicate Enabled(w: World, a: Action) {
    match a
    case Start(_) => true
    case Stop => true
    case Submit => w.pending != []
    case Take => w.worker.Waiting? && w.tasks != []
    case Prepare(_) => w.worker.Preparing?
    case Announce => w.worker.Announcing?
    case RunEnters => w.worker.Calling?
    case RunThrows => w.worker.Calling?
    case RunLeaves(_) => w.worker.InTest?
    case Decide => w.worker.Returned?
    case Finish => w.worker.Ending?
  }

  function Step(w: World, a: Action): World
    requires Enabled(w, a)
  {
    match a
    case Start(kind) =>
      if w.runtime.activeKind.Some? then w
      else w.(runtime := Begun(w.runtime, kind), native := N.Cleared(w.native), pending := w.pending + [kind])
    case Stop =>
      var asked := StopAsked(w.runtime);
      if asked == w.runtime then w else w.(runtime := asked, native := w.native.(stop := true))
    case Submit => w.(pending := w.pending[1..], tasks := w.tasks + [w.pending[0]])
    case Take => w.(worker := Preparing(w.tasks[0]), tasks := w.tasks[1..])
    case Prepare(outcome) =>
      var kind := w.worker.kind;
      if outcome.Handle? && !N.Busy(w.native) then w.(native := N.Published(w.native, outcome.test), worker := Announcing(kind, outcome.test))
      else w.(worker := Ending(kind, State.Failed(kind)))
    case Announce => w.(runtime := Announced(w.runtime, w.worker.kind), worker := Calling(w.worker.kind, w.worker.test))
    case RunEnters =>
      var kind, test := w.worker.kind, w.worker.test;
      var worker :=
        match N.Judge(w.native, test)
        case Refused => Returned(kind, ResultFailed)
        case AlreadyStopped => Returned(kind, ResultStopped)
        case Started => InTest(kind, test);
      w.(native := N.Entered(w.native, test), worker := worker)
    case RunThrows => w.(worker := Ending(w.worker.kind, State.Failed(w.worker.kind)))
    case RunLeaves(failed) =>
      var result := if w.native.stop then ResultStopped else if failed then ResultFailed else ResultFinished;
      w.(native := w.native.(active := None), worker := Returned(w.worker.kind, result))
    case Decide => w.(worker := Ending(w.worker.kind, Terminal(w.worker.kind, w.worker.result, w.runtime.stopRequested)))
    case Finish => w.(runtime := Ended(w.runtime, w.worker.kind, w.worker.terminal), worker := Waiting)
  }

  function Terminal(kind: Kind, result: Result, stopped: bool): State {
    if stopped || result == ResultStopped then State.Stopped(kind)
    else if result == ResultFinished then State.Finished(kind)
    else State.Failed(kind)
  }

  // ----- what every step keeps

  function LiveKind(s: State): Option<Kind> {
    match s
    case Starting(k) => Some(k)
    case Running(k) => Some(k)
    case Stopping(k) => Some(k)
    case _ => None
  }

  predicate IsTerminal(s: State, kind: Kind) {
    s == State.Stopped(kind) || s == State.Finished(kind) || s == State.Failed(kind)
  }

  /** The state says exactly what the fields say, and the active session is in one place on its way. */
  ghost predicate Inv(w: World) {
    && w.runtime.activeKind == LiveKind(w.runtime.state)
    && w.runtime.stopRequested == w.runtime.state.Stopping?
    && (w.runtime.activeKind.None? ==> w.pending == w.tasks == [] && w.worker == Waiting)
    && (w.runtime.activeKind.Some? ==>
          var k := w.runtime.activeKind.value;
          || (w.pending == [k] && w.tasks == [] && w.worker == Waiting)
          || (w.pending == [] && w.tasks == [k] && w.worker == Waiting)
          || (w.pending == w.tasks == [] && !w.worker.Waiting? && w.worker.kind == k))
    && (w.worker.Ending? ==> IsTerminal(w.worker.terminal, w.worker.kind))
  }

  /** The native session holds just what the worker is busy with, and knows of a stop exactly when the runtime does. */
  ghost predicate InStep(w: World) {
    && w.native.prepared == (if w.worker.Announcing? || w.worker.Calling? then Some(w.worker.test) else None)
    && w.native.active == (if w.worker.InTest? then Some(w.worker.test) else None)
    && (w.runtime.activeKind.Some? ==> w.native.stop == w.runtime.stopRequested)
  }

  lemma StepKeeps(w: World, a: Action)
    requires Inv(w) && Enabled(w, a)
    ensures Inv(Step(w, a))
    ensures InStep(w) && a != RunThrows ==> InStep(Step(w, a))
    ensures w.runtime.state.Stopping? && a.Start? ==> Step(w, a) == w
  {
  }

  ghost predicate IsRun(w: World, run: seq<Action>)
    decreases |run|
  {
    run == [] || (Enabled(w, run[0]) && IsRun(Step(w, run[0]), run[1..]))
  }

  ghost function After(w: World, run: seq<Action>): World
    requires IsRun(w, run)
    decreases |run|
  {
    if run == [] then w else After(Step(w, run[0]), run[1..])
  }

  lemma {:induction false} RunKeeps(w: World, run: seq<Action>)
    requires Inv(w) && IsRun(w, run)
    ensures Inv(After(w, run))
    ensures InStep(w) && RunThrows !in run ==> InStep(After(w, run))
    decreases |run|
  {
    if run != [] {
      StepKeeps(w, run[0]);
      RunKeeps(Step(w, run[0]), run[1..]);
    }
  }

  /** After any run, activeKind is set exactly when the state is Starting, Running or Stopping, and to its kind. */
  lemma StateTellsKind(run: seq<Action>)
    requires IsRun(START, run)
    ensures var r := After(START, run).runtime;
            forall k :: r.activeKind == Some(k) <==> r.state in {State.Starting(k), State.Running(k), State.Stopping(k)}
  {
    RunKeeps(START, run);
  }

  /** A prepared test has been left behind: no session gets past preparing. */
  ghost predicate Stuck(w: World) {
    && Inv(w) && w.native.prepared.Some? && w.native.active.None?
    && (w.worker.Waiting? || w.worker.Preparing? || w.worker.Ending?)
  }

  lemma {:induction false} StuckStays(w: World, run: seq<Action>)
    requires Stuck(w) && IsRun(w, run)
    ensures Stuck(After(w, run))
    decreases |run|
  {
    if run != [] {
      StepKeeps(w, run[0]);
      StuckStays(Step(w, run[0]), run[1..]);
    }
  }

  lemma {:induction false} ThrowSticks(w: World, run: seq<Action>)
    requires Inv(w) && InStep(w) && IsRun(w, run) && RunThrows in run
    ensures Stuck(After(w, run))
    decreases |run|
  {
    StepKeeps(w, run[0]);
    if run[0] == RunThrows {
      StuckStays(Step(w, run[0]), run[1..]);
    } else {
      ThrowSticks(Step(w, run[0]), run[1..]);
    }
  }

  /**
   * After any run a start finds the native session idle, so that no stop leaks into it, exactly if the native call itself
   * has never thrown.
   */
  lemma StartIsClean(run: seq<Action>, kind: Kind)
    requires IsRun(START, run) && After(START, run).runtime.activeKind.None?
    ensures Step(After(START, run), Start(kind)).native == N.Session(None, None, false) <==> RunThrows !in run
  {
    RunKeeps(START, run);
    if RunThrows in run {
      ThrowSticks(START, run);
    }
  }

  /**
   * When it does throw, the prepared test stays behind: the next session starts with the stop request of the last one,
   * and cannot prepare.
   */
  lemma ThrowLeaks(w: World, kind: Kind, outcome: Outcome)
    requires Inv(w) && InStep(w) && w.worker.Calling?
    ensures var v := Step(Step(Step(w, RunThrows), Finish), Start(kind));
            && v.runtime == Runtime(Some(kind), false, State.Starting(kind))
            && v.native.prepared == Some(w.worker.test) && v.native.stop == w.runtime.stopRequested
            && Step(Step(Step(v, Submit), Take), Prepare(outcome)).worker == Ending(kind, State.Failed(kind))
  {
    var u := Step(Step(w, RunThrows), Finish);
    assert u.runtime.activeKind.None? && u.native == w.native && u.worker == Waiting && u.pending == u.tasks == [];
    var v := Step(u, Start(kind));
    assert v.pending == [kind] && v.native == w.native;
    assert Step(Step(v, Submit), Take).worker == Preparing(kind);
  }

  predicate Leads(w: World, a: Action, v: World) {
    Enabled(w, a) && Step(w, a) == v
  }

  lemma {:induction false} PathIsRun(path: seq<World>, run: seq<Action>)
    requires |path| == |run| + 1 && forall i :: 0 <= i < |run| ==> Leads(path[i], run[i], path[i + 1])
    ensures IsRun(path[0], run) && After(path[0], run) == path[|run|]
    decreases |run|
  {
    if run != [] {
      PathIsRun(path[1..], run[1..]);
    }
  }

  lemma {:induction false} Joined(w: World, first: seq<Action>, second: seq<Action>)
    requires IsRun(w, first) && IsRun(After(w, first), second)
    ensures IsRun(w, first + second) && After(w, first + second) == After(After(w, first), second)
    decreases |first|
  {
    if first == [] {
      assert first + second == second;
    } else {
      Joined(Step(w, first[0]), first[1..], second);
      assert (first + second)[1..] == first[1..] + second;
    }
  }

  /** The worker about to call the native run, in a session not asked to stop. */
  function CallingRun(kind: Kind, test: N.Address): World {
    World(Runtime(Some(kind), false, State.Running(kind)), N.Session(Some(test), None, false), [], [], Calling(kind, test))
  }

  lemma CallIsReached(kind: Kind, test: N.Address)
    ensures var run := [Start(kind), Submit, Take, Prepare(Handle(test)), Announce];
            IsRun(START, run) && After(START, run) == CallingRun(kind, test)
  {
    hide IsRun, After;
    var going, idle := Runtime(Some(kind), false, State.Starting(kind)), N.Session(None, None, false);
    var v1 := World(going, idle, [kind], [], Waiting);
    var v2 := World(going, idle, [], [kind], Waiting);
    var v3 := World(going, idle, [], [], Preparing(kind));
    var v4 := World(going, N.Session(Some(test), None, false), [], [], Announcing(kind, test));
    var v5 := CallingRun(kind, test);
    assert Leads(START, Start(kind), v1) && Leads(v1, Submit, v2) && Leads(v2, Take, v3);
    assert Leads(v3, Prepare(Handle(test)), v4) && Leads(v4, Announce, v5);
    hide Leads;
    PathIsRun([START, v1, v2, v3, v4, v5], [Start(kind), Submit, Take, Prepare(Handle(test)), Announce]);
  }

  lemma StopThenThrow(kind: Kind, next: Kind, test: N.Address)
    ensures var run := [Stop, RunThrows, Finish, Start(next)];
            && IsRun(CallingRun(kind, test), run)
            && var w := After(CallingRun(kind, test), run);
               w.runtime == Runtime(Some(next), false, State.Starting(next)) && w.native == N.Session(Some(test), None, true)
  {
    hide IsRun, After;
    var stopping, stopped := Runtime(Some(kind), true, State.Stopping(kind)), N.Session(Some(test), None, true);
    var v5 := CallingRun(kind, test);
    var v6 := World(stopping, stopped, [], [], Calling(kind, test));
    var v7 := World(stopping, stopped, [], [], Ending(kind, State.Failed(kind)));
    var v8 := World(Runtime(None, false, State.Failed(kind)), stopped, [], [], Waiting);
    var v9 := World(Runtime(Some(next), false, State.Starting(next)), stopped, [next], [], Waiting);
    assert Leads(v5, Stop, v6) && Leads(v6, RunThrows, v7) && Leads(v7, Finish, v8) && Leads(v8, Start(next), v9);
    hide Leads;
    PathIsRun([v5, v6, v7, v8, v9], [Stop, RunThrows, Finish, Start(next)]);
  }

  /** Such a run from the start: the next session, of any kind, starts with the old stop and the old test in its way. */
  lemma StopLeaks(kind: Kind, next: Kind, test: N.Address)
    ensures var run := [Start(kind), Submit, Take, Prepare(Handle(test)), Announce] + [Stop, RunThrows, Finish, Start(next)];
            && IsRun(START, run)
            && var w := After(START, run);
               w.runtime == Runtime(Some(next), false, State.Starting(next)) && w.native == N.Session(Some(test), None, true)
  {
    hide IsRun, After;
    CallIsReached(kind, test);
    StopThenThrow(kind, next, test);
    Joined(START, [Start(kind), Submit, Take, Prepare(Handle(test)), Announce], [Stop, RunThrows, Finish, Start(next)]);
  }

  // ----- how sessions end

  /** What the native run returned decides the terminal state, unless a stop was asked for: then that does. */
  lemma ReturnedEnds(w: World)
    requires Inv(w) && w.worker.Returned?
    ensures Step(Step(w, Decide), Finish).runtime ==
            Runtime(None, false,
                    if w.runtime.stopRequested then State.Stopped(w.worker.kind)
                    else match w.worker.result
                         case ResultStopped => State.Stopped(w.worker.kind)
                         case ResultFinished => State.Finished(w.worker.kind)
                         case ResultFailed => State.Failed(w.worker.kind))
    ensures Step(Step(w, Decide), Finish).worker == Waiting
  {
  }

  /** A test nobody stops ends Finished when it ran through and Failed when it did not. */
  lemma TestEnds(w: World, failed: bool)
    requires Inv(w) && InStep(w) && w.worker.InTest? && !w.runtime.stopRequested
    ensures var run := [RunLeaves(failed), Decide, Finish]; var kind := w.worker.kind;
            && IsRun(w, run)
            && After(w, run).runtime == Runtime(None, false, if failed then State.Failed(kind) else State.Finished(kind))
            && After(w, run).native == N.Session(None, None, false) && After(w, run).worker == Waiting
  {
    hide IsRun, After;
    var v1 := Step(w, RunLeaves(failed));
    var v2 := Step(v1, Decide);
    var v3 := Step(v2, Finish);
    assert Leads(w, RunLeaves(failed), v1) && Leads(v1, Decide, v2) && Leads(v2, Finish, v3);
    hide Leads;
    PathIsRun([w, v1, v2, v3], [RunLeaves(failed), Decide, Finish]);
  }

  /** A session that is stopped in its test, or before it, ends Stopped whatever the test says. */
  lemma StoppedTestEnds(w: World, failed: bool)
    requires Inv(w) && InStep(w) && w.worker.InTest? && w.runtime.stopRequested
    ensures Step(w, RunLeaves(failed)).worker == Returned(w.worker.kind, ResultStopped)
    ensures Step(Step(Step(w, RunLeaves(failed)), Decide), Finish).runtime == Runtime(None, false, State.Stopped(w.worker.kind))
  {
  }

  lemma StoppedBeforeTest(w: World)
    requires Inv(w) && InStep(w) && w.worker.Calling? && w.runtime.stopRequested
    ensures var v := Step(w, RunEnters);
            && v.worker == Returned(w.worker.kind, ResultStopped) && v.native.active.None? && v.native.prepared.None?
            && Step(Step(v, Decide), Finish).runtime == Runtime(None, false, State.Stopped(w.worker.kind))
  {
  }

  /** One that cannot prepare, or whose native call throws, ends Failed. */
  lemma UnpreparedEnds(w: World, outcome: Outcome)
    requires Inv(w) && InStep(w) && w.worker.Preparing? && !outcome.Handle?
    ensures Step(Step(w, Prepare(outcome)), Finish).runtime == Runtime(None, false, State.Failed(w.worker.kind))
  {
  }

  lemma ThrownEnds(w: World)
    requires Inv(w) && w.worker.Calling?
    ensures Step(Step(w, RunThrows), Finish).runtime == Runtime(None, false, State.Failed(w.worker.kind))
  {
  }

  lemma TestIsEntered(kind: Kind, test: N.Address)
    ensures var run := [Start(kind), Submit, Take, Prepare(Handle(test)), Announce] + [RunEnters];
            && IsRun(START, run)
            && After(START, run) ==
               World(Runtime(Some(kind), false, State.Running(kind)), N.Session(None, Some(test), false), [], [], InTest(kind, test))
  {
    hide IsRun, After;
    CallIsReached(kind, test);
    var v5 := CallingRun(kind, test);
    var v6 := World(Runtime(Some(kind), false, State.Running(kind)), N.Session(None, Some(test), false), [], [], InTest(kind, test));
    assert Leads(v5, RunEnters, v6);
    hide Leads, CallingRun;
    PathIsRun([v5, v6], [RunEnters]);
    Joined(START, [Start(kind), Submit, Take, Prepare(Handle(test)), Announce], [RunEnters]);
  }

  /** A whole session nobody stops, from the start to its end. */
  function WholeSession(kind: Kind, test: N.Address, failed: bool): seq<Action> {
    ([Start(kind), Submit, Take, Prepare(Handle(test)), Announce] + [RunEnters]) + [RunLeaves(failed), Decide, Finish]
  }

  lemma SessionEnds(kind: Kind, test: N.Address, failed: bool)
    ensures var run := WholeSession(kind, test, failed);
            && IsRun(START, run) && RunThrows !in run
            && After(START, run).runtime == Runtime(None, false, if failed then State.Failed(kind) else State.Finished(kind))
            && After(START, run).native == N.Session(None, None, false)
  {
    hide IsRun, After;
    TestIsEntered(kind, test);
    var first := [Start(kind), Submit, Take, Prepare(Handle(test)), Announce] + [RunEnters];
    TestEnds(After(START, first), failed);
    Joined(START, first, [RunLeaves(failed), Decide, Finish]);
  }

  // ----- stopping

  /** A session that is being stopped, or over. */
  predicate WindingUp(s: State, kind: Kind) {
    s == State.Stopping(kind) || IsTerminal(s, kind)
  }

  lemma WindingUpStays(w: World, a: Action, kind: Kind)
    requires Inv(w) && Enabled(w, a) && WindingUp(w.runtime.state, kind)
    ensures WindingUp(Step(w, a).runtime.state, kind) || (a.Start? && w.runtime.activeKind.None?)
  {
  }

  /** No start of the run is taken up: those there are find a session active and are refused. */
  ghost predicate Refused(w: World, run: seq<Action>)
    requires IsRun(w, run)
    decreases |run|
  {
    run != [] ==> !(run[0].Start? && w.runtime.activeKind.None?) && Refused(Step(w, run[0]), run[1..])
  }

  /** Within a session Running never follows Stopping: from there it only ends, until another start is taken up. */
  lemma {:induction false} StoppingNeverRuns(w: World, run: seq<Action>, kind: Kind)
    requires Inv(w) && IsRun(w, run) && WindingUp(w.runtime.state, kind) && Refused(w, run)
    ensures WindingUp(After(w, run).runtime.state, kind)
    decreases |run|
  {
    if run != [] {
      StepKeeps(w, run[0]);
      WindingUpStays(w, run[0], kind);
      StoppingNeverRuns(Step(w, run[0]), run[1..], kind);
    }
  }

  /** Running is entered only from Starting, of the same session. */
  lemma RunningComesFromStarting(w: World, a: Action)
    requires Inv(w) && Enabled(w, a)
    ensures Step(w, a).runtime.state.Running? ==>
              w.runtime.state == Step(w, a).runtime.state || w.runtime.state == State.Starting(Step(w, a).runtime.state.kind)
  {
  }

  /** The session that ends is the active one, and it ends in the state the worker settled on. */
  lemma FinishIsItsOwn(w: World)
    requires Inv(w) && w.worker.Ending?
    ensures Step(w, Finish).runtime == Runtime(None, false, w.worker.terminal)
  {
  }

  /** A stop is honoured when it comes before the worker reads the flag, and only then if the native test did not stop. */
  lemma StopIsHonoured(w: World)
    requires Inv(w) && w.worker.Returned? && w.worker.result != ResultStopped
    ensures Step(Step(w, Decide), Finish).runtime.state == State.Stopped(w.worker.kind) <==> w.runtime.stopRequested
    ensures Step(Step(Step(w, Decide), Stop), Finish).runtime.state == Step(Step(w, Decide), Finish).runtime.state
  {
  }

  // ----- the session object itself, through any run

  /** One step, with the fields in the session object and its native session, and all else in `w`. */
  method Perform(o: SessionObject, w: World, a: Action) returns (v: World)
    requires Enabled(w, a) && o.View() == w.runtime && o.native.View() == w.native
    modifies o, o.native
    ensures v == Step(w, a) && o.View() == v.runtime && o.native.View() == v.native
  {
    v := w;
    match a {
      case Start(kind) =>
        var ok := o.StartSession(kind);
        if ok {
          v := w.(pending := w.pending + [kind]);
        }
      case Stop => o.Stop();
      case Submit => v := w.(pending := w.pending[1..], tasks := w.tasks + [w.pending[0]]);
      case Take => v := w.(worker := Preparing(w.tasks[0]), tasks := w.tasks[1..]);
      case Prepare(outcome) =>
        var ok := false;
        if outcome.Handle? {
          ok := o.native.Publish(outcome.test);
        }
        v := w.(worker := if ok then Announcing(w.worker.kind, outcome.test) else Ending(w.worker.kind, State.Failed(w.worker.kind)));
      case Announce =>
        o.Announce(w.worker.kind);
        v := w.(worker := Calling(w.worker.kind, w.worker.test));
      case RunEnters =>
        var verdict := o.native.Enter(w.worker.test);
        match verdict {
          case Refused => v := w.(worker := Returned(w.worker.kind, ResultFailed));
          case AlreadyStopped => v := w.(worker := Returned(w.worker.kind, ResultStopped));
          case Started => v := w.(worker := InTest(w.worker.kind, w.worker.test));
        }
      case RunThrows => v := w.(worker := Ending(w.worker.kind, State.Failed(w.worker.kind)));
      case RunLeaves(failed) =>
        var stopped := o.native.Leave();
        v := w.(worker := Returned(w.worker.kind, if stopped then ResultStopped else if failed then ResultFailed else ResultFinished));
      case Decide => v := w.(worker := Ending(w.worker.kind, Terminal(w.worker.kind, w.worker.result, o.stopRequested)));
      case Finish =>
        o.FinishSession(w.worker.kind, w.worker.terminal);
        v := w.(worker := Waiting);
    }
    v := v.(runtime := o.View(), native := o.native.View());
  }

  /**
   * A new session object taken through any run: its state says what its fields say, and while the native call does not
   * throw it shows the native session's stop request as its own.
   */
  method Drive(run: seq<Action>) returns (o: SessionObject, w: World)
    requires IsRun(START, run)
    ensures fresh(o) && fresh(o.native) && w == After(START, run) && o.View() == w.runtime && o.native.View() == w.native
    ensures o.activeKind == LiveKind(o.state) && o.stopRequested == o.state.Stopping?
    ensures RunThrows !in run && o.activeKind.Some? ==> o.native.stopRequested == o.stopRequested
    ensures RunThrows !in run && o.activeKind.None? ==> !Busy(o.native)
  {
    RunKeeps(START, run);
    o := new SessionObject();
    w := START;
    var i := 0;
    while i < |run|
      invariant i <= |run| && fresh(o) && fresh(o.native)
      invariant o.View() == w.runtime && o.native.View() == w.native
      invariant IsRun(w, run[i..]) && After(w, run[i..]) == After(START, run)
    {
      w := Perform(o, w, run[i]);
      i := i + 1;
    }
  }

  function Busy(native: N.Globals): bool
    reads native
  {
    native.prepared.Some? || native.active.Some?
  }

  /** A new session object taken through a whole session nobody stops shows in the end how the test went, and is idle. */
  method DriveOnce(kind: Kind, test: N.Address, failed: bool) returns (o: SessionObject)
    ensures fresh(o) && o.state == (if failed then State.Failed(kind) else State.Finished(kind))
    ensures o.activeKind.None? && !o.stopRequested && !Busy(o.native)
  {
    hide IsRun, After;
    SessionEnds(kind, test, failed);
    var w;
    o, w := Drive(WholeSession(kind, test, failed));
  }
}
