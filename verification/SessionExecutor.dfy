/**
 * The iOS session executor: a worker queue that runs one session after the other, a stop that interrupts the active
 * test, and a retry queue whose loop goes on interrupting until it sees no session active.
 */
module SessionExecutor {
  import opened Bytes
  import N = NativeSession

  /** isActive, stopRequested and activeTest, under one lock. */
  class Executor {
    var isActive: bool
    var stopRequested: bool
    var activeTest: Option<N.Address>

    constructor ()
      ensures View() == Fields(false, false, None)
    {
      isActive, stopRequested, activeTest := false, false, None;
    }

    function View(): Fields
      reads this
    {
      Fields(isActive, stopRequested, activeTest)
    }

    method Start() returns (ok: bool)
      modifies this
      ensures ok == !old(isActive) && View() == if ok then Fields(true, false, None) else old(View())
    {
      if isActive {
        return false;
      }
      isActive := true;
      stopRequested := false;
      activeTest := None;
      return true;
    }

    /** Whether the stop is taken up, and the test to interrupt at once. */
    method Stop() returns (ok: bool, test: Option<N.Address>)
      modifies this
      ensures ok == Stoppable(old(View())) && test == (if ok then old(activeTest) else None)
      ensures ok == (isActive && !old(stopRequested)) && stopRequested == (old(stopRequested) || isActive)
      ensures isActive == old(isActive) && activeTest == old(activeTest)
      ensures View() == if ok then old(View()).(stopRequested := true) else old(View())
    {
      if !isActive || stopRequested {
        return false, None;
      }
      stopRequested := true;
      return true, activeTest;
    }

    /** One turn of retryInterruptUntilStopped. */
    method Retry() returns (again: bool, test: Option<N.Address>)
      ensures again == isActive && test == if again then activeTest else None
    {
      if !isActive {
        return false, None;
      }
      return true, activeTest;
    }

    method Publish(test: N.Address)
      modifies this
      ensures View() == old(View()).(activeTest := Some(test))
    {
      activeTest := Some(test);
    }

    method ClearActiveTest(test: N.Address)
      modifies this
      ensures View() == Cleared(old(View()), test)
      ensures !isActive && activeTest != Some(test) && stopRequested == old(stopRequested)
      ensures old(activeTest) != Some(test) ==> activeTest == old(activeTest)
      ensures old(activeTest) == Some(test) ==> activeTest == None
    {
      if activeTest == Some(test) {
        activeTest := None;
      }
      isActive := false;
    }

    method FinishWithoutTest()
      modifies this
      ensures View() == Fields(false, old(stopRequested), None)
    {
      activeTest := None;
      isActive := false;
    }
  }

  datatype Fields = Fields(isActive: bool, stopRequested: bool, activeTest: Option<N.Address>)

  predicate Stoppable(f: Fields) {
    f.isActive && !f.stopRequested
  }

  function Cleared(f: Fields, test: N.Address): Fields {
    Fields(false, f.stopRequested, if f.activeTest == Some(test) then None else f.activeTest)
  }

  // ----- the whole

  datatype Worker =
    | Waiting
    | Creating
    | Publishing(test: N.Address)
    | InTest(test: N.Address)
    | Completing(test: N.Address)
    | Freeing(test: N.Address)

  /**
   * `tasks` are sessions between start and the worker; `live` are the addresses not freed; `retries` the loops queued or
   * going; `session` counts starts and `asked` is the last session a stop was taken up for. An interrupt is logged with
   * whether its test was live and whether its session had been asked to stop.
   */
  datatype World = World(
    fields: Fields, tasks: nat, worker: Worker, live: set<N.Address>, retries: nat,
    session: nat, asked: nat, interrupts: seq<Interrupt>)

  datatype Interrupt = Interrupt(live: bool, wanted: bool)

  const START: World := World(Fields(false, false, None), 0, Waiting, {}, 0, 0, 0, [])

  datatype Action =
    | Start
    | Stop
    | Retry
    | Take
    | Create(at: Option<N.Address>)
    | Publish
    | RunEnds
    | Clear
    | Free

  predicate Enabled(w: World, a: Action) {
    match a
    case Start => true
    case Stop => true
    case Retry => w.retries > 0
    case Take => w.worker.Waiting? && w.tasks > 0
    case Create(at) => w.worker.Creating? && (at.Some? ==> at.value !in w.live)
    case Publish => w.worker.Publishing?
    case RunEnds => w.worker.InTest?
    case Clear => w.worker.Completing?
    case Free => w.worker.Freeing?
  }

  /** A test, if there is one, is interrupted: what the log gains. */
  function Interrupting(w: World, test: Option<N.Address>): World {
    if test.None? then w else w.(interrupts := w.interrupts + [Interrupt(test.value in w.live, w.asked == w.session)])
  }

  function Step(w: World, a: Action): World
    requires Enabled(w, a)
  {
    match a
    case Start =>
      if w.fields.isActive then w
      else w.(fields := Fields(true, false, None), tasks := w.tasks + 1, session := w.session + 1)
    case Stop =>
      if !Stoppable(w.fields) then w
      else
        Interrupting(w.(fields := w.fields.(stopRequested := true), retries := w.retries + 1, asked := w.session), w.fields.activeTest)
    case Retry => if !w.fields.isActive then w.(retries := w.retries - 1) else Interrupting(w, w.fields.activeTest)
    case Take => w.(tasks := w.tasks - 1, worker := Creating)
    case Create(at) =>
      if at.None? then w.(fields := Fields(false, w.fields.stopRequested, None), worker := Waiting)
      else w.(live := w.live + {at.value}, worker := Publishing(at.value))
    case Publish => w.(fields := w.fields.(activeTest := Some(w.worker.test)), worker := InTest(w.worker.test))
    case RunEnds => w.(worker := Completing(w.worker.test))
    case Clear => w.(fields := Cleared(w.fields, w.worker.test), worker := Freeing(w.worker.test))
    case Free => w.(live := w.live - {w.worker.test}, worker := Waiting)
  }

  ghost predicate AllLive(log: seq<Interrupt>) {
    forall i :: 0 <= i < |log| ==> log[i].live
  }

  /** An active test is live and the worker's own; the lock is what frees it last. */
  ghost predicate Inv(w: World) {
    && w.asked <= w.session
    && (w.fields.activeTest.Some? ==> w.worker == InTest(w.fields.activeTest.value) || w.worker == Completing(w.fields.activeTest.value))
    && w.live == (if w.worker.Waiting? || w.worker.Creating? then {} else {w.worker.test})
    && (w.worker.InTest? || w.worker.Completing? ==> w.fields.activeTest == Some(w.worker.test))
    && (w.fields.isActive <==> w.tasks == 1 || w.worker.Creating? || w.worker.Publishing? || w.worker.InTest? || w.worker.Completing?)
    && w.tasks <= 1 && (w.tasks == 1 ==> w.worker.Waiting? || w.worker.Freeing?)
    && (w.fields.isActive ==> (w.fields.stopRequested <==> w.asked == w.session && w.session > 0))
    && (w.fields.isActive ==> w.session > 0)
    && (w.fields.isActive && w.fields.stopRequested ==> w.retries > 0)
    && AllLive(w.interrupts)
  }

  lemma StepKeeps(w: World, a: Action)
    requires Inv(w) && Enabled(w, a)
    ensures Inv(Step(w, a))
  {
  }

  ghost predicate IsRun(w: World, run: seq<Action>)
    decreases |run|
  {
    run == [] || (Enabled(w, run[0]) && IsRun(Step(w, run[0]), run[1..]))
  }

  ghost function After(w: World, run: seq<Action>): World
    requires IsRun(w, run)
    decreases |run|
  {
    if run == [] then w else After(Step(w, run[0]), run[1..])
  }

  lemma {:induction false} RunKeeps(w: World, run: seq<Action>)
    requires Inv(w) && IsRun(w, run)
    ensures Inv(After(w, run))
    decreases |run|
  {
    if run != [] {
      StepKeeps(w, run[0]);
      RunKeeps(Step(w, run[0]), run[1..]);
    }
  }

  /** After any run every interrupt has hit a live test, and at most one test is live. */
  lemma InterruptsHitLiveTests(run: seq<Action>)
    requires IsRun(START, run)
    ensures AllLive(After(START, run).interrupts) && |After(START, run).live| <= 1
  {
    RunKeeps(START, run);
  }

  /** A stop that is taken up interrupts a published test at once, and leaves a loop behind. */
  lemma StopIsTakenUp(w: World)
    requires Inv(w) && w.fields.isActive && !w.fields.stopRequested
    ensures var v := Step(w, Stop);
            && v.fields == Fields(true, true, w.fields.activeTest) && v.retries == w.retries + 1 && v.asked == w.session
            && v.interrupts == w.interrupts + if w.worker.InTest? || w.worker.Completing? then [Interrupt(true, true)] else []
  {
  }

  /**
   * No stop is lost, however early it comes: after any run, as long as the session asked to stop is active, a loop is
   * about, and once its test is published the next turn of that loop interrupts it.
   */
  lemma StopIsNotLost(run: seq<Action>)
    requires IsRun(START, run)
    ensures var w := After(START, run);
            w.fields.isActive && w.fields.stopRequested ==>
              && Enabled(w, Retry) && Step(w, Retry).retries == w.retries
              && (w.worker.InTest? || w.worker.Completing? ==> Step(w, Retry) == w.(interrupts := w.interrupts + [Interrupt(true, true)]))
              && (w.worker.Publishing? ==>
                    IsRun(w, [Publish, Retry]) && After(w, [Publish, Retry]).interrupts == w.interrupts + [Interrupt(true, true)])
  {
    hide IsRun, After;
    RunKeeps(START, run);
    var w := After(START, run);
    if w.fields.isActive && w.fields.stopRequested && w.worker.Publishing? {
      StepKeeps(w, Publish);
      var v1 := Step(w, Publish);
      var v2 := Step(v1, Retry);
      assert Leads(w, Publish, v1) && Leads(v1, Retry, v2);
      PathIsRun([w, v1, v2], [Publish, Retry]);
    }
  }

  /** Once no session is active the loops end, each at its next turn, and interrupt nothing. */
  lemma {:induction false} LoopsEnd(w: World)
    requires !w.fields.isActive
    ensures var run := seq(w.retries, _ => Retry); IsRun(w, run) && After(w, run) == w.(retries := 0)
    decreases w.retries
  {
    var run := seq(w.retries, _ => Retry);
    if w.retries > 0 {
      var v := Step(w, Retry);
      LoopsEnd(v);
      assert run[1..] == seq(v.retries, _ => Retry);
    }
  }

  // ----- whose test it is

  ghost predicate AllWanted(log: seq<Interrupt>) {
    forall i :: 0 <= i < |log| ==> log[i].wanted
  }

  /** No start succeeds while a retry loop of an earlier session is still about. */
  ghost predicate Patient(w: World, run: seq<Action>)
    requires IsRun(w, run)
    decreases |run|
  {
    run != [] ==> (run[0] == Start && !w.fields.isActive ==> w.retries == 0) && Patient(Step(w, run[0]), run[1..])
  }

  /** Retry loops are about only while the last session asked to stop is the current one. */
  ghost predicate Fresh(w: World) {
    (w.retries > 0 ==> w.asked == w.session) && AllWanted(w.interrupts)
  }

  lemma {:induction false} PatientRunsStayFresh(w: World, run: seq<Action>)
    requires Inv(w) && Fresh(w) && IsRun(w, run) && Patient(w, run)
    ensures Fresh(After(w, run))
    decreases |run|
  {
    if run != [] {
      StepKeeps(w, run[0]);
      PatientRunsStayFresh(Step(w, run[0]), run[1..]);
    }
  }

  /** As long as no session is started before the last retry loop has ended, only sessions asked to stop are interrupted. */
  lemma OnlyStoppedAreInterrupted(run: seq<Action>)
    requires IsRun(START, run) && Patient(START, run)
    ensures AllWanted(After(START, run).interrupts)
  {
    PatientRunsStayFresh(START, run);
  }

  predicate Leads(w: World, a: Action, v: World) {
    Enabled(w, a) && Step(w, a) == v
  }

  lemma {:induction false} PathIsRun(path: seq<World>, run: seq<Action>)
    requires |path| == |run| + 1 && forall i :: 0 <= i < |run| ==> Leads(path[i], run[i], path[i + 1])
    ensures IsRun(path[0], run) && After(path[0], run) == path[|run|]
    decreases |run|
  {
    if run != [] {
      PathIsRun(path[1..], run[1..]);
    }
  }

  lemma {:induction false} Joined(w: World, first: seq<Action>, second: seq<Action>)
    requires IsRun(w, first) && IsRun(After(w, first), second)
    ensures IsRun(w, first + second) && After(w, first + second) == After(After(w, first), second)
    decreases |first|
  {
    if first == [] {
      assert first + second == second;
    } else {
      Joined(Step(w, first[0]), first[1..], second);
      assert (first + second)[1..] == first[1..] + second;
    }
  }

  lemma {:induction false} NoStartIsPatient(w: World, run: seq<Action>)
    requires IsRun(w, run) && Start !in run
    ensures Patient(w, run)
    decreases |run|
  {
    if run != [] {
      NoStartIsPatient(Step(w, run[0]), run[1..]);
    }
  }

  /** What a session does that starts while a loop is about: the old test is freed first if it has not been yet. */
  function Overtaken(freeing: bool, at: N.Address): seq<Action> {
    (if freeing then [Free] else []) + [Take, Create(Some(at)), Publish, Retry]
  }

  lemma FreedWhileStarting(w: World)
    requires Inv(w) && w.worker.Freeing? && w.tasks == 1
    ensures IsRun(w, [Free]) && var v := After(w, [Free]);
            v == w.(worker := Waiting, live := {}) && Inv(v)
  {
    var v := Step(w, Free);
    StepKeeps(w, Free);
    assert Leads(w, Free, v);
    PathIsRun([w, v], [Free]);
  }

  /** With a loop about, a session taken up now is interrupted though it was never asked to stop. */
  lemma LoopInterrupts(w: World, at: N.Address)
    requires Inv(w) && w.retries > 0 && w.fields.isActive && w.worker.Waiting? && w.asked != w.session
    ensures var run := [Take, Create(Some(at)), Publish, Retry];
            IsRun(w, run) && !AllWanted(After(w, run).interrupts)
  {
    hide IsRun, After;
    var v1 := Step(w, Take);
    var v2 := Step(v1, Create(Some(at)));
    var v3 := Step(v2, Publish);
    var v4 := Step(v3, Retry);
    assert v4.interrupts[|w.interrupts|] == Interrupt(true, false);
    assert Leads(w, Take, v1) && Leads(v1, Create(Some(at)), v2) && Leads(v2, Publish, v3) && Leads(v3, Retry, v4);
    hide Leads;
    PathIsRun([w, v1, v2, v3, v4], [Take, Create(Some(at)), Publish, Retry]);
  }

  /** The same from right after the start, whether or not the worker is done with the old test. */
  lemma OvertakenIsInterrupted(w: World, at: N.Address)
    requires Inv(w) && w.retries > 0 && w.fields.isActive && w.tasks == 1 && w.asked != w.session
    ensures var run := Overtaken(w.worker.Freeing?, at);
            IsRun(w, run) && !AllWanted(After(w, run).interrupts)
  {
    hide IsRun, After, AllWanted;
    if w.worker.Freeing? {
      FreedWhileStarting(w);
      LoopInterrupts(After(w, [Free]), at);
      Joined(w, [Free], [Take, Create(Some(at)), Publish, Retry]);
    } else {
      LoopInterrupts(w, at);
      assert Overtaken(false, at) == [Take, Create(Some(at)), Publish, Retry];
    }
  }

  /** A start now, and what follows it without overtaking another loop, comes to interrupt a session nobody asked to stop. */
  ghost predicate GoesWrong(w: World, run: seq<Action>)
    requires Enabled(w, Start)
  {
    IsRun(Step(w, Start), run) && Patient(Step(w, Start), run) && !AllWanted(After(Step(w, Start), run).interrupts)
  }

  /**
   * Otherwise the new session is lost: a start that succeeds can be followed by an interrupt of a session nobody asked to
   * stop exactly if a retry loop is still about, whatever the worker is doing then.
   */
  lemma LoopOutlivesSession(w: World)
    requires Inv(w) && !w.fields.isActive && AllWanted(w.interrupts)
    ensures w.retries > 0 <==> exists run :: GoesWrong(w, run)
  {
    hide IsRun, After, Patient, AllWanted;
    StepKeeps(w, Start);
    var v := Step(w, Start);
    if w.retries > 0 {
      var run := Overtaken(v.worker.Freeing?, 0);
      OvertakenIsInterrupted(v, 0);
      NoStartIsPatient(v, run);
      assert GoesWrong(w, run);
    } else {
      forall run | IsRun(v, run) && Patient(v, run) ensures AllWanted(After(v, run).interrupts) {
        PatientRunsStayFresh(v, run);
      }
    }
  }

  /** A session in its test, from the start, with nothing asked of it. */
  function InSession(at: N.Address): World {
    World(Fields(true, false, Some(at)), 0, InTest(at), {at}, 0, 1, 0, [])
  }

  lemma SessionIsReached(at: N.Address)
    ensures var run := [Start, Take, Create(Some(at)), Publish]; IsRun(START, run) && After(START, run) == InSession(at)
  {
    hide IsRun, After;
    var v1 := World(Fields(true, false, None), 1, Waiting, {}, 0, 1, 0, []);
    var v2 := World(Fields(true, false, None), 0, Creating, {}, 0, 1, 0, []);
    var v3 := World(Fields(true, false, None), 0, Publishing(at), {at}, 0, 1, 0, []);
    var v4 := InSession(at);
    assert Leads(START, Start, v1) && Leads(v1, Take, v2) && Leads(v2, Create(Some(at)), v3) && Leads(v3, Publish, v4);
    hide Leads, InSession;
    PathIsRun([START, v1, v2, v3, v4], [Start, Take, Create(Some(at)), Publish]);
  }

  lemma StoppedAndCleared(at: N.Address)
    ensures var run := [Stop, RunEnds, Clear];
            && IsRun(InSession(at), run)
            && After(InSession(at), run) == World(Fields(false, true, None), 0, Freeing(at), {at}, 1, 1, 1, [Interrupt(true, true)])
  {
    hide IsRun, After;
    var log, asked := [Interrupt(true, true)], Fields(true, true, Some(at));
    var v4 := InSession(at);
    var v5 := World(asked, 0, InTest(at), {at}, 1, 1, 1, log);
    var v6 := World(asked, 0, Completing(at), {at}, 1, 1, 1, log);
    var v7 := World(Fields(false, true, None), 0, Freeing(at), {at}, 1, 1, 1, log);
    assert Leads(v4, Stop, v5) && Leads(v5, RunEnds, v6) && Leads(v6, Clear, v7);
    hide Leads, InSession;
    PathIsRun([v4, v5, v6, v7], [Stop, RunEnds, Clear]);
  }

  /** Such states are reached: a session is stopped and ends before the loop looks again. */
  lemma LoopLeftBehind(at: N.Address)
    ensures var run := [Start, Take, Create(Some(at)), Publish] + [Stop, RunEnds, Clear];
            && IsRun(START, run)
            && var w := After(START, run); w.retries > 0 && !w.fields.isActive && AllWanted(w.interrupts)
  {
    hide IsRun, After;
    SessionIsReached(at);
    StoppedAndCleared(at);
    Joined(START, [Start, Take, Create(Some(at)), Publish], [Stop, RunEnds, Clear]);
  }

  /** So there is a run from the start in which a session nobody asked to stop is interrupted. */
  lemma UnaskedInterruptHappens()
    ensures exists run :: IsRun(START, run) && !AllWanted(After(START, run).interrupts)
  {
    hide IsRun, After, AllWanted, Step, Patient;
    var first := [Start, Take, Create(Some(0)), Publish] + [Stop, RunEnds, Clear];
    LoopLeftBehind(0);
    RunKeeps(START, first);
    var w := After(START, first);
    LoopOutlivesSession(w);
    var run :| GoesWrong(w, run);
    StartJoins(w, run);
    Joined(START, first, [Start] + run);
    assert IsRun(START, first + ([Start] + run));
  }

  lemma StartJoins(w: World, run: seq<Action>)
    requires GoesWrong(w, run)
    ensures IsRun(w, [Start] + run) && After(w, [Start] + run) == After(Step(w, Start), run)
  {
    assert ([Start] + run)[1..] == run;
  }

  // ----- the executor itself, through any run

  /** One step, with the fields in the executor object and all else in `w`. */
  method Perform(e: Executor, w: World, a: Action) returns (v: World)
    requires Enabled(w, a) && e.View() == w.fields
    modifies e
    ensures v == Step(w, a) && e.View() == v.fields
  {
    v := w;
    match a {
      case Start =>
        var ok := e.Start();
        if ok {
          v := w.(tasks := w.tasks + 1, session := w.session + 1);
        }
      case Stop =>
        var ok, test := e.Stop();
        if ok {
          v := Interrupting(w.(retries := w.retries + 1, asked := w.session), test);
        }
      case Retry =>
        var again, test := e.Retry();
        v := if again then Interrupting(w, test) else w.(retries := w.retries - 1);
      case Take => v := w.(tasks := w.tasks - 1, worker := Creating);
      case Create(at) =>
        if at.None? {
          e.FinishWithoutTest();
          v := w.(worker := Waiting);
        } else {
          v := w.(live := w.live + {at.value}, worker := Publishing(at.value));
        }
      case Publish =>
        e.Publish(w.worker.test);
        v := w.(worker := InTest(w.worker.test));
      case RunEnds => v := w.(worker := Completing(w.worker.test));
      case Clear =>
        e.ClearActiveTest(w.worker.test);
        v := w.(worker := Freeing(w.worker.test));
      case Free => v := w.(live := w.live - {w.worker.test}, worker := Waiting);
    }
    v := v.(fields := e.View());
  }

  /**
   * A new executor taken through any run: it interrupts live tests only and, unless a start overtakes an old retry loop,
   * only tests whose session was asked to stop.
   */
  method Drive(run: seq<Action>) returns (e: Executor, w: World)
    requires IsRun(START, run)
    ensures fresh(e) && e.View() == w.fields && w == After(START, run)
    ensures AllLive(w.interrupts) && |w.live| <= 1
    ensures Patient(START, run) ==> AllWanted(w.interrupts)
  {
    InterruptsHitLiveTests(run);
    if Patient(START, run) {
      OnlyStoppedAreInterrupted(run);
    }
    e := new Executor();
    w := START;
    var i := 0;
    while i < |run|
      invariant i <= |run| && fresh(e) && e.View() == w.fields
      invariant IsRun(w, run[i..]) && After(w, run[i..]) == After(START, run)
    {
      w := Perform(e, w, run[i]);
      i := i + 1;
    }
  }
}
