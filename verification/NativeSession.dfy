/**
 * The native session the JNI layer keeps under one mutex: a prepared test, an active test and a stop request. Threads
 * may prepare, run, interrupt and reset in any interleaving; addresses of freed tests may be handed out again.
 */
module NativeSession {
  import opened Bytes

  type Address = nat

  // ----- the critical sections

  /** g_prepared_test, g_active_test and g_stop_requested. */
  datatype Session = Session(prepared: Option<Address>, active: Option<Address>, stop: bool)

  predicate Busy(s: Session) {
    s.prepared.Some? || s.active.Some?
  }

  /** The end of prepare_test: the test becomes the prepared one unless a session is there already. */
  function Published(s: Session, test: Address): Session {
    if Busy(s) then s else s.(prepared := Some(test))
  }

  /** discard_prepared_test. */
  function Discarded(s: Session, test: Address): Session {
    if s.prepared == Some(test) then s.(prepared := None) else s
  }

  datatype Verdict = Refused | AlreadyStopped | Started

  /** What run decides about its handle. */
  function Judge(s: Session, handle: Address): Verdict {
    if s.prepared != Some(handle) then Refused else if s.stop then AlreadyStopped else Started
  }

  function Entered(s: Session, handle: Address): Session {
    match Judge(s, handle)
    case Refused => s
    case AlreadyStopped => s.(prepared := None)
    case Started => s.(prepared := None, active := Some(handle))
  }

  function Cleared(s: Session): Session {
    if Busy(s) then s else s.(stop := false)
  }

  /** The globals of the JNI layer; every method is one section under g_session_mutex. */
  class Globals {
    var prepared: Option<Address>
    var active: Option<Address>
    var stopRequested: bool

    constructor ()
      ensures View() == Session(None, None, false)
    {
      prepared, active, stopRequested := None, None, false;
    }

    function View(): Session
      reads this
    {
      Session(prepared, active, stopRequested)
    }

    /** The first look of prepare_test. */
    method Vacant() returns (ok: bool)
      ensures ok == !Busy(View()) == (prepared.None? && active.None?)
    {
      ok := prepared.None? && active.None?;
    }

    method Publish(test: Address) returns (ok: bool)
      modifies this
      ensures View() == Published(old(View()), test) && ok == !Busy(old(View()))
      ensures ok == old(prepared.None? && active.None?) && prepared == (if ok then Some(test) else old(prepared))
      ensures active == old(active) && stopRequested == old(stopRequested)
    {
      if prepared.Some? || active.Some? {
        return false;
      }
      prepared := Some(test);
      return true;
    }

    method Discard(test: Address) returns (shouldFree: bool)
      modifies this
      ensures View() == Discarded(old(View()), test) && shouldFree == (old(prepared) == Some(test))
      ensures prepared == (if shouldFree then None else old(prepared)) && active == old(active) && stopRequested == old(stopRequested)
    {
      shouldFree := false;
      if prepared == Some(test) {
        prepared := None;
        shouldFree := true;
      }
    }

    method Enter(handle: Address) returns (verdict: Verdict)
      modifies this
      ensures View() == Entered(old(View()), handle) && verdict == Judge(old(View()), handle)
      ensures verdict == Refused <==> old(prepared) != Some(handle)
      ensures verdict == AlreadyStopped <==> old(prepared) == Some(handle) && old(stopRequested)
      ensures prepared == (if verdict == Refused then old(prepared) else None)
      ensures active == (if verdict == Started then Some(handle) else old(active)) && stopRequested == old(stopRequested)
    {
      if prepared != Some(handle) {
        return Refused;
      }
      if stopRequested {
        prepared := None;
        return AlreadyStopped;
      }
      prepared := None;
      active := Some(handle);
      return Started;
    }

    method Leave() returns (stopped: bool)
      modifies this
      ensures View() == old(View()).(active := None) && stopped == old(stopRequested)
    {
      active := None;
      stopped := stopRequested;
    }

    /** The test to interrupt, while the mutex is still held. */
    method Interrupt() returns (test: Option<Address>)
      modifies this
      ensures View() == old(View()).(stop := true) && test == old(active)
    {
      stopRequested := true;
      test := active;
    }

    method Reset()
      modifies this
      ensures View() == Cleared(old(View()))
      ensures stopRequested == (old(stopRequested) && (old(prepared).Some? || old(active).Some?))
      ensures prepared == old(prepared) && active == old(active)
    {
      if prepared.None? && active.None? {
        stopRequested := false;
      }
    }
  }

  // ----- threads

  type Thread = nat

  /** Where a thread is inside prepare_test or run; an address in it is a test only this thread will use or free. */
  datatype Pc =
    | Outside
    | Creating
    | Configuring(test: Address)
    | Publishing(test: Address)
    | Entering(handle: Address)
    | Discarding(handle: Address)
    | Running(test: Address)
    | Freeing(test: Address)

  /** `tests` gives every live test its serial number; `freed` and `touched` list serials, none for a dead address. */
  datatype World = World(
    session: Session, pcs: map<Thread, Pc>, tests: map<Address, nat>, next: nat,
    freed: seq<Option<nat>>, touched: seq<Option<nat>>)

  const START: World := World(Session(None, None, false), map[], map[], 0, [], [])

  datatype Action =
    | Prepare(t: Thread)
    | Create(t: Thread, at: Option<Address>)
    | Configure(t: Thread, ok: bool)
    | Publish(t: Thread)
    | CallRun(t: Thread, handle: Address, listenerOk: bool)
    | Enter(t: Thread)
    | Discard(t: Thread)
    | Use(t: Thread)
    | Leave(t: Thread)
    | Free(t: Thread)
    | Interrupt
    | Reset

  function PcOf(w: World, t: Thread): Pc {
    if t in w.pcs then w.pcs[t] else Outside
  }

  function Serial(w: World, a: Address): Option<nat> {
    if a in w.tests then Some(w.tests[a]) else None
  }

  predicate Enabled(w: World, a: Action) {
    match a
    case Prepare(t) => PcOf(w, t) == Outside
    case Create(t, at) => PcOf(w, t) == Creating && (at.Some? ==> at.value !in w.tests)
    case Configure(t, _) => PcOf(w, t).Configuring?
    case Publish(t) => PcOf(w, t).Publishing?
    case CallRun(t, _, _) => PcOf(w, t) == Outside
    case Enter(t) => PcOf(w, t).Entering?
    case Discard(t) => PcOf(w, t).Discarding?
    case Use(t) => PcOf(w, t).Running?
    case Leave(t) => PcOf(w, t).Running?
    case Free(t) => PcOf(w, t).Freeing?
    case Interrupt => true
    case Reset => true
  }

  function Goes(w: World, t: Thread, pc: Pc): World {
    w.(pcs := w.pcs[t := pc])
  }

  function Step(w: World, a: Action): World
    requires Enabled(w, a)
  {
    match a
    case Prepare(t) => Goes(w, t, if Busy(w.session) then Outside else Creating)
    case Create(t, at) =>
      if at.None? then Goes(w, t, Outside)
      else Goes(w, t, Configuring(at.value)).(tests := w.tests[at.value := w.next], next := w.next + 1)
    case Configure(t, ok) => Goes(w, t, if ok then Publishing(PcOf(w, t).test) else Freeing(PcOf(w, t).test))
    case Publish(t) =>
      var test := PcOf(w, t).test;
      Goes(w, t, if Busy(w.session) then Freeing(test) else Outside).(session := Published(w.session, test))
    case CallRun(t, handle, listenerOk) => Goes(w, t, if listenerOk then Entering(handle) else Discarding(handle))
    case Enter(t) =>
      var h := PcOf(w, t).handle;
      var pc := match Judge(w.session, h) case Refused => Outside case AlreadyStopped => Freeing(h) case Started => Running(h);
      Goes(w, t, pc).(session := Entered(w.session, h))
    case Discard(t) =>
      var h := PcOf(w, t).handle;
      Goes(w, t, if w.session.prepared == Some(h) then Freeing(h) else Outside).(session := Discarded(w.session, h))
    case Use(t) => w.(touched := w.touched + [Serial(w, PcOf(w, t).test)])
    case Leave(t) => Goes(w, t, Freeing(PcOf(w, t).test)).(session := w.session.(active := None))
    case Free(t) =>
      var test := PcOf(w, t).test;
      Goes(w, t, Outside).(tests := map x | x in w.tests && x != test :: w.tests[x], freed := w.freed + [Serial(w, test)])
    case Interrupt =>
      w.(session := w.session.(stop := true),
         touched := if w.session.active.Some? then w.touched + [Serial(w, w.session.active.value)] else w.touched)
    case Reset => w.(session := Cleared(w.session))
  }

  // ----- ownership

  predicate Owns(pc: Pc, a: Address) {
    (pc.Configuring? || pc.Publishing? || pc.Running? || pc.Freeing?) && pc.test == a
  }

  /** Every live test has exactly one owner: a thread, or the session that holds it prepared. */
  ghost predicate Owned(w: World) {
    && (forall t, a :: Owns(PcOf(w, t), a) ==> a in w.tests && w.session.prepared != Some(a))
    && (forall t, u, a :: Owns(PcOf(w, t), a) && Owns(PcOf(w, u), a) ==> t == u)
    && (w.session.prepared.Some? ==> w.session.prepared.value in w.tests)
    && (forall a :: a in w.tests ==> w.session.prepared == Some(a) || exists t :: Owns(PcOf(w, t), a))
  }

  /** A thread runs a test exactly while it is the active one. */
  ghost predicate ActiveRuns(w: World) {
    && (forall t :: PcOf(w, t).Running? ==> w.session.active == Some(PcOf(w, t).test))
    && (w.session.active.Some? ==> exists t :: PcOf(w, t) == Running(w.session.active.value))
  }

  /** Serial numbers are given once, and a freed one is not live. */
  ghost predicate Numbered(w: World) {
    && (forall a :: a in w.tests ==> w.tests[a] < w.next)
    && (forall a, b :: a in w.tests && b in w.tests && w.tests[a] == w.tests[b] ==> a == b)
    && (forall i :: 0 <= i < |w.freed| ==> w.freed[i].Some? && w.freed[i].value < w.next)
    && (forall i, a :: 0 <= i < |w.freed| && a in w.tests ==> w.freed[i] != Some(w.tests[a]))
    && (forall i, j :: 0 <= i < j < |w.freed| ==> w.freed[i] != w.freed[j])
    && (forall i :: 0 <= i < |w.touched| ==> w.touched[i].Some?)
  }

  ghost predicate Inv(w: World) {
    && !(w.session.prepared.Some? && w.session.active.Some?)
    && Owned(w) && ActiveRuns(w) && Numbered(w)
  }

  lemma InvAtStart()
    ensures Inv(START)
  {
  }

  /** One thread moves; the others stand where they stood. */
  ghost predicate Moves(w: World, v: World, t: Thread, pc: Pc) {
    PcOf(v, t) == pc && forall u :: u != t ==> PcOf(v, u) == PcOf(w, u)
  }

  lemma GoesMoves(w: World, t: Thread, pc: Pc, v: World)
    requires v.pcs == w.pcs[t := pc]
    ensures Moves(w, v, t, pc)
  {
  }

  /** Whose a test is, apart from the thread `t`: some other thread's. */
  ghost predicate Elsewhere(w: World, t: Thread, a: Address) {
    a in w.tests && w.session.prepared != Some(a) && !Owns(PcOf(w, t), a)
  }

  /** Ownership after a move of `t`: what it holds it held before, took from the session or created; others keep theirs. */
  ghost predicate HandsOver(w: World, v: World, t: Thread, pc: Pc) {
    && (forall a :: Owns(pc, a) ==> a in v.tests && v.session.prepared != Some(a) && !Elsewhere(w, t, a))
    && (v.session.prepared.Some? ==> v.session.prepared.value in v.tests && !Elsewhere(w, t, v.session.prepared.value))
    && (forall a :: a in v.tests ==> v.session.prepared == Some(a) || Owns(pc, a) || Elsewhere(w, t, a))
    && (forall a :: Elsewhere(w, t, a) ==> a in v.tests)
  }

  lemma OwnersMove(w: World, v: World, t: Thread, pc: Pc)
    requires Owned(w) && Moves(w, v, t, pc) && HandsOver(w, v, t, pc)
    ensures Owned(v)
  {
    forall u, a | Owns(PcOf(v, u), a) ensures a in v.tests && v.session.prepared != Some(a) {
      if u != t {
        OthersAreElsewhere(w, t, u, a);
      }
    }
    forall u, x, a | Owns(PcOf(v, u), a) && Owns(PcOf(v, x), a) ensures u == x {
      if u != t {
        OthersAreElsewhere(w, t, u, a);
      }
      if x != t {
        OthersAreElsewhere(w, t, x, a);
      }
    }
    forall a | a in v.tests ensures v.session.prepared == Some(a) || exists u :: Owns(PcOf(v, u), a) {
      if v.session.prepared != Some(a) && !Owns(pc, a) {
        var u :| Owns(PcOf(w, u), a);
        assert Owns(PcOf(v, u), a);
      } else if Owns(pc, a) {
        assert Owns(PcOf(v, t), a);
      }
    }
  }

  lemma OthersAreElsewhere(w: World, t: Thread, u: Thread, a: Address)
    requires Owned(w) && u != t && Owns(PcOf(w, u), a)
    ensures Elsewhere(w, t, a)
  {
  }

  /** The active test after a move of `t`. */
  lemma ActiveMoves(w: World, v: World, t: Thread, pc: Pc)
    requires ActiveRuns(w) && Moves(w, v, t, pc)
    requires v.session.active ==
             if pc.Running? then Some(pc.test) else if PcOf(w, t).Running? then None else w.session.active
    requires pc.Running? && !PcOf(w, t).Running? ==> w.session.active == None
    requires PcOf(w, t).Running? ==> forall u :: PcOf(w, u).Running? ==> u == t
    ensures ActiveRuns(v)
  {
    if v.session.active.Some? {
      if pc.Running? {
        assert PcOf(v, t) == Running(v.session.active.value);
      } else {
        var u :| PcOf(w, u) == Running(w.session.active.value);
        assert PcOf(v, u) == Running(v.session.active.value);
      }
    }
  }

  lemma OneRunner(w: World, t: Thread, u: Thread)
    requires Owned(w) && ActiveRuns(w) && PcOf(w, t).Running? && PcOf(w, u).Running?
    ensures t == u
  {
    assert Owns(PcOf(w, t), w.session.active.value) && Owns(PcOf(w, u), w.session.active.value);
  }

  /** A move that changes neither the tests nor the logs. */
  lemma MoveKeeps(w: World, v: World, t: Thread, pc: Pc)
    requires Inv(w) && v.pcs == w.pcs[t := pc] && HandsOver(w, v, t, pc)
    requires v.tests == w.tests && v.next == w.next && v.freed == w.freed && v.touched == w.touched
    requires !PcOf(w, t).Running? && !(v.session.prepared.Some? && v.session.active.Some?)
    requires v.session.active == if pc.Running? then Some(pc.test) else w.session.active
    requires pc.Running? ==> w.session.active == None
    ensures Inv(v)
  {
    hide Owned, ActiveRuns, HandsOver;
    GoesMoves(w, t, pc, v);
    OwnersMove(w, v, t, pc);
    ActiveMoves(w, v, t, pc);
  }

  /** The session alone changes, and only its stop request. */
  lemma StopKeeps(w: World, stop: bool)
    requires Inv(w)
    ensures Inv(w.(session := w.session.(stop := stop)))
  {
    hide Numbered;
    var v := w.(session := w.session.(stop := stop));
    assert forall t :: PcOf(v, t) == PcOf(w, t);
    assert Numbered(v) by {
      NumbersAlone(w, v);
    }
  }

  lemma NumbersAlone(w: World, v: World)
    requires Numbered(w) && v.tests == w.tests && v.next == w.next && v.freed == w.freed && v.touched == w.touched
    ensures Numbered(v)
  {
  }

  lemma CreateKeeps(w: World, t: Thread, at: Address)
    requires Inv(w) && Enabled(w, Create(t, Some(at)))
    ensures Inv(Step(w, Create(t, Some(at))))
  {
    hide Owned, ActiveRuns;
    var v := Step(w, Create(t, Some(at)));
    GoesMoves(w, t, Configuring(at), v);
    OwnedIsHeld(w, t);
    OwnersMove(w, v, t, Configuring(at));
    ActiveMoves(w, v, t, Configuring(at));
  }

  lemma LeaveKeeps(w: World, t: Thread)
    requires Inv(w) && Enabled(w, Leave(t))
    ensures Inv(Step(w, Leave(t)))
  {
    hide Owned, ActiveRuns, Numbered;
    var v := Step(w, Leave(t));
    var test := PcOf(w, t).test;
    GoesMoves(w, t, Freeing(test), v);
    OwnedIsHeld(w, t);
    OwnersMove(w, v, t, Freeing(test));
    forall u | PcOf(w, u).Running? ensures u == t {
      OneRunner(w, t, u);
    }
    ActiveMoves(w, v, t, Freeing(test));
    NumbersAlone(w, v);
  }

  lemma OwnedIsHeld(w: World, t: Thread)
    requires Owned(w)
    ensures forall a :: Owns(PcOf(w, t), a) ==> a in w.tests && w.session.prepared != Some(a)
    ensures w.session.prepared.Some? ==> w.session.prepared.value in w.tests
  {
  }

  lemma FreeKeeps(w: World, t: Thread)
    requires Inv(w) && Enabled(w, Free(t))
    ensures Inv(Step(w, Free(t)))
  {
    hide Owned, ActiveRuns, Numbered;
    var v := Step(w, Free(t));
    GoesMoves(w, t, Outside, v);
    OwnedIsHeld(w, t);
    assert Owns(PcOf(w, t), PcOf(w, t).test);
    OwnersMove(w, v, t, Outside);
    ActiveMoves(w, v, t, Outside);
    FreeKeepsNumbers(w, v, PcOf(w, t).test);
  }

  lemma FreeKeepsNumbers(w: World, v: World, test: Address)
    requires Numbered(w) && test in w.tests && v.next == w.next && v.touched == w.touched
    requires v.tests == (map x | x in w.tests && x != test :: w.tests[x]) && v.freed == w.freed + [Some(w.tests[test])]
    ensures Numbered(v)
  {
  }

  lemma TouchKeeps(w: World, a: Address)
    requires Inv(w) && a in w.tests
    ensures Inv(w.(touched := w.touched + [Serial(w, a)]))
  {
    var v := w.(touched := w.touched + [Serial(w, a)]);
    assert forall t :: PcOf(v, t) == PcOf(w, t);
  }

  lemma StepKeeps(w: World, a: Action)
    requires Inv(w) && Enabled(w, a)
    ensures Inv(Step(w, a))
  {
    hide Owned, ActiveRuns, Numbered;
    match a
    case Create(t, at) =>
      if at.Some? {
        CreateKeeps(w, t, at.value);
      } else {
        OwnedIsHeld(w, t);
        MoveKeeps(w, Step(w, a), t, Outside);
      }
    case Use(t) =>
      OwnedIsLive(w, t);
      TouchKeeps(w, PcOf(w, t).test);
    case Leave(t) => LeaveKeeps(w, t);
    case Free(t) => FreeKeeps(w, t);
    case Interrupt =>
      StopKeeps(w, true);
      if w.session.active.Some? {
        ActiveIsLive(w);
        TouchKeeps(w.(session := w.session.(stop := true)), w.session.active.value);
      }
    case Reset => StopKeeps(w, if Busy(w.session) then w.session.stop else false);
    case _ => OtherKeeps(w, a);
  }

  /** The steps that only move a thread and pass the prepared test on. */
  lemma OtherKeeps(w: World, a: Action)
    requires Inv(w) && Enabled(w, a)
    requires a.Prepare? || a.Configure? || a.Publish? || a.CallRun? || a.Enter? || a.Discard?
    ensures Inv(Step(w, a))
  {
    hide Owned, ActiveRuns, Numbered;
    OwnedIsHeld(w, a.t);
    MoveKeeps(w, Step(w, a), a.t, PcOf(Step(w, a), a.t));
  }

  lemma OwnedIsLive(w: World, t: Thread)
    requires Inv(w) && PcOf(w, t).Running?
    ensures PcOf(w, t).test in w.tests
  {
    assert Owns(PcOf(w, t), PcOf(w, t).test);
  }

  lemma ActiveIsLive(w: World)
    requires Inv(w) && w.session.active.Some?
    ensures w.session.active.value in w.tests
  {
    var t :| PcOf(w, t) == Running(w.session.active.value);
    OwnedIsLive(w, t);
  }

  // ----- runs

  ghost predicate IsRun(w: World, run: seq<Action>)
    decreases |run|
  {
    run == [] || (Enabled(w, run[0]) && IsRun(Step(w, run[0]), run[1..]))
  }

  ghost function After(w: World, run: seq<Action>): World
    requires IsRun(w, run)
    decreases |run|
  {
    if run == [] then w else After(Step(w, run[0]), run[1..])
  }

  lemma {:induction false} RunKeeps(w: World, run: seq<Action>)
    requires Inv(w) && IsRun(w, run)
    ensures Inv(After(w, run))
    decreases |run|
  {
    if run != [] {
      StepKeeps(w, run[0]);
      RunKeeps(Step(w, run[0]), run[1..]);
    }
  }

  /**
   * Whatever threads prepare, run, interrupt and reset in whatever order: the session never holds a prepared and an
   * active test at once, every use and interrupt hits a live test, no test is freed twice, and when all threads are out
   * of these calls a live test can only be the prepared one.
   */
  lemma TestsAreOwned(run: seq<Action>)
    requires IsRun(START, run)
    ensures var w := After(START, run);
            && !(w.session.prepared.Some? && w.session.active.Some?)
            && (forall i :: 0 <= i < |w.touched| ==> w.touched[i].Some?)
            && (forall i :: 0 <= i < |w.freed| ==> w.freed[i].Some?)
            && (forall i, j :: 0 <= i < j < |w.freed| ==> w.freed[i] != w.freed[j])
            && (forall t, u :: PcOf(w, t).Running? && PcOf(w, u).Running? ==> t == u)
            && ((forall t :: PcOf(w, t) == Outside) ==> w.session.active == None && forall a :: a in w.tests ==> w.session.prepared == Some(a))
  {
    InvAtStart();
    RunKeeps(START, run);
    var w := After(START, run);
    forall t, u | PcOf(w, t).Running? && PcOf(w, u).Running? ensures t == u {
      assert Owns(PcOf(w, t), w.session.active.value) && Owns(PcOf(w, u), w.session.active.value);
    }
  }

  // ----- the life of a test

  predicate Leads(w: World, a: Action, v: World) {
    Enabled(w, a) && Step(w, a) == v
  }

  lemma {:induction false} PathIsRun(path: seq<World>, run: seq<Action>)
    requires |path| == |run| + 1 && forall i :: 0 <= i < |run| ==> Leads(path[i], run[i], path[i + 1])
    ensures IsRun(path[0], run) && After(path[0], run) == path[|run|]
    decreases |run|
  {
    if run != [] {
      PathIsRun(path[1..], run[1..]);
    }
  }

  /** A thread that prepares a test while the session is idle leaves it prepared, and with the next serial number. */
  lemma TestIsPrepared(w: World, t: Thread, at: Address)
    requires PcOf(w, t) == Outside && !Busy(w.session) && at !in w.tests
    ensures var run := [Prepare(t), Create(t, Some(at)), Configure(t, true), Publish(t)];
            && IsRun(w, run)
            && var v := After(w, run);
               && v.session == w.session.(prepared := Some(at)) && v.tests == w.tests[at := w.next] && PcOf(v, t) == Outside
               && v.freed == w.freed && v.touched == w.touched && v.next == w.next + 1
  {
    hide IsRun, After;
    var v1 := Step(w, Prepare(t));
    var v2 := Step(v1, Create(t, Some(at)));
    var v3 := Step(v2, Configure(t, true));
    var v4 := Step(v3, Publish(t));
    assert Leads(w, Prepare(t), v1) && Leads(v1, Create(t, Some(at)), v2) && Leads(v2, Configure(t, true), v3) && Leads(v3, Publish(t), v4);
    hide Leads;
    PathIsRun([w, v1, v2, v3, v4], [Prepare(t), Create(t, Some(at)), Configure(t, true), Publish(t)]);
  }

  /** Run on its handle it becomes the active one, unless a stop was asked for; an interrupt then reaches it. */
  lemma TestIsRun(w: World, t: Thread, test: Address)
    requires PcOf(w, t) == Outside && w.session.prepared == Some(test) && w.session.active == None && !w.session.stop && test in w.tests
    ensures var run := [CallRun(t, test, true), Enter(t), Interrupt];
            && IsRun(w, run)
            && var v := After(w, run);
               && v.session == Session(None, Some(test), true) && PcOf(v, t) == Running(test)
               && v.touched == w.touched + [Some(w.tests[test])] && v.tests == w.tests && v.freed == w.freed
  {
    hide IsRun, After;
    var v1 := Step(w, CallRun(t, test, true));
    var v2 := Step(v1, Enter(t));
    var v3 := Step(v2, Interrupt);
    assert Leads(w, CallRun(t, test, true), v1) && Leads(v1, Enter(t), v2) && Leads(v2, Interrupt, v3);
    hide Leads;
    PathIsRun([w, v1, v2, v3], [CallRun(t, test, true), Enter(t), Interrupt]);
  }

  /** When it returns the session is idle again and the test freed, once. */
  lemma TestIsLeft(w: World, t: Thread, test: Address)
    requires PcOf(w, t) == Running(test) && w.session.prepared == None && test in w.tests
    ensures var run := [Leave(t), Free(t)];
            && IsRun(w, run)
            && var v := After(w, run);
               && v.session == Session(None, None, w.session.stop) && PcOf(v, t) == Outside && test !in v.tests
               && v.freed == w.freed + [Some(w.tests[test])] && forall x :: x in w.tests && x != test ==> x in v.tests && v.tests[x] == w.tests[x]
  {
    hide IsRun, After;
    var v1 := Step(w, Leave(t));
    var v2 := Step(v1, Free(t));
    assert Leads(w, Leave(t), v1) && Leads(v1, Free(t), v2);
    hide Leads;
    PathIsRun([w, v1, v2], [Leave(t), Free(t)]);
  }

  /** A stop asked for before the run keeps the test from ever running: it goes from prepared to freed. */
  lemma StopBeatsRun(w: World, t: Thread, test: Address)
    requires PcOf(w, t) == Outside && w.session.prepared == Some(test) && w.session.active == None && test in w.tests
    ensures var run := [Interrupt, CallRun(t, test, true), Enter(t), Free(t)];
            && IsRun(w, run)
            && var v := After(w, run);
               && v.session == Session(None, None, true) && PcOf(v, t) == Outside && test !in v.tests
               && v.freed == w.freed + [Some(w.tests[test])] && v.touched == w.touched
  {
    hide IsRun, After;
    var v1 := Step(w, Interrupt);
    var v2 := Step(v1, CallRun(t, test, true));
    var v3 := Step(v2, Enter(t));
    var v4 := Step(v3, Free(t));
    assert Leads(w, Interrupt, v1) && Leads(v1, CallRun(t, test, true), v2) && Leads(v2, Enter(t), v3) && Leads(v3, Free(t), v4);
    hide Leads;
    PathIsRun([w, v1, v2, v3, v4], [Interrupt, CallRun(t, test, true), Enter(t), Free(t)]);
  }

  /** Without a listener the prepared test is given up and freed; a handle that is not the prepared one changes nothing. */
  lemma TestIsGivenUp(w: World, t: Thread, handle: Address)
    requires PcOf(w, t) == Outside
    ensures var v := Step(Step(w, CallRun(t, handle, false)), Discard(t));
            && v.session == (if w.session.prepared == Some(handle) then w.session.(prepared := None) else w.session)
            && PcOf(v, t) == (if w.session.prepared == Some(handle) then Freeing(handle) else Outside)
    ensures w.session.prepared != Some(handle) ==>
              var v := Step(Step(w, CallRun(t, handle, true)), Enter(t)); v.session == w.session && PcOf(v, t) == Outside
  {
  }

  /** While a test is prepared or active no other gets anywhere, and a reset leaves the stop request as it is. */
  lemma BusyRefuses(w: World, t: Thread)
    requires w.session.prepared.Some? || w.session.active.Some?
    ensures PcOf(w, t) == Outside ==> PcOf(Step(w, Prepare(t)), t) == Outside
    ensures PcOf(w, t).Publishing? ==>
              PcOf(Step(w, Publish(t)), t) == Freeing(PcOf(w, t).test) && Step(w, Publish(t)).session == w.session
    ensures Step(w, Reset) == w
  {
  }

  // ----- the globals themselves, under any interleaving

  /** One step, with the session in the globals and all else in `w`. */
  method Perform(g: Globals, w: World, a: Action) returns (v: World)
    requires Enabled(w, a) && g.View() == w.session
    modifies g
    ensures v == Step(w, a) && g.View() == v.session
  {
    match a {
      case Prepare(t) =>
        var ok := g.Vacant();
        v := Goes(w, t, if ok then Creating else Outside);
      case Create(t, at) =>
        if at.None? {
          v := Goes(w, t, Outside);
        } else {
          v := Goes(w, t, Configuring(at.value)).(tests := w.tests[at.value := w.next], next := w.next + 1);
        }
      case Configure(t, ok) =>
        var test := PcOf(w, t).test;
        v := Goes(w, t, if ok then Publishing(test) else Freeing(test));
      case Publish(t) =>
        var test := PcOf(w, t).test;
        var ok := g.Publish(test);
        v := Goes(w, t, if ok then Outside else Freeing(test));
      case CallRun(t, handle, listenerOk) => v := Goes(w, t, if listenerOk then Entering(handle) else Discarding(handle));
      case Enter(t) =>
        var handle := PcOf(w, t).handle;
        var verdict := g.Enter(handle);
        match verdict {
          case Refused => v := Goes(w, t, Outside);
          case AlreadyStopped => v := Goes(w, t, Freeing(handle));
          case Started => v := Goes(w, t, Running(handle));
        }
      case Discard(t) =>
        var handle := PcOf(w, t).handle;
        var shouldFree := g.Discard(handle);
        v := Goes(w, t, if shouldFree then Freeing(handle) else Outside);
      case Use(t) => v := w.(touched := w.touched + [Serial(w, PcOf(w, t).test)]);
      case Leave(t) =>
        var stopped := g.Leave();
        v := Goes(w, t, Freeing(PcOf(w, t).test));
      case Free(t) =>
        var test := PcOf(w, t).test;
        v := Goes(w, t, Outside).(tests := map x | x in w.tests && x != test :: w.tests[x], freed := w.freed + [Serial(w, test)]);
      case Interrupt =>
        var test := g.Interrupt();
        v := if test.Some? then w.(touched := w.touched + [Serial(w, test.value)]) else w;
      case Reset =>
        g.Reset();
        v := w;
    }
    v := v.(session := g.View());
  }

  /**
   * New globals taken through any interleaving never hold a prepared and an active test at once, and what the threads do
   * by their answers uses and interrupts live tests only, and frees none twice.
   */
  method Drive(run: seq<Action>) returns (g: Globals, w: World)
    requires IsRun(START, run)
    ensures fresh(g) && g.View() == w.session && w == After(START, run)
    ensures !(g.prepared.Some? && g.active.Some?)
    ensures forall i :: 0 <= i < |w.touched| ==> w.touched[i].Some?
    ensures forall i, j :: 0 <= i < j < |w.freed| ==> w.freed[i].Some? && w.freed[i] != w.freed[j]
  {
    TestsAreOwned(run);
    hide Step, Enabled;
    g := new Globals();
    w := START;
    var i := 0;
    while i < |run|
      invariant i <= |run| && fresh(g) && g.View() == w.session
      invariant IsRun(w, run[i..]) && After(w, run[i..]) == After(START, run)
    {
      w := Perform(g, w, run[i]);
      i := i + 1;
    }
  }
}
