/** tmr_run over the callbacks of an iperf test, which may reset timers of that test while the list is walked. */
module TimerRun {
  import opened IperfTime
  import opened Timers

  /** The timer handles of a test, and the flags its timers set. */
  class Test {
    var timer: Timer?
    var statsTimer: Timer?
    var reporterTimer: Timer?
    var omitTimer: Timer?
    var done: bool
    var omitting: bool

    constructor ()
      ensures timer == statsTimer == reporterTimer == omitTimer == null
    {
      timer, statsTimer, reporterTimer, omitTimer := null, null, null, null;
      done, omitting := false, false;
    }
  }

  ghost predicate Handle(l: seq<Timer>, h: Timer?, proc: Proc, periodic: bool)
    reads l`proc, l`periodic, l`usecs
  {
    h != null ==> h in l && h.proc == proc && h.periodic == periodic && (periodic ==> h.usecs >= 1)
  }

  ghost predicate HandlesIn(l: seq<Timer>, test: Test)
    reads test`timer, test`statsTimer, test`reporterTimer, test`omitTimer, l`proc, l`periodic, l`usecs
  {
    && Handle(l, test.timer, TestEnd, false)
    && Handle(l, test.statsTimer, Stats, true)
    && Handle(l, test.reporterTimer, Reporter, true)
    && Handle(l, test.omitTimer, Omit, false)
  }

  /** Every handle that is not null names an active timer of its kind. */
  ghost predicate Handles(s: Scheduler, test: Test)
    reads test`timer, test`statsTimer, test`reporterTimer, test`omitTimer, s`active, s.active`proc, s.active`periodic, s.active`usecs
  {
    HandlesIn(s.active, test)
  }

  /** Handles name active timers wherever these stand, and whatever else is active. */
  lemma HandlesStay(l: seq<Timer>, m: seq<Timer>, test: Test)
    requires HandlesIn(l, test) && forall x :: x in l ==> x in m
    ensures HandlesIn(m, test)
  {
  }

  /** Rescheduling from `now` on stays within what a time stamp holds, and periodic timers have an interval. */
  ghost predicate InRange(l: seq<Timer>, now: Time)
    reads l`usecs, l`periodic
  {
    forall t :: t in l ==> Micros(now) + t.usecs < LIMIT && (t.periodic ==> t.usecs >= 1)
  }

  ghost function One(h: Timer?): set<Timer> {
    if h == null then {} else {h}
  }

  /** The timers the omit callbacks reset. */
  ghost function PutBack(test: Test): set<Timer>
    reads test`statsTimer, test`reporterTimer
  {
    One(test.statsTimer) + One(test.reporterTimer)
  }

  /** Both the statistics and the reporter timer, where there are any, are due one interval from now. */
  ghost predicate PutBackNow(test: Test, now: Time)
    reads test`statsTimer, test`reporterTimer, (if test.statsTimer == null then {} else {test.statsTimer})
    reads if test.reporterTimer == null then {} else {test.reporterTimer}
  {
    && (test.statsTimer != null ==> Micros(test.statsTimer.time) == Micros(now) + test.statsTimer.usecs)
    && (test.reporterTimer != null ==> Micros(test.reporterTimer.time) == Micros(now) + test.reporterTimer.usecs)
  }

  /** What the callback of `t` moves. */
  ghost function MovedBy(t: Timer, test: Test): set<Timer>
    reads t`proc, test`statsTimer, test`reporterTimer
  {
    if t.proc == Omit then PutBack(test) else {}
  }

  // ----- what stays behind a timer when others move

  /** What stands at `p` in `l` stands at `q` in `m`, and what followed it still does, but for those in `gone`. */
  ghost predicate Past(l: seq<Timer>, p: nat, m: seq<Timer>, q: nat, gone: set<Timer>) {
    p < |l| && q < |m| && m[q] == l[p] && forall i :: p <= i < |l| && l[i] !in gone ==> l[i] in m[q..]
  }

  lemma PastSame(l: seq<Timer>, p: nat)
    requires p < |l|
    ensures Past(l, p, l, p, {})
  {
    forall i | p <= i < |l| ensures l[i] in l[p..] {
      assert l[p..][i - p] == l[i];
    }
  }

  lemma PastRemoved(l: seq<Timer>, k: nat, p: nat) returns (q: nat)
    requires k < |l| && p < |l| && p != k
    ensures Past(l, p, Removed(l, k), q, {l[k]})
  {
    var m := Removed(l, k);
    RemovedAt(l, k);
    hide Removed;
    q := if p < k then p else p - 1;
    forall i | p <= i < |l| && l[i] != l[k] ensures l[i] in m[q..] {
      var j := if i < k then i else i - 1;
      assert m[j] == l[i] && m[q..][j - q] == m[j];
    }
  }

  lemma PastInserted(l: seq<Timer>, slot: nat, t: Timer, p: nat) returns (q: nat)
    requires slot <= |l| && p < |l|
    ensures Past(l, p, Inserted(l, slot, t), q, {})
  {
    var m := Inserted(l, slot, t);
    InsertedAt(l, slot, t);
    hide Inserted;
    q := if p < slot then p else p + 1;
    forall i | p <= i < |l| ensures l[i] in m[q..] {
      var j := if i < slot then i else i + 1;
      assert m[j] == l[i] && m[q..][j - q] == m[j];
    }
  }

  lemma PastBoth(l: seq<Timer>, p: nat, m: seq<Timer>, q: nat, n: seq<Timer>, r: nat, g: set<Timer>, h: set<Timer>)
    requires Past(l, p, m, q, g) && Past(m, q, n, r, h)
    ensures Past(l, p, n, r, g + h)
  {
    forall i | p <= i < |l| && l[i] !in g + h ensures l[i] in n[r..] {
      var j :| 0 <= j < |m| - q && m[q..][j] == l[i];
      assert m[q + j] == l[i];
    }
  }

  lemma PastMoved(l: seq<Timer>, k: nat, slot: nat, p: nat) returns (q: nat)
    requires k < |l| && slot < |l| && p < |l| && p != k
    ensures Past(l, p, Moved(l, k, slot), q, {l[k]})
  {
    var r, m := Removed(l, k), Moved(l, k, slot);
    var i := PastRemoved(l, k, p);
    RemovedAt(l, k);
    q := PastInserted(r, slot, l[k], i);
    hide Past, Removed, Inserted;
    PastBoth(l, p, r, i, m, q, {l[k]}, {});
    assert {l[k]} + {} == {l[k]};
  }

  /** The tmr_reset of the omit callbacks. */
  method ResetIfAny(s: Scheduler, test: Test, h: Timer?, now: Time, ghost p: nat) returns (ghost q: nat)
    requires s.Valid() && Handles(s, test) && Normal(now) && (h != null ==> h in s.active) && InRange(s.active, now)
    modifies s`timers, s`active, s.active`next, s.active`prev, (if h == null then {} else {h})`time
    ensures s.Valid() && Handles(s, test) && (forall x :: x in s.active <==> x in old(s.active))
    ensures h != null ==> Micros(h.time) == Micros(now) + h.usecs
    ensures p < |old(s.active)| && old(s.active)[p] != h ==> Past(old(s.active), p, s.active, q, One(h))
  {
    hide Linked, Sorted, Stacked, Distinct, Past, Moved, Removed, HandlesIn;
    ghost var l := s.active;
    q := p;
    if h != null {
      ghost var k: nat :| k < |l| && l[k] == h;
      s.Reset(now, k, h);
      if p < |l| && l[p] != h {
        RemovedAt(l, k);
        q := PastMoved(l, k, Slot(Removed(l, k), Micros(h.time)), p);
      }
    } else if p < |l| {
      PastSame(l, p);
    }
    HandlesStay(l, s.active, test);
  }

  /** The timer callbacks: test_timer_proc, server_timer_proc, and the statistics, reporter and omit procedures. */
  method Fire(s: Scheduler, test: Test, t: Timer, now: Time, ghost p: nat) returns (ghost q: nat)
    requires s.Valid() && Handles(s, test) && t in s.active && Normal(now) && InRange(s.active, now)
    modifies s`timers, s`active, s.active`next, s.active`prev, s.active`time, test`timer, test`omitTimer, test`done, test`omitting
    ensures s.Valid() && Handles(s, test) && (!t.periodic ==> t != test.timer && t != test.omitTimer)
    ensures forall x :: x in s.active <==> x in old(s.active)
    ensures forall x :: x in s.active && x !in MovedBy(t, test) ==> x.time == old(x.time)
    ensures forall x :: x in MovedBy(t, test) ==> x in s.active && Micros(x.time) == Micros(now) + x.usecs && x.usecs >= 1
    ensures t !in MovedBy(t, test)
    ensures test.done == (old(test.done) || t.proc == TestEnd) && test.omitting == (old(test.omitting) && t.proc != Omit)
    ensures t.proc == Omit ==> PutBackNow(test, now)
    ensures p < |old(s.active)| && old(s.active)[p] !in MovedBy(t, test) ==>
              Past(old(s.active), p, s.active, q, MovedBy(t, test))
  {
    hide Linked, Sorted, Stacked, Distinct, Scheduler.Valid, Past, PutBack, Handles, InRange;
    PutBackIs(s, test);
    OneShotHandles(s, test, t);
    if p < |s.active| {
      PastSame(s.active, p);
    }
    q := p;
    match t.proc {
      case TestEnd => EndTest(s, test);
      case Stats =>
      case Reporter =>
      case Omit => q := EndOmit(s, test, now, p);
    }
  }

  method EndTest(s: Scheduler, test: Test)
    requires Handles(s, test)
    modifies test`timer, test`done
    ensures Handles(s, test) && test.timer == null && test.done
  {
    test.timer := null;
    test.done := true;
  }

  lemma OneShotHandles(s: Scheduler, test: Test, t: Timer)
    requires Handles(s, test)
    ensures t == test.timer ==> t.proc == TestEnd
    ensures t == test.omitTimer ==> t.proc == Omit
  {
  }

  lemma PutBackIs(s: Scheduler, test: Test)
    requires Handles(s, test)
    ensures forall x :: x in PutBack(test) <==> x == test.statsTimer || x == test.reporterTimer
    ensures forall x :: x in PutBack(test) ==> x in s.active && x.usecs >= 1 && x.proc != Omit && x.proc != TestEnd
  {
  }

  /** client_omit_timer_proc and server_omit_timer_proc. */
  method EndOmit(s: Scheduler, test: Test, now: Time, ghost p: nat) returns (ghost q: nat)
    requires s.Valid() && Handles(s, test) && Normal(now) && InRange(s.active, now)
    modifies s`timers, s`active, s.active`next, s.active`prev, s.active`time, test`omitTimer, test`omitting
    ensures s.Valid() && Handles(s, test) && test.omitTimer == null && !test.omitting
    ensures test.statsTimer != null ==> Micros(test.statsTimer.time) == Micros(now) + test.statsTimer.usecs
    ensures test.reporterTimer != null ==> Micros(test.reporterTimer.time) == Micros(now) + test.reporterTimer.usecs
    ensures forall x :: x in s.active <==> x in old(s.active)
    ensures forall x :: x in s.active && x !in PutBack(test) ==> x.time == old(x.time)
    ensures forall x :: x in PutBack(test) ==> Micros(x.time) == Micros(now) + x.usecs
    ensures p < |old(s.active)| && old(s.active)[p] !in PutBack(test) ==> Past(old(s.active), p, s.active, q, PutBack(test))
  {
    hide Linked, Sorted, Stacked, Distinct, Scheduler.Valid, Past, Handles, PutBack, InRange, Micros, Normal;
    PutBackIs(s, test);
    EndOmitting(s, test);
    assert test.statsTimer != null ==> test.statsTimer in s.active;
    assert test.reporterTimer != null ==> test.reporterTimer in s.active;
    ghost var first, g, h := s.active, One(test.statsTimer), One(test.reporterTimer);
    ghost var m := ResetIfAny(s, test, test.statsTimer, now, p);
    assert forall i :: 0 <= i < |s.active| ==> s.active[i] in first;
    InRangeStays(s, first, now);
    ghost var second := s.active;
    ghost var on := p < |first| && first[p] !in PutBack(test);
    if on {
      PastStands(first, p, second, m, g);
    }
    assert test.reporterTimer != null ==> test.reporterTimer in first;
    q := ResetIfAny(s, test, test.reporterTimer, now, m);
    if on {
      PastBoth(first, p, second, m, s.active, q, g, h);
      PutBackParts(test);
    }
  }

  method EndOmitting(s: Scheduler, test: Test)
    requires Handles(s, test)
    modifies test`omitTimer, test`omitting
    ensures Handles(s, test) && test.omitTimer == null && !test.omitting
  {
    test.omitTimer := null;
    test.omitting := false;
  }

  lemma PutBackParts(test: Test)
    ensures PutBack(test) == One(test.statsTimer) + One(test.reporterTimer)
  {
  }

  lemma InRangeStays(s: Scheduler, was: seq<Timer>, now: Time)
    requires InRange(was, now) && forall x :: x in s.active <==> x in was
    ensures InRange(s.active, now)
  {
  }

  lemma PastStands(l: seq<Timer>, p: nat, m: seq<Timer>, q: nat, gone: set<Timer>)
    requires Past(l, p, m, q, gone)
    ensures p < |l| && q < |m| && m[q] == l[p]
  {
  }

  // ----- one turn of the loop

  /** How many more firings a timer may cause before its deadline passes `now`. */
  ghost function Excess(deadline: nat, now: nat): nat {
    if deadline > now then 0 else now - deadline + 1
  }

  ghost function Times(l: seq<Timer>): (r: seq<nat>)
    reads l`time
    ensures |r| == |l| && forall i :: 0 <= i < |l| ==> r[i] == Micros(l[i].time)
  {
    if l == [] then [] else [Micros(l[0].time)] + Times(l[1..])
  }

  ghost function Costs(l: seq<Timer>, live: seq<Timer>, times: seq<nat>, now: nat): seq<nat>
    requires |l| == |times|
  {
    seq(|l|, i requires 0 <= i < |l| => if l[i] in live then Excess(times[i], now) else 0)
  }

  /** What the active timers among `l` still owe by `now`. */
  ghost function Debt(s: Scheduler, l: seq<Timer>, now: Time): nat
    reads s`active, l`time
  {
    Sum(Costs(l, s.active, Times(l), Micros(now)))
  }

  /** A turn on `t`, due by `now`, lowers the total: `t` is gone or later than before, and nothing else gets earlier. */
  lemma CostsFall(l: seq<Timer>, was: seq<Timer>, live: seq<Timer>, before: seq<nat>, after: seq<nat>, t: Timer, now: nat)
    requires |l| == |before| == |after| && t in l && t in was
    requires forall x :: x in live ==> x in was
    requires forall i :: 0 <= i < |l| && l[i] in live && l[i] != t ==> after[i] == before[i] || after[i] > now
    requires forall i :: 0 <= i < |l| && l[i] == t ==> before[i] <= now && (t in live ==> before[i] < after[i])
    ensures Sum(Costs(l, live, after, now)) < Sum(Costs(l, was, before, now))
  {
    var i: nat :| i < |l| && l[i] == t;
    SumDrops(Costs(l, live, after, now), Costs(l, was, before, now), i);
  }

  ghost function Sum(s: seq<nat>): nat {
    if s == [] then 0 else s[0] + Sum(s[1..])
  }

  lemma {:induction false} SumDrops(a: seq<nat>, b: seq<nat>, k: nat)
    requires |a| == |b| && k < |a| && a[k] < b[k]
    requires forall i :: 0 <= i < |a| ==> a[i] <= b[i]
    ensures Sum(a) < Sum(b)
  {
    if k > 0 {
      SumDrops(a[1..], b[1..], k - 1);
    } else {
      SumHolds(a[1..], b[1..]);
    }
  }

  lemma {:induction false} SumHolds(a: seq<nat>, b: seq<nat>)
    requires |a| == |b| && forall i :: 0 <= i < |a| ==> a[i] <= b[i]
    ensures Sum(a) <= Sum(b)
  {
    if a != [] {
      SumHolds(a[1..], b[1..]);
    }
  }

  /** What followed position `k` of `was` is found from `place` on, headed by what stood next, but for those in `gone`. */
  ghost predicate Onward(was: seq<Timer>, k: nat, l: seq<Timer>, place: nat, gone: set<Timer>) {
    At(l, place) == At(was, k + 1) && place <= |l| && forall i :: k < i < |was| && was[i] !in gone ==> was[i] in l[place..]
  }

  /** The walk goes on where its saved successor is, or ends with the list. */
  lemma GoesOnward(was: seq<Timer>, k: nat, l: seq<Timer>, place: nat, gone: set<Timer>)
    requires k < |was| && Distinct(was)
    requires if k + 1 < |was| then Past(was, k + 1, l, place, gone + {was[k]}) else place == |l|
    ensures Onward(was, k, l, place, gone)
  {
  }

  /** The end of a turn of tmr_run: a periodic timer is rescheduled, any other cancelled. */
  method Settle(s: Scheduler, test: Test, t: Timer, ghost k: nat, ghost p: nat) returns (ghost q: nat)
    requires s.Valid() && Handles(s, test) && k < |s.active| && t == s.active[k] && p != k
    requires t.periodic ==> Micros(t.time) + t.usecs < LIMIT
    requires !t.periodic ==> t != test.timer && t != test.omitTimer
    modifies s, s.active`next, s.active`prev, t`time
    ensures s.Valid() && Handles(s, test)
    ensures p < |old(s.active)| ==> Past(old(s.active), p, s.active, q, {t})
    ensures forall x :: x in s.active <==> x in old(s.active) && (x != t || t.periodic)
    ensures s.spare == if t.periodic then old(s.spare) else [t] + old(s.spare)
    ensures t.periodic ==> Micros(t.time) == old(Micros(t.time)) + t.usecs
    ensures !t.periodic ==> t.time == old(t.time)
  {
    hide Linked, Sorted, Stacked, Distinct, Past, Moved, Removed, HandlesIn;
    ghost var l := s.active;
    q := p;
    RemovedAt(l, k);
    if t.periodic {
      s.Reschedule(k, t);
      if p < |l| {
        q := PastMoved(l, k, Slot(Removed(l, k), Micros(t.time)), p);
      }
    } else {
      if p < |l| {
        q := PastRemoved(l, k, p);
      }
      s.Cancel(k, t);
    }
    HandlesKept(l, s.active, test, t);
  }

  lemma HandlesKept(l: seq<Timer>, m: seq<Timer>, test: Test, t: Timer)
    requires HandlesIn(l, test) && forall x :: x in l && (x != t || t.periodic) ==> x in m
    requires !t.periodic ==> t != test.timer && t != test.omitTimer
    ensures HandlesIn(m, test)
  {
  }

  /** The same, and what followed `t` at `k` before its callback, which left the successor at `q`. */
  method Conclude(s: Scheduler, test: Test, t: Timer, ghost was: seq<Timer>, ghost k: nat, ghost q: nat, ghost moved: set<Timer>, ghost on: bool)
    returns (ghost place: nat)
    requires s.Valid() && Handles(s, test) && t in s.active
    requires k < |was| && was[k] == t && Distinct(was) && (on ==> k + 1 < |was| && Past(was, k + 1, s.active, q, moved))
    requires t.periodic ==> Micros(t.time) + t.usecs < LIMIT
    requires !t.periodic ==> t != test.timer && t != test.omitTimer
    modifies s, s.active`next, s.active`prev, t`time
    ensures s.Valid() && Handles(s, test)
    ensures on || k + 1 == |was| ==> Onward(was, k, s.active, place, moved)
    ensures forall x :: x in s.active <==> x in old(s.active) && (x != t || t.periodic)
    ensures s.spare == if t.periodic then old(s.spare) else [t] + old(s.spare)
    ensures t.periodic ==> Micros(t.time) == old(Micros(t.time)) + t.usecs
    ensures !t.periodic ==> t.time == old(t.time)
  {
    hide Linked, Sorted, Stacked, Distinct, Scheduler.Valid, Onward, Handles, Past;
    ghost var m := s.active;
    ghost var at: nat :| at < |m| && m[at] == t;
    if on {
      PastStands(was, k + 1, m, q, moved);
      Apart(was, k);
    }
    place := Settle(s, test, t, at, if on then q else |m|);
    if on {
      PastBoth(was, k + 1, m, q, s.active, place, moved, {t});
      GoesOnward(was, k, s.active, place, moved);
    } else if k + 1 == |was| {
      place := |s.active|;
      GoesOnward(was, k, s.active, place, moved);
    }
  }

  lemma Apart(l: seq<Timer>, k: nat)
    requires Distinct(l) && k + 1 < |l|
    ensures l[k + 1] != l[k]
  {
  }

  /** The successor the walk has saved is no longer where it was: the callback has moved it. */
  ghost predicate Diverted(next: Timer?, t: Timer, test: Test)
    reads t`proc, test`statsTimer, test`reporterTimer
  {
    next != null && next in MovedBy(t, test)
  }

  /** One turn of tmr_run on a due timer; `k` is its place, `place` that of its successor. */
  method RunOne(s: Scheduler, test: Test, t: Timer, now: Time, ghost k: nat) returns (next: Timer?, ghost place: nat)
    requires s.Valid() && Handles(s, test) && Normal(now) && InRange(s.active, now)
    requires k < |s.active| && t == s.active[k] && Micros(t.time) <= Micros(now)
    modifies s, s.active`next, s.active`prev, s.active`time, test`timer, test`omitTimer, test`done, test`omitting
    ensures s.Valid() && Handles(s, test)
    ensures next == At(old(s.active), k + 1)
    ensures forall x :: x in s.active <==> x in old(s.active) && (x != t || t.periodic)
    ensures s.spare == if t.periodic then old(s.spare) else [t] + old(s.spare)
    ensures t.periodic ==> Micros(t.time) == old(Micros(t.time)) + t.usecs
    ensures forall x :: x in old(s.active) && x != t && x !in MovedBy(t, test) ==> x.time == old(x.time)
    ensures test.done == (old(test.done) || t.proc == TestEnd) && test.omitting == (old(test.omitting) && t.proc != Omit)
    ensures forall x :: x in MovedBy(t, test) ==> x != t && x in s.active && Micros(x.time) == Micros(now) + x.usecs && x.usecs >= 1
    ensures !Diverted(next, t, test) ==> Onward(old(s.active), k, s.active, place, MovedBy(t, test))
  {
    hide Linked, Sorted, Stacked, Distinct, Scheduler.Valid, Onward, Handles, Past, MovedBy;
    NextOf(s, k);
    next := t.next;
    ghost var was := s.active;
    ghost var q := Fire(s, test, t, now, k + 1);
    assert forall i :: 0 <= i < |s.active| ==> s.active[i] in was;
    place := Conclude(s, test, t, was, k, q, MovedBy(t, test), k + 1 < |was| && !Diverted(next, t, test));
  }

  lemma NextOf(s: Scheduler, k: nat)
    requires s.Valid() && k < |s.active|
    ensures s.active[k].next == At(s.active, k + 1) && Distinct(s.active)
  {
  }

  /** The same turn, which brings the loop closer to its end. */
  method Turn(s: Scheduler, test: Test, t: Timer, now: Time, ghost k: nat, ghost l: seq<Timer>) returns (next: Timer?, ghost place: nat)
    requires s.Valid() && Handles(s, test) && Normal(now) && InRange(s.active, now)
    requires k < |s.active| && t == s.active[k] && Micros(t.time) <= Micros(now)
    requires forall x :: x in s.active ==> x in l
    modifies s, s.active`next, s.active`prev, s.active`time, test`timer, test`omitTimer, test`done, test`omitting
    ensures s.Valid() && Handles(s, test)
    ensures next == At(old(s.active), k + 1)
    ensures next != null ==> next in s.active && Micros(next.time) >= old(Micros(t.time))
    ensures forall x :: x in s.active <==> x in old(s.active) && (x != t || t.periodic)
    ensures s.spare == if t.periodic then old(s.spare) else [t] + old(s.spare)
    ensures forall x :: x in old(s.active) && x != t && x !in MovedBy(t, test) ==> x.time == old(x.time)
    ensures test.done == (old(test.done) || t.proc == TestEnd) && test.omitting == (old(test.omitting) && t.proc != Omit)
    ensures forall x :: x in MovedBy(t, test) ==> x != t && x in s.active && Micros(x.time) == Micros(now) + x.usecs && x.usecs >= 1
    ensures !Diverted(next, t, test) ==> Onward(old(s.active), k, s.active, place, MovedBy(t, test))
    ensures Debt(s, l, now) < old(Debt(s, l, now))
  {
    hide Linked, Sorted, Stacked, Distinct, Scheduler.Valid, Onward, Handles, Sum, Costs, Times, MovedBy, Diverted;
    NextLater(s, k);
    assert t in s.active && t in l;
    ghost var was, before := s.active, Times(l);
    next, place := RunOne(s, test, t, now, k);
    CostsFall(l, was, s.active, before, Times(l), t, Micros(now));
  }

  lemma NextLater(s: Scheduler, k: nat)
    requires s.Valid() && k < |s.active|
    ensures k + 1 < |s.active| ==> s.active[k + 1] in s.active && s.active[k + 1] != s.active[k]
    ensures k + 1 < |s.active| ==> Micros(s.active[k].time) <= Micros(s.active[k + 1].time)
  {
  }

  // ----- the loop

  /**
   * A callback: which timer, the deadline it was called for, whether the timer is periodic, what it called back,
   * and the successor tmr_run had saved.
   */
  datatype Firing = Firing(timer: Timer, deadline: nat, periodic: bool, proc: Proc, next: Timer?)

  ghost predicate Fired(log: seq<Firing>, t: Timer) {
    exists i :: 0 <= i < |log| && log[i].timer == t
  }

  /** Nothing fires early, and nothing fires after something due later. */
  ghost predicate InTurn(log: seq<Firing>, now: nat) {
    && (forall i :: 0 <= i < |log| ==> log[i].deadline <= now)
    && (forall i, j :: 0 <= i < j < |log| ==> log[i].deadline <= log[j].deadline)
  }

  /** The one-shots of a log, last first: what tmr_run puts on the free list. */
  ghost function OneShots(log: seq<Firing>): (r: seq<Timer>)
    ensures forall t :: t in r ==> Fired(log, t)
  {
    if log == [] then []
    else
      var last := log[|log| - 1];
      var rest := OneShots(log[..|log| - 1]);
      if last.periodic then rest else [last.timer] + rest
  }

  lemma FiredMore(log: seq<Firing>, f: Firing)
    ensures forall t :: Fired(log + [f], t) <==> Fired(log, t) || f.timer == t
    ensures OneShots(log + [f]) == if f.periodic then OneShots(log) else [f.timer] + OneShots(log)
  {
    assert (log + [f])[..|log|] == log;
    assert (log + [f])[|log|] == f;
    forall t | Fired(log, t) ensures Fired(log + [f], t) {
      var i :| 0 <= i < |log| && log[i].timer == t;
      assert (log + [f])[i].timer == t;
    }
    assert (log + [f])[|log|].timer == f.timer;
  }

  ghost predicate Omitted(log: seq<Firing>) {
    exists i :: 0 <= i < |log| && log[i].proc.Omit?
  }

  ghost predicate Ended(log: seq<Firing>) {
    exists i :: 0 <= i < |log| && log[i].proc.TestEnd?
  }

  /** A firing whose callback has moved the saved successor. */
  ghost predicate Diverts(f: Firing, test: Test)
    reads test`statsTimer, test`reporterTimer
  {
    f.proc.Omit? && f.next != null && f.next in PutBack(test)
  }

  /** From the head of `first` on, each firing is of the successor saved by the one before, and after a diverted one there is none. */
  ghost predicate Walked(log: seq<Firing>, first: seq<Timer>, test: Test)
    reads test`statsTimer, test`reporterTimer
  {
    && (log != [] ==> log[0].timer == At(first, 0) && log[0].next == At(first, 1))
    && (forall i :: 0 < i < |log| ==> log[i].timer == log[i - 1].next)
    && (forall i :: 0 <= i < |log| - 1 ==> !Diverts(log[i], test))
  }

  /** Reset by an omit callback. */
  ghost predicate PutOff(x: Timer, test: Test, log: seq<Firing>, now: nat)
    reads test`statsTimer, test`reporterTimer, x`time, x`usecs
  {
    Omitted(log) && x in PutBack(test) && Micros(x.time) == now + x.usecs && x.usecs >= 1
  }

  /** No omit callback can move another timer: none is due, or there is none to move. */
  ghost predicate Undisturbed(l: seq<Timer>, test: Test, now: nat)
    reads l`proc, l`time, test`statsTimer, test`reporterTimer
  {
    PutBack(test) == {} || forall x :: x in l && x.proc == Omit ==> Micros(x.time) > now
  }

  /** The omit timer is first in line and due, and next comes one of those it moves. */
  ghost predicate CutShort(l: seq<Timer>, test: Test, now: nat)
    reads l`proc, l`time, test`statsTimer, test`reporterTimer
  {
    |l| > 1 && l[0].proc == Omit && Micros(l[0].time) <= now && l[1] in PutBack(test)
  }

  /**
   * tmr_run. It ends, because every firing moves a deadline on or cancels a timer. What fires was due; what was due
   * fires, unless an omit callback resets it, or resets the timer next in line: then the walk stops there.
   */
  method Run(s: Scheduler, test: Test, now: Time) returns (ghost log: seq<Firing>)
    requires s.Valid() && Handles(s, test) && Normal(now) && InRange(s.active, now)
    modifies s, s.active`next, s.active`prev, s.active`time, test`timer, test`omitTimer, test`done, test`omitting
    ensures s.Valid() && Handles(s, test)
    ensures InTurn(log, Micros(now)) && Walked(log, old(s.active), test)
    ensures forall f :: f in log ==> f.timer in old(s.active) && f.periodic == f.timer.periodic && f.proc == f.timer.proc
    ensures test.done <==> old(test.done) || exists i :: 0 <= i < |log| && log[i].proc == TestEnd
    ensures test.omitting <==> old(test.omitting) && !exists i :: 0 <= i < |log| && log[i].proc == Omit
    ensures (exists i :: 0 <= i < |log| && log[i].proc == Omit) ==>
              && (test.statsTimer != null ==> Micros(test.statsTimer.time) == Micros(now) + test.statsTimer.usecs)
              && (test.reporterTimer != null ==> Micros(test.reporterTimer.time) == Micros(now) + test.reporterTimer.usecs)
    ensures forall i, j :: 0 <= i < j < |log| && log[i].timer == log[j].timer ==> log[i].periodic
    ensures s.spare == OneShots(log) + old(s.spare)
    ensures forall x :: x in old(s.active) <==> x in s.active || x in OneShots(log)
    ensures forall x :: x in old(s.active) && Fired(log, x) ==> old(Micros(x.time)) <= Micros(now)
    ensures forall x :: x in old(s.active) && !Fired(log, x) ==>
              || Micros(x.time) == old(Micros(x.time)) > Micros(now)
              || PutOff(x, test, log, Micros(now))
              || (log != [] && Diverts(log[|log| - 1], test) && Micros(x.time) == old(Micros(x.time)))
    ensures old(Undisturbed(s.active, test, Micros(now))) ==>
              forall x :: x in old(s.active) ==> (Fired(log, x) <==> old(Micros(x.time)) <= Micros(now))
    ensures old(CutShort(s.active, test, Micros(now))) ==> |log| == 1 && log[0].timer == old(s.active)[0]
  {
    hide Linked, Sorted, Stacked, Distinct, Scheduler.Valid, Handles, Fired, OneShots, InTurn, PutOff, Walked;
    hide Diverts, InRange, Micros, At, Normal, PutBack, Accounted, Known, Ahead, Compare, Onward;
    ghost var all, spare := s.active, s.spare;
    ghost var dues := map x | x in all :: Micros(x.time);
    ghost var undisturbed, short := Undisturbed(all, test, Micros(now)), CutShort(all, test, Micros(now));
    ghost var t, place;
    log, t, place := Walk(s, test, now, dues);
    if log == [] || !Diverts(log[|log| - 1], test) {
      Rest(s, test, t, place, all, log, dues, now);
    }
    Knows(all, test, log, dues, Micros(now));
    Reckoned(all, s.active, s.spare, spare, log);
    PutBackTimes(s, test, all, log, now);
    SpareDistinct(s);
    Once(log, spare);
    if undisturbed {
      AllFired(all, test, log, dues, Micros(now));
    }
    if short {
      OneFired(all, test, log, dues, Micros(now));
    }
  }

  /** The loop of tmr_run, with the timer it stops at and its place. */
  method Walk(s: Scheduler, test: Test, now: Time, ghost dues: map<Timer, nat>)
    returns (ghost log: seq<Firing>, ghost stop: Timer?, ghost place: nat)
    requires s.Valid() && Handles(s, test) && Normal(now) && InRange(s.active, now)
    requires forall x :: x in s.active ==> x in dues && dues[x] == Micros(x.time)
    modifies s, s.active`next, s.active`prev, s.active`time, test`timer, test`omitTimer, test`done, test`omitting
    ensures s.Valid() && Handles(s, test)
    ensures Accounted(old(s.active), s.active, s.spare, old(s.spare), log) && Known(old(s.active), test, log, dues, Micros(now))
    ensures InTurn(log, Micros(now)) && Walked(log, old(s.active), test)
    ensures test.done == (old(test.done) || Ended(log)) && test.omitting == (old(test.omitting) && !Omitted(log))
    ensures log == [] || !Diverts(log[|log| - 1], test) ==>
              && stop == At(s.active, place) && (stop != null ==> Compare(stop.time, now) > 0)
              && Ahead(old(s.active), test, log, s.active, place, dues, Micros(now))
  {
    hide Linked, Sorted, Stacked, Distinct, Scheduler.Valid, Onward, Handles, Fired, OneShots, InTurn, Ahead, Debt, Accounted;
    hide Known, PutOff, Walked, Diverts, InRange, Compare, Micros, At, Normal, Ended, Omitted, PutBack;
    ghost var all, spare := s.active, s.spare;
    log, place := [], 0;
    ghost var diverted := false;
    var t := s.timers;
    NothingFired(s, test, dues, Micros(now));
    NothingCalled();
    while t != null
      invariant s.Valid() && Handles(s, test)
      invariant Accounted(all, s.active, s.spare, spare, log) && Known(all, test, log, dues, Micros(now))
      invariant InTurn(log, Micros(now)) && (t != null ==> t in s.active && (log != [] ==> log[|log| - 1].deadline <= Micros(t.time)))
      invariant Walked(log, all, test) && t == (if log == [] then At(all, 0) else log[|log| - 1].next)
      invariant log == [] ==> s.active == all && place == 0
      invariant test.done == (old(test.done) || Ended(log)) && test.omitting == (old(test.omitting) && !Omitted(log))
      invariant diverted == (log != [] && Diverts(log[|log| - 1], test))
      invariant if diverted then t != null && Micros(t.time) > Micros(now)
                else t == At(s.active, place) && Ahead(all, test, log, s.active, place, dues, Micros(now))
      decreases Debt(s, all, now)
    {
      DueOrNot(s, t, now);
      if Compare(t.time, now) > 0 {
        break;
      }
      ghost var last := log;
      t, place, log := Step(s, test, t, now, all, spare, log, place, dues);
      OmittedMore(last, log[|log| - 1]);
      WalkedMore(last, log[|log| - 1], all, test);
      diverted := Diverts(log[|log| - 1], test);
    }
    stop := t;
  }

  lemma AllFired(all: seq<Timer>, test: Test, log: seq<Firing>, dues: map<Timer, nat>, now: nat)
    requires forall f :: f in log ==> f.timer in all && f.proc == f.timer.proc
    requires forall x :: x in all ==> x in dues && (Fired(log, x) ==> dues[x] <= now)
    requires forall x :: x in all && !Fired(log, x) ==>
      dues[x] > now || PutOff(x, test, log, now) || (log != [] && Diverts(log[|log| - 1], test))
    requires PutBack(test) == {} || forall x :: x in all && x.proc == Omit ==> dues[x] > now
    ensures forall x :: x in all ==> (Fired(log, x) <==> dues[x] <= now)
  {
    forall i | 0 <= i < |log| ensures log[i].proc.Omit? ==> PutBack(test) == {} {
      assert log[i] in log && Fired(log, log[i].timer);
    }
  }

  lemma OneFired(all: seq<Timer>, test: Test, log: seq<Firing>, dues: map<Timer, nat>, now: nat)
    requires Walked(log, all, test) && forall f :: f in log ==> f.proc == f.timer.proc
    requires forall x :: x in all ==> x in dues
    requires forall x :: x in all && !Fired(log, x) ==>
      dues[x] > now || PutOff(x, test, log, now) || (log != [] && Diverts(log[|log| - 1], test))
    requires |all| > 1 && all[0].proc == Omit && dues[all[0]] <= now && all[1] in PutBack(test)
    ensures |log| == 1 && log[0].timer == all[0]
  {
    assert all[0] in all && log != [];
    assert log[0] in log && Diverts(log[0], test);
  }

  lemma PutBackTimes(s: Scheduler, test: Test, all: seq<Timer>, log: seq<Firing>, now: Time)
    requires Handles(s, test) && forall x :: x in s.active ==> x in all
    requires forall x :: x in all && x in PutBack(test) && Omitted(log) ==> PutOff(x, test, log, Micros(now))
    ensures Omitted(log) ==> PutBackNow(test, now)
  {
    hide Handles, PutBack, Omitted;
    PutBackIs(s, test);
  }

  lemma WalkedMore(log: seq<Firing>, f: Firing, first: seq<Timer>, test: Test)
    requires Walked(log, first, test) && (log != [] ==> !Diverts(log[|log| - 1], test))
    requires f.timer == if log == [] then At(first, 0) else log[|log| - 1].next
    requires log == [] ==> f.next == At(first, 1)
    ensures Walked(log + [f], first, test)
  {
  }

  lemma SpareDistinct(s: Scheduler)
    requires s.Valid()
    ensures Distinct(s.spare)
  {
  }

  /** What reaches the free list only once has fired only once. */
  lemma {:induction false} Once(log: seq<Firing>, first: seq<Timer>)
    requires Distinct(OneShots(log) + first)
    requires forall f :: f in log ==> f.periodic == f.timer.periodic
    ensures forall i, j :: 0 <= i < j < |log| && log[i].timer == log[j].timer ==> log[i].periodic
  {
    if log != [] {
      var rest, last := log[..|log| - 1], log[|log| - 1];
      assert log == rest + [last];
      FiredMore(rest, last);
      ShorterDistinct(rest, last, first);
      Once(rest, first);
      forall i | 0 <= i < |rest| && rest[i].timer == last.timer ensures last.periodic {
        assert rest[i] in log && last in log;
        if !last.periodic {
          Enlisted(rest, i);
          assert false;
        }
      }
    }
  }

  lemma ShorterDistinct(rest: seq<Firing>, last: Firing, first: seq<Timer>)
    requires Distinct(OneShots(rest + [last]) + first)
    ensures Distinct(OneShots(rest) + first)
    ensures !last.periodic ==> last.timer !in OneShots(rest)
  {
    FiredMore(rest, last);
    if !last.periodic {
      var l, m := OneShots(rest) + first, OneShots(rest + [last]) + first;
      assert m == [last.timer] + l;
      assert m[0] == last.timer && m[1..] == l;
      assert forall i :: 0 <= i < |l| ==> l[i] == m[i + 1] && m[0] != m[i + 1];
      forall t | t in OneShots(rest) ensures t != last.timer {
        var i :| 0 <= i < |OneShots(rest)| && OneShots(rest)[i] == t;
        assert l[i] == t;
      }
    }
  }

  lemma {:induction false} Enlisted(log: seq<Firing>, i: nat)
    requires i < |log| && !log[i].periodic
    ensures log[i].timer in OneShots(log)
  {
    if i < |log| - 1 {
      Enlisted(log[..|log| - 1], i);
    }
  }

  /** The body of the loop of tmr_run, with what it keeps. */
  method Step(s: Scheduler, test: Test, t: Timer, now: Time, ghost all: seq<Timer>, ghost spare: seq<Timer>, ghost log: seq<Firing>,
              ghost place: nat, ghost dues: map<Timer, nat>)
    returns (next: Timer?, ghost place': nat, ghost log': seq<Firing>)
    requires s.Valid() && Handles(s, test) && Normal(now) && InRange(all, now)
    requires Accounted(all, s.active, s.spare, spare, log) && Known(all, test, log, dues, Micros(now))
    requires t in s.active && Micros(t.time) <= Micros(now)
    requires InTurn(log, Micros(now)) && (log != [] ==> log[|log| - 1].deadline <= Micros(t.time))
    requires t == At(s.active, place) && Ahead(all, test, log, s.active, place, dues, Micros(now))
    modifies s, all`next, all`prev, all`time, test`timer, test`omitTimer, test`done, test`omitting
    ensures s.Valid() && Handles(s, test)
    ensures Accounted(all, s.active, s.spare, spare, log') && Known(all, test, log', dues, Micros(now))
    ensures log' == log + [Firing(t, old(Micros(t.time)), t.periodic, t.proc, next)] && InTurn(log', Micros(now))
    ensures next == At(old(s.active), place + 1)
    ensures test.done == (old(test.done) || t.proc == TestEnd) && test.omitting == (old(test.omitting) && t.proc != Omit)
    ensures next != null ==> next in s.active && Micros(next.time) >= old(Micros(t.time))
    ensures if Diverts(log'[|log|], test) then next != null && Micros(next.time) > Micros(now)
            else next == At(s.active, place') && Ahead(all, test, log', s.active, place', dues, Micros(now))
    ensures Debt(s, all, now) < old(Debt(s, all, now))
  {
    hide Linked, Sorted, Stacked, Distinct, Scheduler.Valid, Onward, Handles, Fired, OneShots, InTurn, Ahead;
    hide Known, Debt, Accounted, MovedBy, Diverted, Diverts, Omitted, Micros, Normal, PutBack;
    ActiveKnown(all, s.active, s.spare, spare, log);
    ghost var was := s.active;
    ghost var f := Firing(t, Micros(t.time), t.periodic, t.proc, At(was, place + 1));
    OnTime(all, test, log, was, place, dues, Micros(now));
    Knows(all, test, log, dues, Micros(now));
    LiesAhead(all, test, log, was, place, dues, Micros(now));
    MovedIs(t, test);
    next, place' := Turn(s, test, t, now, place, all);
    DivertsIs(f, t, test);
    OmittedMore(log, f);
    InTurnMore(log, f, Micros(now));
    log' := log + [f];
    AccountedMore(all, was, s.active, old(s.spare), s.spare, spare, log, f);
    KnownMore(all, test, log, f, dues, Micros(now));
    if !Diverts(f, test) {
      AheadMore(all, test, log, f, was, place, s.active, place', dues, Micros(now));
    }
  }

  lemma OmittedMore(log: seq<Firing>, f: Firing)
    ensures Omitted(log + [f]) <==> Omitted(log) || f.proc.Omit?
    ensures Ended(log + [f]) <==> Ended(log) || f.proc.TestEnd?
  {
    if Ended(log) {
      var i :| 0 <= i < |log| && log[i].proc.TestEnd?;
      assert (log + [f])[i].proc.TestEnd?;
    }
    if Omitted(log) {
      var i :| 0 <= i < |log| && log[i].proc.Omit?;
      assert (log + [f])[i].proc.Omit?;
    }
    assert (log + [f])[|log|] == f;
  }

  lemma NothingCalled()
    ensures !Omitted([]) && !Ended([])
  {
  }

  lemma MovedIs(t: Timer, test: Test)
    ensures forall x :: x in MovedBy(t, test) <==> t.proc == Omit && x in PutBack(test)
  {
  }

  lemma DivertsIs(f: Firing, t: Timer, test: Test)
    requires f.timer == t && f.proc == t.proc
    ensures Diverts(f, test) <==> Diverted(f.next, t, test)
    ensures Diverts(f, test) ==> f.next in MovedBy(t, test)
  {
  }

  /** No timer is lost: those that left the active list are the one-shots that fired, and they head the free list. */
  ghost predicate Accounted(all: seq<Timer>, l: seq<Timer>, spare: seq<Timer>, first: seq<Timer>, log: seq<Firing>)
    reads all`periodic, all`proc
  {
    && (forall x :: x in all ==> x in l || x in OneShots(log))
    && (forall x :: x in l ==> x in all)
    && (forall x :: x in OneShots(log) ==> x in all)
    && (forall f :: f in log ==> f.timer in all && f.periodic == f.timer.periodic && f.proc == f.timer.proc)
    && spare == OneShots(log) + first
  }

  lemma ActiveKnown(all: seq<Timer>, l: seq<Timer>, spare: seq<Timer>, first: seq<Timer>, log: seq<Firing>)
    requires Accounted(all, l, spare, first, log)
    ensures forall x :: x in l ==> x in all
    ensures forall i :: 0 <= i < |l| ==> l[i] in all
  {
  }

  lemma Reckoned(all: seq<Timer>, l: seq<Timer>, spare: seq<Timer>, first: seq<Timer>, log: seq<Firing>)
    requires Accounted(all, l, spare, first, log)
    ensures forall x :: x in all <==> x in l || x in OneShots(log)
    ensures forall f :: f in log ==> f.timer in all && f.periodic == f.timer.periodic && f.proc == f.timer.proc
    ensures spare == OneShots(log) + first
  {
  }

  lemma AccountedMore(all: seq<Timer>, was: seq<Timer>, l: seq<Timer>, before: seq<Timer>, spare: seq<Timer>, first: seq<Timer>,
                      log: seq<Firing>, f: Firing)
    requires Accounted(all, was, before, first, log)
    requires forall x :: x in l <==> x in was && (x != f.timer || f.periodic)
    requires spare == if f.periodic then before else [f.timer] + before
    requires f.timer in was && f.periodic == f.timer.periodic && f.proc == f.timer.proc
    ensures Accounted(all, l, spare, first, log + [f])
  {
    hide OneShots, Fired;
    FiredMore(log, f);
    OneMoreShot(OneShots(log), first, f, before, spare);
    StillKnown(all, was, l, OneShots(log), OneShots(log + [f]), f);
    FirmFirings(all, log, f);
  }

  lemma StillKnown(all: seq<Timer>, was: seq<Timer>, l: seq<Timer>, shots: seq<Timer>, more: seq<Timer>, f: Firing)
    requires forall x :: x in all ==> x in was || x in shots
    requires forall x :: x in was ==> x in all
    requires forall x :: x in shots ==> x in all
    requires forall x :: x in l <==> x in was && (x != f.timer || f.periodic)
    requires f.timer in was && forall x :: x in more <==> x in shots || (x == f.timer && !f.periodic)
    ensures forall x :: x in all ==> x in l || x in more
    ensures forall x :: x in l ==> x in all
    ensures forall x :: x in more ==> x in all
  {
  }

  lemma FirmFirings(all: seq<Timer>, log: seq<Firing>, f: Firing)
    requires forall g :: g in log ==> g.timer in all && g.periodic == g.timer.periodic && g.proc == g.timer.proc
    requires f.timer in all && f.periodic == f.timer.periodic && f.proc == f.timer.proc
    ensures forall g :: g in log + [f] ==> g.timer in all && g.periodic == g.timer.periodic && g.proc == g.timer.proc
  {
  }

  lemma OneMoreShot(shots: seq<Timer>, first: seq<Timer>, f: Firing, before: seq<Timer>, spare: seq<Timer>)
    requires before == shots + first && spare == if f.periodic then before else [f.timer] + before
    ensures var more := if f.periodic then shots else [f.timer] + shots;
            spare == more + first && forall x :: x in more <==> x in shots || (x == f.timer && !f.periodic)
  {
    assert [f.timer] + (shots + first) == [f.timer] + shots + first;
  }

  /** What has fired was due, and no deadline has changed but of timers that fired or were reset. */
  ghost predicate Known(all: seq<Timer>, test: Test, log: seq<Firing>, dues: map<Timer, nat>, now: nat)
    reads all`time, all`usecs, test`statsTimer, test`reporterTimer
  {
    forall x :: x in all ==>
      && x in dues
      && (Fired(log, x) ==> dues[x] <= now)
      && (Fired(log, x) || Micros(x.time) == dues[x] || PutOff(x, test, log, now))
      && (x in PutBack(test) && Omitted(log) ==> PutOff(x, test, log, now))
  }

  lemma Knows(all: seq<Timer>, test: Test, log: seq<Firing>, dues: map<Timer, nat>, now: nat)
    requires Known(all, test, log, dues, now)
    ensures forall x :: x in all ==> x in dues && (Fired(log, x) ==> dues[x] <= now)
    ensures forall x :: x in all && !Fired(log, x) ==> Micros(x.time) == dues[x] || PutOff(x, test, log, now)
    ensures forall x :: x in all && x in PutBack(test) && Omitted(log) ==> PutOff(x, test, log, now)
  {
  }

  /** Every timer has fired, or has been reset, or is still ahead of the loop. */
  ghost predicate Ahead(all: seq<Timer>, test: Test, log: seq<Firing>, l: seq<Timer>, place: nat, dues: map<Timer, nat>, now: nat)
    reads all`time, all`usecs, test`statsTimer, test`reporterTimer
  {
    place <= |l| && forall x :: x in all ==> Fired(log, x) || x in l[place..] || PutOff(x, test, log, now)
  }

  lemma NothingFired(s: Scheduler, test: Test, dues: map<Timer, nat>, now: nat)
    requires s.Valid() && forall x :: x in s.active ==> x in dues && dues[x] == Micros(x.time)
    ensures Accounted(s.active, s.active, s.spare, s.spare, []) && InTurn([], now) && Walked([], s.active, test)
    ensures Known(s.active, test, [], dues, now) && Ahead(s.active, test, [], s.active, 0, dues, now)
    ensures s.timers == At(s.active, 0) && (s.timers != null ==> s.timers in s.active)
  {
  }

  /** The timer the walk is at was due by its own deadline. */
  lemma OnTime(all: seq<Timer>, test: Test, log: seq<Firing>, l: seq<Timer>, place: nat, dues: map<Timer, nat>, now: nat)
    requires Known(all, test, log, dues, now) && place < |l| && l[place] in all && Micros(l[place].time) <= now
    ensures l[place] in dues && dues[l[place]] <= now
  {
  }

  lemma LiesAhead(all: seq<Timer>, test: Test, log: seq<Firing>, l: seq<Timer>, place: nat, dues: map<Timer, nat>, now: nat)
    requires Ahead(all, test, log, l, place, dues, now)
    ensures place <= |l| && forall x :: x in all && !Fired(log, x) ==> x in l[place..] || PutOff(x, test, log, now)
  {
  }

  lemma KnownMore(all: seq<Timer>, test: Test, log: seq<Firing>, f: Firing, dues: map<Timer, nat>, now: nat)
    requires forall x :: x in all ==> x in dues && (Fired(log, x) ==> dues[x] <= now)
    requires f.timer in all ==> dues[f.timer] <= now
    requires forall x :: x in all && x != f.timer && !Fired(log, x) ==> Micros(x.time) == dues[x] || PutOff(x, test, log + [f], now)
    requires forall x :: x in all && x in PutBack(test) && Omitted(log + [f]) ==> x != f.timer && PutOff(x, test, log + [f], now)
    ensures Known(all, test, log + [f], dues, now)
  {
    hide PutOff;
    FiredMore(log, f);
  }

  /** One more firing, of the timer at `k`, and the rest of the list is still ahead. */
  lemma AheadMore(all: seq<Timer>, test: Test, log: seq<Firing>, f: Firing, was: seq<Timer>, k: nat, l: seq<Timer>, place: nat,
                  dues: map<Timer, nat>, now: nat)
    requires k < |was| && was[k] == f.timer && Onward(was, k, l, place, MovedBy(f.timer, test))
    requires forall x :: x in all && !Fired(log, x) ==> x in was[k..] || PutOff(x, test, log + [f], now)
    requires forall x :: x in MovedBy(f.timer, test) ==> PutOff(x, test, log + [f], now)
    ensures Ahead(all, test, log + [f], l, place, dues, now) && At(l, place) == At(was, k + 1)
  {
    hide PutOff, MovedBy;
    FiredMore(log, f);
    forall x | x in all && !Fired(log, x) && x != f.timer && !PutOff(x, test, log + [f], now) ensures x in l[place..] {
      StillAhead(was, k, l, place, MovedBy(f.timer, test), x);
    }
  }

  lemma DueOrNot(s: Scheduler, t: Timer, now: Time)
    requires s.Valid() && t in s.active && Normal(now)
    ensures Compare(t.time, now) > 0 <==> Micros(t.time) > Micros(now)
  {
    CompareIsOrder(t.time, now);
  }

  lemma InTurnMore(log: seq<Firing>, f: Firing, now: nat)
    requires InTurn(log, now) && f.deadline <= now && (log != [] ==> log[|log| - 1].deadline <= f.deadline)
    ensures InTurn(log + [f], now)
  {
  }

  lemma StillAhead(was: seq<Timer>, k: nat, l: seq<Timer>, place: nat, gone: set<Timer>, x: Timer)
    requires k < |was| && x in was[k..] && x != was[k] && x !in gone && Onward(was, k, l, place, gone)
    ensures place <= |l| && x in l[place..]
  {
    var i :| 0 <= i < |was| - k && was[k..][i] == x;
    assert was[k + i] == x;
  }

  /** Where the loop stops nothing further along is due. */
  lemma Rest(s: Scheduler, test: Test, t: Timer?, place: nat, all: seq<Timer>, log: seq<Firing>, dues: map<Timer, nat>, now: Time)
    requires s.Valid() && t == At(s.active, place) && Normal(now)
    requires t != null ==> Compare(t.time, now) > 0
    requires Ahead(all, test, log, s.active, place, dues, Micros(now))
    ensures forall x :: x in all ==> Fired(log, x) || Micros(x.time) > Micros(now) || PutOff(x, test, log, Micros(now))
  {
    hide Linked, Stacked, Distinct, Sorted, Scheduler.Valid, Fired, PutOff;
    if t != null {
      DueOrNot(s, t, now);
    }
    forall x | x in s.active[place..] ensures Micros(x.time) > Micros(now) {
      var i :| 0 <= i < |s.active| - place && s.active[place..][i] == x;
      LaterOn(s, place, place + i);
    }
  }

  lemma LaterOn(s: Scheduler, i: nat, j: nat)
    requires s.Valid() && i <= j < |s.active|
    ensures Micros(s.active[i].time) <= Micros(s.active[j].time)
  {
  }

  // ----- the timers of a test

  /** A timer for an interval that is not zero joins the active ones, whose handles stay good. */
  method BeginIfAny(s: Scheduler, ghost test: Test, now: Time, proc: Proc, usecs: Interval, periodic: bool) returns (t: Timer?)
    requires s.Valid() && Handles(s, test) && Normal(now)
    modifies s, s.active`next, s.active`prev, s.spare
    ensures s.Valid() && Handles(s, test) && Handle(s.active, t, proc, periodic) && (t == null <==> usecs == 0)
    ensures t != null ==> t in s.active && t !in old(s.active) && t.usecs == usecs && Micros(t.time) == Wrapped(Micros(now) + usecs)
    ensures forall x :: x in old(s.active) ==> x in s.active && x.usecs == old(x.usecs) && x.time == old(x.time)
    ensures forall i :: 0 <= i < |s.active| ==> s.active[i] in old(s.active) || s.active[i] in old(s.spare) || fresh(s.active[i])
    ensures forall i :: 0 <= i < |s.spare| ==> s.spare[i] in old(s.spare)
  {
    hide Linked, Sorted, Stacked, Distinct, Inserted, Slot, Wrapped;
    if usecs == 0 {
      t := null;
      forall i | 0 <= i < |s.active| ensures s.active[i] in s.active {
      }
      return;
    }
    ghost var l := s.active;
    t := s.Create(now, proc, usecs, periodic);
    assert HandlesIn(l, test);
    hide HandlesIn, Scheduler.Valid;
    HandlesStay(l, s.active, test);
    forall i | 0 <= i < |s.active| ensures s.active[i] in old(s.active) || s.active[i] in old(s.spare) || fresh(s.active[i]) {
      assert s.active[i] in s.active;
    }
  }

  /** create_client_timers and create_server_timers: intervals in microseconds, zero for none. */
  method CreateTimers(s: Scheduler, test: Test, now: Time, duration: Interval, stats: Interval, reporter: Interval)
    requires s.Valid() && Handles(s, test) && Normal(now)
    modifies s, s.active`next, s.active`prev, s.spare, test`timer, test`statsTimer, test`reporterTimer, test`done
    ensures s.Valid() && Handles(s, test)
    ensures test.timer == null <==> duration == 0
    ensures test.statsTimer == null <==> stats == 0
    ensures test.reporterTimer == null <==> reporter == 0
    ensures test.timer != null ==> test.timer.usecs == duration && Micros(test.timer.time) == Wrapped(Micros(now) + duration)
    ensures test.statsTimer != null ==> test.statsTimer.usecs == stats && Micros(test.statsTimer.time) == Wrapped(Micros(now) + stats)
    ensures test.reporterTimer != null ==>
              test.reporterTimer.usecs == reporter && Micros(test.reporterTimer.time) == Wrapped(Micros(now) + reporter)
    ensures duration != 0 ==> !test.done
  {
    hide Linked, Sorted, Stacked, Distinct, Scheduler.Valid, Handle, Wrapped, Micros;
    BeginTest(s, test, now, duration);
    test.statsTimer := BeginIfAny(s, test, now, Stats, stats, true);
    test.reporterTimer := BeginIfAny(s, test, now, Reporter, reporter, true);
  }

  /** Its start: no handles, and the timer that ends the test. */
  method BeginTest(s: Scheduler, test: Test, now: Time, duration: Interval)
    requires s.Valid() && Handles(s, test) && Normal(now)
    modifies s, s.active`next, s.active`prev, s.spare, test`timer, test`statsTimer, test`reporterTimer, test`done
    ensures s.Valid() && Handles(s, test) && test.statsTimer == test.reporterTimer == null
    ensures test.timer == null <==> duration == 0
    ensures test.timer != null ==>
              && test.timer in s.active && test.timer.usecs == duration && Micros(test.timer.time) == Wrapped(Micros(now) + duration)
    ensures duration != 0 ==> !test.done
    ensures forall i :: 0 <= i < |s.active| ==> s.active[i] in old(s.active) || s.active[i] in old(s.spare) || fresh(s.active[i])
    ensures forall i :: 0 <= i < |s.spare| ==> s.spare[i] in old(s.spare)
  {
    hide Linked, Sorted, Stacked, Distinct, Scheduler.Valid, Handle, Wrapped, Micros;
    NoHandles(s, test);
    if duration != 0 {
      test.done := false;
    }
    test.timer := BeginIfAny(s, test, now, TestEnd, duration, false);
  }

  method NoHandles(s: Scheduler, test: Test)
    requires Handles(s, test)
    modifies test`timer, test`statsTimer, test`reporterTimer
    ensures Handles(s, test) && test.timer == test.statsTimer == test.reporterTimer == null
  {
    test.timer, test.statsTimer, test.reporterTimer := null, null, null;
  }

  /** create_client_omit_timer, and its counterpart of the server. */
  method CreateOmitTimer(s: Scheduler, test: Test, now: Time, omit: Interval)
    requires s.Valid() && Handles(s, test) && Normal(now)
    modifies s, s.active`next, s.active`prev, s.spare, test`omitTimer, test`omitting
    ensures s.Valid() && Handles(s, test)
    ensures test.omitTimer == null <==> omit == 0
    ensures test.omitTimer != null ==> test.omitTimer.usecs == omit && Micros(test.omitTimer.time) == Wrapped(Micros(now) + omit)
    ensures test.omitting == (omit != 0)
  {
    hide Linked, Sorted, Stacked, Distinct, Scheduler.Valid, Handle;
    test.omitting := omit != 0;
    test.omitTimer := BeginIfAny(s, test, now, Omit, omit, false);
  }

  method CancelIfAny(s: Scheduler, h: Timer?)
    requires s.Valid() && (h != null ==> h in s.active)
    modifies s, s.active`next, s.active`prev
    ensures s.Valid() && s.spare == if h == null then old(s.spare) else [h] + old(s.spare)
    ensures forall x :: x in s.active <==> x in old(s.active) && x != h
    ensures forall i :: 0 <= i < |s.active| ==> s.active[i] in old(s.active)
  {
    hide Linked, Sorted, Stacked, Distinct, Removed, Scheduler.Valid;
    forall i | 0 <= i < |s.active| ensures s.active[i] in s.active {
    }
    if h != null {
      ghost var k: nat :| k < |s.active| && s.active[k] == h;
      ActiveDistinct(s);
      RemovedAt(s.active, k);
      s.Cancel(k, h);
    }
  }

  lemma ActiveDistinct(s: Scheduler)
    requires s.Valid()
    ensures Distinct(s.active)
  {
  }

  /** The end of cleanup_server: exactly the timers of the test go back to the free list. */
  method CancelTimers(s: Scheduler, test: Test)
    requires s.Valid() && Handles(s, test)
    modifies s, s.active`next, s.active`prev, test`timer, test`statsTimer, test`reporterTimer, test`omitTimer
    ensures s.Valid() && test.timer == test.statsTimer == test.reporterTimer == test.omitTimer == null
    ensures forall x :: x in s.active <==>
              x in old(s.active) && x != old(test.statsTimer) && x != old(test.reporterTimer) && x != old(test.omitTimer) && x != old(test.timer)
  {
    hide Linked, Sorted, Stacked, Distinct, Scheduler.Valid;
    CancelIfAny(s, test.statsTimer);
    CancelIfAny(s, test.reporterTimer);
    CancelIfAny(s, test.omitTimer);
    CancelIfAny(s, test.timer);
    test.statsTimer, test.reporterTimer, test.omitTimer, test.timer := null, null, null, null;
  }

  // ----- a walk cut short

  /**
   * A test of three seconds, the first omitted, with statistics every two: when its loop comes to the timers only at
   * the end, the omit timer fires, resets the statistics timer next in line and so stops the walk before the end of the
   * test, which is due; the next select does not wait.
   */
  method EndIsPassedOver() returns (s: Scheduler, test: Test, end: Timer, wakeup: Wakeup, ghost log: seq<Firing>)
    ensures s.Valid() && end in s.active && end.proc == TestEnd
    ensures !Fired(log, end) && Micros(end.time) == Micros(Time(3, 0))
    ensures wakeup == After(0, 0)
  {
    hide Linked, Sorted, Stacked, Distinct, Scheduler.Valid, OneShots, InTurn, Walked;
    hide Fired, Diverts, PutOff, PutBack, Micros, Handles, InRange;
    var stats, omit;
    s, test, end, stats, omit := ThreeHandles();
    ghost var first := s.active;
    var now := Time(3, 0);
    Instants();
    log := Run(s, test, now);
    assert omit in first && end in first;
    StopsAtOnce(log, first, test, omit, stats, end, Micros(now));
    wakeup := s.Timeout(now);
  }

  /** The timers of such a test. */
  method ThreeHandles() returns (s: Scheduler, test: Test, end: Timer, stats: Timer, omit: Timer)
    ensures fresh(s) && fresh(test) && fresh(end) && fresh(stats) && fresh(omit) && s.Valid() && s.active == [omit, stats, end]
    ensures Handles(s, test) && InRange(s.active, Time(3, 0)) && test.statsTimer == stats && test.reporterTimer == null
    ensures end.proc == TestEnd && omit.proc == Omit && end != stats && end != omit && !end.periodic
    ensures Micros(end.time) == 3_000_000 && Micros(omit.time) == 1_000_000
  {
    hide Linked, Sorted, Stacked, Distinct, Scheduler.Valid;
    s, end, stats, omit := ThreeTimers();
    test := new Test();
    test.timer, test.statsTimer, test.omitTimer := end, stats, omit;
  }

  lemma Instants()
    ensures Micros(Time(3, 0)) == 3_000_000
  {
  }

  lemma StopsAtOnce(log: seq<Firing>, first: seq<Timer>, test: Test, omit: Timer, stats: Timer, end: Timer, now: nat)
    requires first == [omit, stats, end] && end != omit && end != stats && test.statsTimer == stats && test.reporterTimer == null
    requires Walked(log, first, test) && omit.proc == Omit && forall f :: f in log ==> f.proc == f.timer.proc
    requires log != [] || Fired(log, omit) || PutOff(omit, test, log, now)
    ensures !Fired(log, end) && !PutOff(end, test, log, now)
  {
    assert log[0] in log && Diverts(log[0], test);
  }

  /** A new timer due before all others heads the list. */
  method CreateFirst(s: Scheduler, proc: Proc, usecs: Interval, periodic: bool) returns (t: Timer)
    requires s.Valid() && s.spare == [] && usecs < LIMIT && forall x :: x in s.active ==> Micros(x.time) > usecs
    modifies s, s.active`next, s.active`prev
    ensures s.Valid() && s.spare == [] && s.active == [t] + old(s.active) && fresh(t)
    ensures t.proc == proc && t.usecs == usecs && t.periodic == periodic && Micros(t.time) == usecs
  {
    hide Linked, Sorted, Stacked, Distinct, Scheduler.Valid, Slot, Wrapped;
    SlotFirst(s.active, usecs);
    t := s.Create(Time(0, 0), proc, usecs, periodic);
  }

  lemma SlotFirst(l: seq<Timer>, deadline: nat)
    requires forall x :: x in l ==> Micros(x.time) > deadline
    ensures Slot(l, deadline) == 0
    ensures forall t :: Inserted(l, 0, t) == [t] + l
  {
    assert l != [] ==> l[0] in l;
  }

  /** Timers of three, two and one second, made in this order, stand on the list in the order of their deadlines. */
  method ThreeTimers() returns (s: Scheduler, end: Timer, stats: Timer, omit: Timer)
    ensures fresh(s) && fresh(end) && fresh(stats) && fresh(omit) && s.Valid() && s.active == [omit, stats, end] && s.spare == []
    ensures end.proc == TestEnd && !end.periodic && stats.proc == Stats && stats.periodic && omit.proc == Omit && !omit.periodic
    ensures end.usecs == Micros(end.time) == 3_000_000 && stats.usecs == Micros(stats.time) == 2_000_000
    ensures omit.usecs == Micros(omit.time) == 1_000_000
  {
    hide Linked, Sorted, Stacked, Distinct, Scheduler.Valid, Micros;
    s := new Scheduler();
    end := CreateFirst(s, TestEnd, 3_000_000, false);
    stats := CreateFirst(s, Stats, 2_000_000, true);
    omit := CreateFirst(s, Omit, 1_000_000, false);
  }
}
