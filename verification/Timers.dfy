/**
 * The timer scheduler: active timers on a doubly linked list sorted by deadline, cancelled ones on a free list.
 * `active` and `spare` are the two lists as sequences.
 */
module Timers {
  import opened IperfTime

  /** What a timer calls back; the omit procedure resets the other two periodic timers of its test. */
  datatype Proc = TestEnd | Stats | Reporter | Omit

  /** When select has to wake up for the timers. */
  datatype Wakeup = Never | After(secs: nat, usecs: nat)

  class Timer {
    var prev: Timer?
    var next: Timer?
    var time: Time
    var usecs: Interval
    var periodic: bool
    var proc: Proc

    constructor ()
      ensures Normal(time)
    {
      prev, next := null, null;
      time, usecs, periodic, proc := Time(0, 0), 0, false, TestEnd;
    }

    method Arm(now: Time, proc: Proc, usecs: Interval, periodic: bool)
      requires Normal(now)
      modifies `proc, `usecs, `periodic, `time
      ensures this.proc == proc && this.usecs == usecs && this.periodic == periodic
      ensures Normal(time) && Micros(time) == Wrapped(Micros(now) + usecs)
    {
      this.proc, this.usecs, this.periodic := proc, usecs, periodic;
      time := now;
      Delay();
    }

    /** The deadline moves on by the interval. */
    method Delay()
      requires Normal(time)
      modifies `time
      ensures Normal(time) && Micros(time) == Wrapped(old(Micros(time)) + usecs)
    {
      AddIsExact(time, usecs);
      time := AddUsecs(time, usecs);
    }
  }

  // ----- sequences of timers

  ghost function At(l: seq<Timer>, i: int): Timer? {
    if 0 <= i < |l| then l[i] else null
  }

  ghost predicate Distinct(l: seq<Timer>) {
    forall i, j :: 0 <= i < j < |l| ==> l[i] != l[j]
  }

  /** Doubly linked from `head`, null at both ends. */
  ghost predicate Linked(head: Timer?, l: seq<Timer>)
    reads l`next, l`prev
  {
    && head == At(l, 0)
    && (forall i :: 0 <= i < |l| ==> l[i].next == At(l, i + 1))
    && (forall i :: 0 <= i < |l| ==> l[i].prev == At(l, i - 1))
  }

  /** Singly linked from `head`. */
  ghost predicate Stacked(head: Timer?, l: seq<Timer>)
    reads l`next
  {
    head == At(l, 0) && forall i :: 0 <= i < |l| ==> l[i].next == At(l, i + 1)
  }

  ghost predicate Sorted(l: seq<Timer>)
    reads l`time
  {
    && (forall t :: t in l ==> Normal(t.time))
    && (forall i, j :: 0 <= i < j < |l| ==> Micros(l[i].time) <= Micros(l[j].time))
  }

  /** Where a deadline belongs: behind every timer that is not later. */
  ghost function Slot(l: seq<Timer>, deadline: nat): (k: nat)
    reads l`time
    ensures k <= |l|
    ensures forall i :: 0 <= i < k ==> Micros(l[i].time) <= deadline
    ensures k < |l| ==> Micros(l[k].time) > deadline
  {
    if l == [] || Micros(l[0].time) > deadline then 0 else 1 + Slot(l[1..], deadline)
  }

  ghost function Inserted(l: seq<Timer>, k: nat, t: Timer): seq<Timer>
    requires k <= |l|
  {
    l[..k] + [t] + l[k..]
  }

  ghost function Removed(l: seq<Timer>, k: nat): seq<Timer>
    requires k < |l|
  {
    l[..k] + l[k + 1..]
  }

  lemma RemovedAt(l: seq<Timer>, k: nat)
    requires k < |l|
    ensures |Removed(l, k)| == |l| - 1
    ensures forall i :: 0 <= i < |l| - 1 ==> Removed(l, k)[i] == l[if i < k then i else i + 1]
    ensures forall t :: t in Removed(l, k) ==> t in l
    ensures forall t :: t in l && t != l[k] ==> t in Removed(l, k)
    ensures Distinct(l) ==> Distinct(Removed(l, k)) && l[k] !in Removed(l, k)
  {
    forall t | t in l && t != l[k] ensures t in Removed(l, k) {
      var i :| 0 <= i < |l| && l[i] == t;
      assert Removed(l, k)[if i < k then i else i - 1] == t;
    }
  }

  lemma InsertedAt(l: seq<Timer>, k: nat, t: Timer)
    requires k <= |l|
    ensures |Inserted(l, k, t)| == |l| + 1
    ensures forall i :: 0 <= i <= |l| ==> Inserted(l, k, t)[i] == if i < k then l[i] else if i == k then t else l[i - 1]
    ensures Distinct(l) && t !in l ==> Distinct(Inserted(l, k, t))
  {
  }

  lemma InsertedMembers(l: seq<Timer>, k: nat, t: Timer)
    requires k <= |l|
    ensures forall x :: x in Inserted(l, k, t) <==> x in l || x == t
  {
    forall x | x in l ensures x in Inserted(l, k, t) {
      var i :| 0 <= i < |l| && l[i] == x;
      assert Inserted(l, k, t)[if i < k then i else i + 1] == x;
    }
    assert Inserted(l, k, t)[k] == t;
  }

  class Scheduler {
    var timers: Timer?
    var freeTimers: Timer?

    ghost var active: seq<Timer>
    ghost var spare: seq<Timer>

    constructor ()
      ensures Valid() && active == [] && spare == []
    {
      timers, freeTimers := null, null;
      active, spare := [], [];
    }

    /** The active list is doubly linked, sorted and disjoint from the free list. */
    ghost predicate Valid()
      reads this, active`next, active`prev, active`time, spare`next
    {
      && Distinct(active) && Distinct(spare)
      && (forall t :: t in active ==> t !in spare)
      && Linked(timers, active)
      && Stacked(freeTimers, spare)
      && Sorted(active)
    }

    /** list_add: the timer goes behind every timer due no later than it, so equal deadlines keep their order. */
    method ListAdd(t: Timer)
      requires Linked(timers, active) && Sorted(active) && Distinct(active) && t !in active && Normal(t.time)
      modifies this`timers, this`active, active`next, active`prev, t`next, t`prev
      ensures active == Inserted(old(active), Slot(old(active), Micros(t.time)), t)
      ensures forall x :: x in active <==> x in old(active) || x == t
      ensures Linked(timers, active) && Sorted(active) && Distinct(active)
    {
      hide Linked, Hooked, Sorted, Distinct, Slot;
      ghost var l, k := active, Slot(active, Micros(t.time));
      InsertedMembers(l, k, t);
      SortedInsert(l, k, t);
      Place(k, t);
      HookedLinks(timers, l, k, t);
      assert Sorted(Inserted(l, k, t));
      active := Inserted(l, k, t);
    }

    /** The rewiring of list_add. */
    method Place(ghost k: nat, t: Timer)
      requires Linked(timers, active) && Sorted(active) && Distinct(active) && t !in active && Normal(t.time)
      requires k == Slot(active, Micros(t.time))
      modifies this`timers, active`next, active`prev, t`next, t`prev
      ensures Hooked(timers, active, k, t)
    {
      hide Linked, Hooked, Sorted, Distinct;
      FirstOf(timers, active);
      if timers == null {
        timers := t;
        t.prev, t.next := null, null;
        FirstHooked(t, active, k);
      } else {
        CompareIsOrder(t.time, timers.time);
        if Compare(t.time, timers.time) < 0 {
          HookFirst(t);
        } else {
          var before, after := Walk(k, t);
          HookBetween(k, before, t, after);
        }
      }
    }

    method HookFirst(t: Timer)
      requires Linked(timers, active) && active != [] && Distinct(active) && t !in active
      modifies this`timers, active`next, active`prev, t`next, t`prev
      ensures Hooked(timers, active, 0, t)
    {
      t.prev := null;
      t.next := timers;
      timers.prev := t;
      timers := t;
    }

    method HookBetween(ghost k: nat, before: Timer, t: Timer, after: Timer?)
      requires Linked(timers, active) && Distinct(active) && t !in active
      requires 0 < k <= |active| && before == active[k - 1] && after == At(active, k)
      modifies active`next, active`prev, t`next, t`prev
      ensures Hooked(timers, active, k, t)
    {
      hide Distinct, At;
      Neighbours(timers, active, k - 1);
      AtIs(active, k - 1);
      AtIs(active, k);
      AtIs(active, 0);
      Alone(active, k - 1);
      Alone(active, k);
      before.next := t;
      t.prev := before;
      t.next := after;
      if after != null {
        after.prev := t;
      }
    }

    /** The walk of list_add to its insertion point. */
    method Walk(ghost k: nat, t: Timer) returns (before: Timer, after: Timer?)
      requires Linked(timers, active) && Sorted(active) && active != [] && Normal(t.time)
      requires k == Slot(active, Micros(t.time)) && k > 0
      ensures before == active[k - 1] && after == At(active, k)
    {
      hide Linked, Sorted, Slot, At;
      Follows(timers, active, 0);
      before, after := timers, timers.next;
      ghost var i: nat := 1;
      while after != null
        invariant 0 < i <= k <= |active| && before == active[i - 1] && after == At(active, i)
        decreases |active| - i
      {
        AtIs(active, i);
        Follows(timers, active, i);
        CompareIsOrder(t.time, after.time);
        SlotSides(active, Micros(t.time), i);
        if Compare(t.time, after.time) < 0 {
          break;
        }
        before, after := after, after.next;
        i := i + 1;
      }
      AtIs(active, i);
    }

    /** list_remove. The links of the timer itself are left as they were. */
    method ListRemove(ghost k: nat, t: Timer)
      requires Linked(timers, active) && Distinct(active) && k < |active| && t == active[k]
      modifies this`timers, this`active, active`next, active`prev
      ensures active == Removed(old(active), k)
      ensures Linked(timers, active) && Distinct(active)
    {
      hide Linked, Bypassed, Distinct;
      ghost var l := active;
      RemovedAt(l, k);
      Unlink(k, t);
      BypassedLinks(timers, l, k);
      active := Removed(l, k);
    }

    /** The rewiring of list_remove. */
    method Unlink(ghost k: nat, t: Timer)
      requires Linked(timers, active) && Distinct(active) && k < |active| && t == active[k]
      modifies this`timers, active`next, active`prev
      ensures Bypassed(timers, active, k)
    {
      hide Distinct, At;
      Neighbours(timers, active, k);
      FirstIs(timers, active, k);
      AtIs(active, 0);
      AtIs(active, k + 1);
      Alone(active, k - 1);
      Alone(active, k + 1);
      if t.prev == null {
        timers := t.next;
      } else {
        t.prev.next := t.next;
      }
      if t.next != null {
        t.next.prev := t.prev;
      }
    }

    /** list_resort: the timer moves to the slot of its new deadline. */
    method Resort(ghost k: nat, t: Timer)
      requires Linked(timers, active) && Distinct(active) && k < |active| && t == active[k]
      requires Sorted(Removed(active, k)) && Normal(t.time)
      modifies this`timers, this`active, active`next, active`prev
      ensures active == Moved(old(active), k, Slot(Removed(old(active), k), Micros(t.time)))
      ensures forall x :: x in active <==> x in old(active)
      ensures Linked(timers, active) && Sorted(active) && Distinct(active)
    {
      hide Linked, Sorted, Distinct, Slot;
      RemovedAt(active, k);
      ListRemove(k, t);
      ListAdd(t);
    }

    /** How tmr_run reschedules a periodic timer. */
    method Reschedule(ghost k: nat, t: Timer)
      requires Valid() && k < |active| && t == active[k]
      modifies this`timers, this`active, active`next, active`prev, t`time
      ensures Valid() && Micros(t.time) == Wrapped(old(Micros(t.time)) + t.usecs)
      ensures active == Moved(old(active), k, Slot(Removed(old(active), k), Micros(t.time)))
      ensures forall x :: x in active <==> x in old(active)
    {
      hide Linked, Sorted, Slot, Distinct, Stacked, Wrapped, Removed, Moved, Micros;
      NormalTime(active, k);
      SortedRemove(active, k);
      RemovedAt(active, k);
      t.Delay();
      assert forall i :: 0 <= i < |spare| ==> spare[i] !in active;
      Resort(k, t);
    }

    // ----- the interface

    /** tmr_create, on a recycled timer when there is one. */
    method Create(now: Time, proc: Proc, usecs: Interval, periodic: bool) returns (t: Timer)
      requires Valid() && Normal(now)
      modifies this, active`next, active`prev, spare
      ensures Valid()
      ensures t.proc == proc && t.usecs == usecs && t.periodic == periodic && Micros(t.time) == Wrapped(Micros(now) + usecs)
      ensures active == Inserted(old(active), old(Slot(active, Wrapped(Micros(now) + usecs))), t)
      ensures t !in old(active) && forall x :: x in active <==> x in old(active) || x == t
      ensures forall x :: x in old(active) ==> x.proc == old(x.proc) && x.periodic == old(x.periodic) && x.usecs == old(x.usecs)
      ensures if old(spare) == [] then fresh(t) && spare == [] else t == old(spare)[0] && spare == old(spare)[1..]
    {
      hide Linked, Sorted, Slot, Distinct, Stacked;
      t := Allocate();
      Start(now, t, proc, usecs, periodic);
    }

    /** The rest of tmr_create. */
    method Start(now: Time, t: Timer, proc: Proc, usecs: Interval, periodic: bool)
      requires Valid() && t !in active && t !in spare
      requires Normal(now)
      modifies this`timers, this`active, active`next, active`prev, t
      ensures Valid()
      ensures t.proc == proc && t.usecs == usecs && t.periodic == periodic && Micros(t.time) == Wrapped(Micros(now) + usecs)
      ensures active == Inserted(old(active), old(Slot(active, Wrapped(Micros(now) + usecs))), t)
      ensures forall x :: x in active <==> x in old(active) || x == t
    {
      hide Linked, Sorted, Slot, Distinct, Stacked, Inserted, Wrapped;
      ghost var slot := Slot(active, Wrapped(Micros(now) + usecs));
      assert forall i :: 0 <= i < |active| ==> active[i] != t;
      assert forall i :: 0 <= i < |spare| ==> spare[i] !in active && spare[i] != t;
      t.Arm(now, proc, usecs, periodic);
      ListAdd(t);
    }

    /** The head of the free list, or a new timer. */
    method Allocate() returns (t: Timer)
      requires Valid()
      modifies this`freeTimers, this`spare
      ensures Valid() && t !in active && t !in spare
      ensures if old(spare) == [] then fresh(t) && spare == [] else t == old(spare)[0] && spare == old(spare)[1..]
    {
      hide Linked, Sorted;
      FirstSpare(freeTimers, spare);
      if freeTimers != null {
        t := freeTimers;
        freeTimers := t.next;
        assert t in spare;
        spare := spare[1..];
      } else {
        t := new Timer();
      }
    }

    /** tmr_cancel. */
    method Cancel(ghost k: nat, t: Timer)
      requires Valid() && k < |active| && t == active[k]
      modifies this, active`next, active`prev
      ensures Valid() && active == Removed(old(active), k) && spare == [t] + old(spare)
    {
      hide Linked, Sorted, Distinct, Stacked;
      SortedRemove(active, k);
      RemovedAt(active, k);
      CancelDistinct(t, spare);
      assert t in active && t !in spare;
      assert forall i :: 0 <= i < |spare| ==> spare[i] !in active;
      ListRemove(k, t);
      assert t !in active && Sorted(active);
      t.next := freeTimers;
      freeTimers := t;
      t.prev := null;
      Pushed(t, spare);
      spare := [t] + spare;
    }

    /** tmr_reset. */
    method Reset(now: Time, ghost k: nat, t: Timer)
      requires Valid() && Normal(now) && k < |active| && t == active[k]
      modifies this`timers, this`active, active`next, active`prev, t`time
      ensures Valid() && Micros(t.time) == Wrapped(Micros(now) + t.usecs)
      ensures active == Moved(old(active), k, Slot(Removed(old(active), k), Micros(t.time)))
      ensures forall x :: x in active <==> x in old(active)
    {
      hide Linked, Sorted, Slot, Distinct, Stacked, Wrapped, Removed, Moved, Micros;
      SortedRemove(active, k);
      RemovedAt(active, k);
      t.time := now;
      t.Delay();
      assert forall i :: 0 <= i < |spare| ==> spare[i] !in active;
      Resort(k, t);
    }

    /** tmr_timeout: seconds and microseconds, or nothing when no timer runs. */
    method Timeout(now: Time) returns (r: Wakeup)
      requires Valid() && Normal(now)
      ensures r.Never? <==> active == []
      ensures r.After? ==> r.usecs < MILLION
      ensures r.After? ==> forall t :: t in active ==> r.secs * MILLION + r.usecs <= Wait(Micros(t.time), Micros(now))
      ensures r.After? ==> exists t :: t in active && r.secs * MILLION + r.usecs == Wait(Micros(t.time), Micros(now))
    {
      if timers == null {
        return Never;
      }
      var (diff, past) := Diff(timers.time, now);
      DiffIsDistance(timers.time, now);
      var usecs: nat := if past then 0 else Micros(diff);
      assert usecs == Wait(Micros(active[0].time), Micros(now));
      assert active[0] in active;
      return After(usecs / 1_000_000, usecs % 1_000_000);
    }

    /** tmr_destroy. */
    method Destroy()
      requires Valid()
      modifies this, active`next, active`prev, spare`next
      ensures Valid() && active == [] && spare == []
    {
      hide Linked, Sorted, Stacked, Distinct;
      while timers != null
        invariant Valid()
        invariant forall t :: t in active ==> t in old(active)
        decreases |active|
      {
        FirstOf(timers, active);
        RemovedAt(active, 0);
        assert forall i :: 0 <= i < |active| ==> active[i] in active;
        Cancel(0, timers);
      }
      FirstOf(timers, active);
      Cleanup();
    }

    /** The head of the free list goes. */
    method Pop()
      requires Valid() && freeTimers != null
      modifies this`freeTimers, this`spare
      ensures Valid() && |spare| < |old(spare)| && (freeTimers == null <==> spare == [])
    {
      hide Linked, Sorted;
      FirstSpare(freeTimers, spare);
      freeTimers := freeTimers.next;
      spare := spare[1..];
    }

    /** tmr_cleanup. */
    method Cleanup()
      requires Valid()
      modifies this`freeTimers, this`spare
      ensures Valid() && spare == []
    {
      hide Linked, Sorted, Stacked, Distinct;
      FirstSpare(freeTimers, spare);
      while freeTimers != null
        invariant Valid() && (freeTimers == null <==> spare == [])
        decreases |spare|
      {
        Pop();
      }
    }
  }

  lemma CancelDistinct(t: Timer, l: seq<Timer>)
    requires Distinct(l)
    ensures t !in l ==> Distinct([t] + l)
  {
  }

  // ----- the time to the next deadline

  /** From now to the deadline, or nothing when that is past. */
  lemma WaitIs(deadline: nat, now: nat)
    ensures deadline >= now ==> now + Wait(deadline, now) == deadline
    ensures deadline <= now ==> Wait(deadline, now) == 0
  {
  }

  ghost function Wait(deadline: nat, now: nat): nat {
    if deadline > now then deadline - now else 0
  }

  ghost function Moved(l: seq<Timer>, k: nat, slot: nat): seq<Timer>
    requires k < |l| && slot < |l|
  {
    Inserted(Removed(l, k), slot, l[k])
  }

  lemma Pushed(t: Timer, l: seq<Timer>)
    requires Stacked(t.next, l)
    ensures Stacked(t, [t] + l)
  {
    var m := [t] + l;
    forall i | 0 <= i < |m| ensures m[i].next == At(m, i + 1) {
      if i > 0 {
        assert m[i] == l[i - 1];
      }
    }
  }

  lemma FirstSpare(head: Timer?, l: seq<Timer>)
    requires Stacked(head, l)
    ensures head == null <==> l == []
    ensures head != null ==> head == l[0] && Stacked(head.next, l[1..])
  {
  }

  /** What the links of the timer at `k` are, one step either way. */
  lemma Neighbours(head: Timer?, l: seq<Timer>, k: nat)
    requires Linked(head, l) && k < |l|
    ensures l[k].prev == if k == 0 then null else l[k - 1]
    ensures l[k].next == if k + 1 < |l| then l[k + 1] else null
    ensures k > 0 ==> l[k - 1] in l && l[k - 1].next == l[k]
    ensures k + 1 < |l| ==> l[k + 1] in l && l[k + 1].prev == l[k]
  {
  }

  lemma AtIs(l: seq<Timer>, k: nat)
    ensures At(l, k) == if k < |l| then l[k] else null
    ensures k < |l| ==> l[k] in l
  {
  }

  /** The timer at `k` stands nowhere else. */
  lemma Alone(l: seq<Timer>, k: int)
    requires Distinct(l)
    ensures forall i :: 0 <= i < |l| && i != k && 0 <= k < |l| ==> l[i] != l[k]
  {
  }

  lemma FirstIs(head: Timer?, l: seq<Timer>, k: nat)
    requires Linked(head, l) && k < |l|
    ensures head == l[0]
  {
  }

  lemma NormalTime(l: seq<Timer>, k: nat)
    requires Sorted(l) && k < |l|
    ensures Normal(l[k].time)
  {
  }

  lemma Follows(head: Timer?, l: seq<Timer>, i: nat)
    requires Linked(head, l) && Sorted(l) && i < |l|
    ensures l[i].next == At(l, i + 1) && Normal(l[i].time) && head == l[0]
  {
  }

  lemma FirstOf(head: Timer?, l: seq<Timer>)
    requires Linked(head, l) && Sorted(l)
    ensures head == At(l, 0) && (head != null ==> Normal(head.time))
  {
  }

  lemma FirstHooked(t: Timer, l: seq<Timer>, k: nat)
    requires l == [] && k == 0 && t.next == t.prev == null
    ensures Hooked(t, l, k, t)
  {
  }

  /** The links of `l` with `t` hooked in front of position `k`. */
  ghost predicate Hooked(head: Timer?, l: seq<Timer>, k: nat, t: Timer)
    reads l`next, l`prev, t`next, t`prev
  {
    && head == (if k == 0 then t else At(l, 0))
    && t.next == At(l, k) && t.prev == At(l, k - 1)
    && (forall i :: 0 <= i < |l| ==> l[i].next == if i == k - 1 then t else At(l, i + 1))
    && (forall i :: 0 <= i < |l| ==> l[i].prev == if i == k then t else At(l, i - 1))
  }

  lemma HookedLinks(head: Timer?, l: seq<Timer>, k: nat, t: Timer)
    requires k <= |l| && Hooked(head, l, k, t)
    ensures Linked(head, Inserted(l, k, t))
  {
    var m := Inserted(l, k, t);
    assert m[k] == t;
    forall i | 0 <= i < |m| ensures m[i].next == At(m, i + 1) && m[i].prev == At(m, i - 1) {
      if i < k {
        assert m[i] == l[i];
      } else if i > k {
        assert m[i] == l[i - 1];
      }
    }
  }

  lemma SortedInsert(l: seq<Timer>, k: nat, t: Timer)
    requires Distinct(l) && t !in l && Sorted(l) && Normal(t.time) && k == Slot(l, Micros(t.time))
    ensures Sorted(Inserted(l, k, t)) && Distinct(Inserted(l, k, t))
  {
    hide Slot;
    InsertedAt(l, k, t);
    forall i, j | 0 <= i < j <= |l| ensures Micros(Inserted(l, k, t)[i].time) <= Micros(Inserted(l, k, t)[j].time) {
      InOrder(l, k, t, i, j);
    }
  }

  lemma InOrder(l: seq<Timer>, k: nat, t: Timer, i: nat, j: nat)
    requires Sorted(l) && k == Slot(l, Micros(t.time)) && i < j <= |l|
    ensures Micros(Inserted(l, k, t)[i].time) <= Micros(Inserted(l, k, t)[j].time)
  {
    hide Sorted, Slot, Inserted;
    InsertedIs(l, k, t, i);
    InsertedIs(l, k, t, j);
    if i == k {
      SlotSides(l, Micros(t.time), j - 1);
    } else if j == k {
      SlotSides(l, Micros(t.time), i);
    } else {
      SortedPair(l, if i < k then i else i - 1, if j < k then j else j - 1);
    }
  }

  lemma InsertedIs(l: seq<Timer>, k: nat, t: Timer, i: nat)
    requires k <= |l| && i <= |l|
    ensures |Inserted(l, k, t)| == |l| + 1
    ensures Inserted(l, k, t)[i] == if i < k then l[i] else if i == k then t else l[i - 1]
  {
  }

  lemma SortedPair(l: seq<Timer>, i: nat, j: nat)
    requires Sorted(l) && i < j < |l|
    ensures Micros(l[i].time) <= Micros(l[j].time)
  {
  }

  /** Everything in front of the slot is due by then, everything behind later. */
  lemma SlotSides(l: seq<Timer>, deadline: nat, i: nat)
    requires Sorted(l) && i < |l|
    ensures if i < Slot(l, deadline) then Micros(l[i].time) <= deadline else Micros(l[i].time) > deadline
  {
    if i > Slot(l, deadline) {
      SortedPair(l, Slot(l, deadline), i);
    }
  }

  /** The links of `l` with the timer at `k` passed by. */
  ghost predicate Bypassed(head: Timer?, l: seq<Timer>, k: nat)
    reads l`next, l`prev
  {
    && head == At(l, if k == 0 then 1 else 0)
    && (forall i :: 0 <= i < |l| && i != k ==> l[i].next == At(l, if i == k - 1 then k + 1 else i + 1))
    && (forall i :: 0 <= i < |l| && i != k ==> l[i].prev == At(l, if i == k + 1 then k - 1 else i - 1))
  }

  lemma AtRemoved(l: seq<Timer>, k: nat, i: int)
    requires k < |l| && i >= -1
    ensures At(Removed(l, k), i) == At(l, if i < k then i else i + 1)
  {
  }

  lemma BypassedLinks(head: Timer?, l: seq<Timer>, k: nat)
    requires k < |l| && Bypassed(head, l, k)
    ensures Linked(head, Removed(l, k))
  {
    hide At, Removed;
    var m := Removed(l, k);
    RemovedAt(l, k);
    AtRemoved(l, k, 0);
    forall i | 0 <= i < |m| ensures m[i].next == At(m, i + 1) && m[i].prev == At(m, i - 1) {
      AtRemoved(l, k, i + 1);
      AtRemoved(l, k, i - 1);
      var j := if i < k then i else i + 1;
      assert m[i] == l[j];
      assert l[j].next == At(l, if j == k - 1 then k + 1 else j + 1);
      assert l[j].prev == At(l, if j == k + 1 then k - 1 else j - 1);
    }
  }

  lemma SortedRemove(l: seq<Timer>, k: nat)
    requires Distinct(l) && Sorted(l) && k < |l|
    ensures Sorted(Removed(l, k))
  {
    RemovedAt(l, k);
  }

  // ----- any sequence of operations

  /** What a caller may ask for; a timer is named by its place on the active list. */
  datatype Op = Make(proc: Proc, usecs: Interval, periodic: bool) | ResetAt(k: nat) | CancelAt(k: nat) | CleanUp | DestroyAll

  ghost function Members(l: seq<Timer>): set<Timer> {
    set t | t in l
  }

  /** Every timer ever made is active, or spare, or has been freed, and only one of these. */
  ghost predicate Kept(s: Scheduler, made: set<Timer>, freed: set<Timer>)
    reads s, s.active, s.spare
  {
    s.Valid() && freed <= made && made - freed == Members(s.active) + Members(s.spare) && Members(s.active) !! Members(s.spare)
  }

  /** The timer at a place, by walking the list. */
  method Nth(s: Scheduler, k: nat) returns (t: Timer?)
    requires s.Valid()
    ensures t == At(s.active, k)
  {
    hide Sorted, Distinct, Stacked;
    t := s.timers;
    var i: nat := 0;
    while t != null && i < k
      invariant i <= k && t == At(s.active, i)
    {
      t := t.next;
      i := i + 1;
    }
  }

  method Operate(s: Scheduler, op: Op, now: Time, ghost made: set<Timer>, ghost freed: set<Timer>)
    returns (ghost made': set<Timer>, ghost freed': set<Timer>)
    requires Kept(s, made, freed) && Normal(now)
    modifies s, s.active, s.spare
    ensures Kept(s, made', freed') && made <= made' && freed <= freed'
    ensures forall x :: x in made' ==> x in made || fresh(x)
    ensures op.CleanUp? ==> s.spare == []
    ensures op.DestroyAll? ==> freed' == made'
  {
    hide Linked, Sorted, Distinct, Stacked, Inserted, Slot, Wrapped, Moved, Removed;
    made', freed' := made, freed;
    match op {
      case Make(proc, usecs, periodic) =>
        ghost var spare := s.spare;
        var t := s.Create(now, proc, usecs, periodic);
        if spare == [] {
          made' := made + {t};
        }
        assert forall x :: x in spare && x != t ==> x in s.spare;
        assert forall x :: x in s.spare ==> x in spare;
      case ResetAt(k) =>
        var t := Nth(s, k);
        if t != null {
          s.Reset(now, k, t);
        }
      case CancelAt(k) =>
        var t := Nth(s, k);
        if t != null {
          RemovedAt(s.active, k);
          s.Cancel(k, t);
        }
      case CleanUp =>
        freed' := freed + Members(s.spare);
        SpareAside(s);
        s.Cleanup();
      case DestroyAll =>
        s.Destroy();
        freed' := made;
    }
  }

  lemma SpareAside(s: Scheduler)
    requires s.Valid()
    ensures forall x :: x in s.active ==> x !in s.spare
  {
  }

  /** A new scheduler taken through any operations loses no timer, and destroyed at the end it leaves none. */
  method Drive(ops: seq<Op>, times: seq<Time>) returns (s: Scheduler, ghost made: set<Timer>, ghost freed: set<Timer>)
    requires |times| == |ops| && forall now :: now in times ==> Normal(now)
    ensures fresh(s) && Kept(s, made, freed)
    ensures ops != [] && ops[|ops| - 1].DestroyAll? ==> s.active == s.spare == [] && freed == made
  {
    hide Scheduler.Valid;
    s := new Scheduler();
    made, freed := {}, {};
    for i := 0 to |ops|
      invariant fresh(s) && Kept(s, made, freed) && forall x :: x in made ==> fresh(x)
      invariant i > 0 && ops[i - 1].DestroyAll? ==> freed == made
    {
      assert times[i] in times;
      OnlyMade(s, made, freed);
      made, freed := Operate(s, ops[i], times[i], made, freed);
    }
    if freed == made {
      NoMembers(s.active);
      NoMembers(s.spare);
    }
  }

  lemma OnlyMade(s: Scheduler, made: set<Timer>, freed: set<Timer>)
    requires Kept(s, made, freed)
    ensures forall j :: 0 <= j < |s.active| ==> s.active[j] in made
    ensures forall j :: 0 <= j < |s.spare| ==> s.spare[j] in made
  {
    forall j | 0 <= j < |s.active| ensures s.active[j] in made {
      assert s.active[j] in Members(s.active);
    }
    forall j | 0 <= j < |s.spare| ensures s.spare[j] in made {
      assert s.spare[j] in Members(s.spare);
    }
  }

  lemma NoMembers(l: seq<Timer>)
    ensures Members(l) == {} <==> l == []
  {
    if l != [] {
      assert l[0] in Members(l);
    }
  }
}
