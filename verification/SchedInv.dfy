/**
 The run queues over any run: a process is on exactly one queue, once, the one named by
 its priority, if and only if it is runnable; only the current process is marked as
 preempted or out of quantum; and with the default policy the current process is never
 kept waiting behind it a ready process of a better queue.
 */
module SchedInv {
  import opened Seqs
  import opened SchedSpec

  ghost predicate QueueAt(s: State, q: int)
    requires Shape(s) && 0 <= q < NR_QUEUES
  {
    && NoDup(s.rdy[q])
    && (forall i: nat :: i in s.rdy[q] <==> i < |s.procs| && s.procs[i].Runnable() && s.procs[i].prio == q)
  }

  // Runnable exactly when queued, in one place.
  ghost predicate Queues(s: State)
    requires Shape(s)
  {
    forall q :: 0 <= q < NR_QUEUES ==> QueueAt(s, q)
  }

  // Only the current process is between running and being queued again.
  ghost predicate Marks(s: State)
    requires Shape(s)
  {
    forall i :: 0 <= i < |s.procs| && (Preempted in s.procs[i].rts || NoQuantum in s.procs[i].rts) ==> i == s.cur
  }

  ghost predicate Inv(s: State) {
    Shape(s) && Queues(s) && Marks(s)
  }

  lemma InvInRange(s: State)
    requires Shape(s) && Queues(s)
    ensures InRange(s)
  {
    forall q, k | 0 <= q < NR_QUEUES && 0 <= k < |s.rdy[q]| ensures s.rdy[q][k] < |s.procs| {
      assert QueueAt(s, q) && s.rdy[q][k] in s.rdy[q];
    }
  }

  // s with slot i taken off its queue: the other slots are queued when runnable.
  ghost predicate QueuesBut(s: State, i: int)
    requires Shape(s)
  {
    forall q :: 0 <= q < NR_QUEUES ==>
      && NoDup(s.rdy[q])
      && (forall k: nat :: k in s.rdy[q] <==>
            k < |s.procs| && k != i && s.procs[k].Runnable() && s.procs[k].prio == q)
  }

  lemma DequeueLeaves(s: State, i: nat)
    requires Shape(s) && Queues(s) && i < |s.procs|
    ensures QueuesBut(Dequeue(s, i), i)
  {
    var r := Dequeue(s, i);
    forall q | 0 <= q < NR_QUEUES
      ensures NoDup(r.rdy[q]) && (forall k: nat :: k in r.rdy[q] <==>
        k < |r.procs| && k != i && r.procs[k].Runnable() && r.procs[k].prio == q)
    {
      assert QueueAt(s, q);
      RemoveKeeps(s.rdy[q], i);
    }
  }

  lemma NotQueued(s: State, i: nat)
    requires Shape(s) && Queues(s) && i < |s.procs| && !s.procs[i].Runnable()
    ensures QueuesBut(s, i)
  {
    forall q | 0 <= q < NR_QUEUES
      ensures NoDup(s.rdy[q]) && (forall k: nat :: k in s.rdy[q] <==>
        k < |s.procs| && k != i && s.procs[k].Runnable() && s.procs[k].prio == q)
    {
      assert QueueAt(s, q);
    }
  }

  // Any change to an unqueued slot that leaves it blocked.
  lemma StillBlocked(s: State, i: nat, p: Proc)
    requires Shape(s) && QueuesBut(s, i) && i < |s.procs| && !p.Runnable()
    requires 0 <= p.prio < NR_QUEUES && 0 <= p.maxPrio
    ensures var r := SetProc(s, i, p); Shape(r) && Queues(r)
  {
    var r := SetProc(s, i, p);
    forall q | 0 <= q < NR_QUEUES ensures QueueAt(r, q) {
    }
  }

  lemma RtsSetKeeps(s: State, i: nat, f: set<Flag>)
    requires Shape(s) && Queues(s) && i < |s.procs| && f != {}
    ensures Queues(RtsSet(s, i, f))
  {
    var p := s.procs[i].(rts := s.procs[i].rts + f);
    if s.procs[i].Runnable() {
      DequeueLeaves(s, i);
      StillBlocked(Dequeue(s, i), i, p);
    } else {
      NotQueued(s, i);
      StillBlocked(s, i, p);
    }
  }

  lemma InsertedAt(s: State, i: nat, p: Proc, front: bool)
    requires Shape(s) && QueuesBut(s, i) && i < |s.procs| && p.Runnable()
    requires 0 <= p.prio < NR_QUEUES && 0 <= p.maxPrio
    ensures var r := SetProc(s, i, p).(rdy := s.rdy[p.prio := Insert(s.rdy[p.prio], i, front)]);
      Shape(r) && Queues(r)
  {
    var r := SetProc(s, i, p).(rdy := s.rdy[p.prio := Insert(s.rdy[p.prio], i, front)]);
    forall q | 0 <= q < NR_QUEUES ensures QueueAt(r, q) {
      assert i !in s.rdy[q];
      AppendKeeps(s.rdy[q], i);
    }
  }

  // Putting a runnable slot that is on no queue on one, with the preemption it causes.
  lemma EnqueueKeeps(s: State, i: nat)
    requires Shape(s) && QueuesBut(s, i) && i < |s.procs| && s.procs[i].Runnable()
    ensures Queues(Enqueue(s, i))
  {
    InsertedAt(s, i, Rescheduled(s.procs[i]), s.procs[i].ticks > 0);
    RtsSetKeeps(Queued(s, i), s.cur, {Preempted});
  }

  lemma Unflagged(s: State, i: nat, p: Proc)
    requires Shape(s) && QueuesBut(s, i) && i < |s.procs|
    requires 0 <= p.prio < NR_QUEUES && 0 <= p.maxPrio
    ensures var r := SetProc(s, i, p); Shape(r) && QueuesBut(r, i)
  {
  }

  lemma RtsUnsetKeeps(s: State, i: nat, f: set<Flag>)
    requires Shape(s) && Queues(s) && i < |s.procs|
    ensures Queues(RtsUnset(s, i, f))
  {
    var p := s.procs[i].(rts := s.procs[i].rts - f);
    var s1 := SetProc(s, i, p);
    if s.procs[i].Runnable() {
      assert p == s.procs[i];
      assert s1 == s;
    } else {
      NotQueued(s, i);
      Unflagged(s, i, p);
      if p.Runnable() {
        EnqueueKeeps(s1, i);
      } else {
        StillBlocked(s, i, p);
      }
    }
  }

  lemma EnqueueHeadKeeps(s: State, i: nat)
    requires Shape(s) && QueuesBut(s, i) && i < |s.procs| && s.procs[i].Runnable()
    ensures Queues(EnqueueHead(s, i))
  {
    InsertedAt(s, i, s.procs[i], true);
    assert s.procs[i := s.procs[i]] == s.procs;
  }

  lemma PutBackKeeps(s: State)
    requires Shape(s) && Queues(s)
    ensures Queues(PutBack(s))
  {
    var c := s.cur;
    var p := s.procs[c].(rts := s.procs[c].rts - {Preempted});
    if Preempted in s.procs[c].rts {
      NotQueued(s, c);
      Unflagged(s, c, p);
      if p.Runnable() {
        EnqueueHeadKeeps(SetProc(s, c, p), c);
      } else {
        StillBlocked(s, c, p);
        RtsUnsetKeeps(SetProc(s, c, p), c, {NoQuantum});
      }
    } else {
      RtsUnsetKeeps(s, c, {NoQuantum});
    }
  }

  // Changes to a slot that leave its flags and its queue alone.
  lemma SameQueue(s: State, i: nat, p: Proc)
    requires Shape(s) && Queues(s) && i < |s.procs|
    requires p.rts == s.procs[i].rts && p.prio == s.procs[i].prio && 0 <= p.maxPrio
    ensures var r := SetProc(s, i, p); Shape(r) && Queues(r)
  {
    var r := SetProc(s, i, p);
    forall q | 0 <= q < NR_QUEUES ensures QueueAt(r, q) {
      assert QueueAt(s, q);
    }
  }

  lemma TickKeeps(s: State)
    requires Shape(s) && Queues(s)
    ensures Queues(Tick(s))
  {
    var s1 := if s.procs[s.cur].preemptible then Charge(s, s.cur) else s;
    SameQueue(s, s.cur, s1.procs[s.cur]);
    var s2 := if !s.procs[s.cur].billable then Charge(s1, s.bill) else s1;
    SameQueue(s1, s.bill, s2.procs[s.bill]);
    RtsSetKeeps(s2, s.cur, {NoQuantum});
  }

  lemma BalanceOneKeeps(s: State, i: nat)
    requires Shape(s) && Queues(s) && i < |s.procs|
    ensures Queues(BalanceOne(s, i))
  {
    var p := s.procs[i];
    if p.rts != {SlotFree} {
      if p.prio > p.maxPrio {
        var p1 := p.(prio := p.prio - 1);
        if p.Runnable() {
          DequeueLeaves(s, i);
          Unflagged(Dequeue(s, i), i, p1);
          EnqueueKeeps(SetProc(Dequeue(s, i), i, p1), i);
        } else {
          NotQueued(s, i);
          StillBlocked(s, i, p1);
        }
      } else {
        SameQueue(s, i, p.(ticks := p.quantum));
      }
    }
  }

  lemma {:induction false} BalanceKeeps(s: State, i: nat)
    requires Shape(s) && Queues(s) && i <= |s.procs|
    ensures Queues(Balance(s, i))
    decreases |s.procs| - i
  {
    if i < |s.procs| {
      BalanceOneKeeps(s, i);
      BalanceKeeps(BalanceOne(s, i), i + 1);
    }
  }

  // A change of a locked process, then the lock is released.
  lemma LockedChangeKeeps(s: State, i: nat, p: Proc)
    requires Shape(s) && Queues(s) && i < |s.procs|
    requires p.rts == s.procs[i].rts + {SysLock} && 0 <= p.prio < NR_QUEUES && 0 <= p.maxPrio
    ensures var s2 := SetProc(RtsSet(s, i, {SysLock}), i, p);
      Shape(s2) && Queues(RtsUnset(s2, i, {SysLock}))
  {
    var s1 := RtsSet(s, i, {SysLock});
    RtsSetKeeps(s, i, {SysLock});
    NotQueued(s1, i);
    StillBlocked(s1, i, p);
    RtsUnsetKeeps(SetProc(s1, i, p), i, {SysLock});
  }
}
