/**
 The scheduler as it runs: run queues threaded through the process table by p_nextready,
 with a head and a tail pointer per queue.  Every method is proved to do on the linked
 lists what SchedSpec says it does on sequences.
 */
module Scheduler {
  import opened Seqs
  import opened Links
  import opened SchedSpec
  import SchedInv
  import SchedRuns

  class RunQueues {
    var proc: seq<Proc>
    var nextready: seq<int>      // p_nextready of each slot
    var rdyHead: seq<int>        // rdy_head
    var rdyTail: seq<int>        // rdy_tail
    var procPtr: int             // proc_ptr
    var billPtr: int             // bill_ptr
    var schedType: Policy        // sched_type
    ghost var rdy: seq<seq<nat>> // what the lists hold
    ghost var orderly: bool      // priority is being served

    // An empty scheduler: every process is blocked, and none is queued.
    constructor (table: seq<Proc>, cur: nat, bill: nat, policy: Policy)
      requires IDLE < |table| && cur < |table| && bill < |table|
      requires forall i :: 0 <= i < |table| ==>
        && table[i].rts != {} && Preempted !in table[i].rts && NoQuantum !in table[i].rts
        && 0 <= table[i].prio < NR_QUEUES && 0 <= table[i].maxPrio
      ensures Valid() && proc == table && procPtr == cur && billPtr == bill && schedType == policy
      ensures orderly <==> policy == RoundRobin
    {
      proc, procPtr, billPtr, schedType := table, cur, bill, policy;
      var empty: seq<seq<nat>> := seq(NR_QUEUES, _ => []);
      orderly := policy == RoundRobin;
      nextready := seq(|table|, _ => NIL);
      rdyHead, rdyTail := seq(NR_QUEUES, _ => NIL), seq(NR_QUEUES, _ => NIL);
      rdy := empty;
      new;
      forall q | 0 <= q < NR_QUEUES ensures ListOk(nextready, rdyHead[q], rdyTail[q], rdy[q]) && SchedInv.QueueAt(Value(), q) {
      }
    }

    ghost function Value(): (s: State)
      reads this
    {
      State(proc, rdy, procPtr, billPtr)
    }

    // The lists are well formed: chained from head to tail, without repetition, and
    // disjoint.
    ghost predicate Linked()
      reads this
    {
      Shape(Value()) && |nextready| == |proc| && Family(nextready, rdyHead, rdyTail, rdy)
    }

    // The queues hold exactly the runnable processes.
    ghost predicate Exact()
      reads this
    {
      Linked() && SchedInv.Queues(Value())
    }

    // Between the steps of the kernel: only the current process is marked, and when priority
    // is served nobody in a better queue is ready while it runs, unless it cannot be
    // preempted.
    ghost predicate Valid()
      reads this
    {
      Exact() && SchedInv.Marks(Value()) && (orderly ==> schedType == RoundRobin && SchedRuns.Served(Value()))
    }

    ghost predicate OffQueues(i: nat)
      reads this
    {
      forall q :: 0 <= q < |rdy| ==> i !in rdy[q]
    }

    // The walk of dequeue: the position of i in queue q and the slot before it; x is
    // NIL when i is not there.
    method Walk(q: nat, i: nat) returns (prev: int, x: int)
      requires Linked() && q < NR_QUEUES
      ensures var k := Find(rdy[q], i);
        x == At(rdy[q], k) && prev == if k == 0 then NIL else rdy[q][k - 1]
    {
      prev, x := NIL, rdyHead[q];
      ghost var l, k := rdy[q], 0;
      assert ListOk(nextready, rdyHead[q], rdyTail[q], l);
      while x != NIL && x != i
        invariant k <= |l| && x == At(l, k) && prev == if k == 0 then NIL else l[k - 1]
        invariant forall j :: 0 <= j < k ==> l[j] != i
        decreases |l| - k
      {
        assert nextready[l[k]] == At(l, k + 1);
        prev, x := x, nextready[x];
        k := k + 1;
      }
      assert k == Find(l, i);
    }

    // Take element k out of queue q; prev is the slot before it.
    method Unchain(q: nat, i: nat, prev: int, ghost k: nat)
      requires Linked() && q < NR_QUEUES && k < |rdy[q]| && rdy[q][k] == i
      requires prev == if k == 0 then NIL else rdy[q][k - 1]
      modifies this`nextready, this`rdyHead, this`rdyTail, this`rdy
      ensures Linked() && rdy == old(rdy)[q := RemoveAt(old(rdy[q]), k)]
    {
      TakeOut(nextready, rdyHead, rdyTail, rdy, q, k);
      if prev == NIL {
        rdyHead := rdyHead[q := nextready[i]];
      } else {
        nextready := nextready[prev := nextready[i]];
      }
      if i == rdyTail[q] {
        rdyTail := rdyTail[q := prev];
      }
      rdy := rdy[q := RemoveAt(rdy[q], k)];
    }

    // dequeue: walk the list of the process's queue and take it out.
    method Dequeue(i: nat)
      requires Linked() && i < |proc|
      modifies this`nextready, this`rdyHead, this`rdyTail, this`rdy
      ensures Linked() && Value() == SchedSpec.Dequeue(old(Value()), i)
    {
      var q := proc[i].prio;
      var prev, x := Walk(q, i);
      if x == i {
        Unchain(q, i, prev, Find(rdy[q], i));
      } else {
        assert rdy[q := rdy[q]] == rdy;
      }
    }

    // RTS_SET
    method RtsSet(i: nat, f: set<Flag>)
      requires Linked() && i < |proc|
      modifies this`proc, this`nextready, this`rdyHead, this`rdyTail, this`rdy
      ensures Linked() && Value() == SchedSpec.RtsSet(old(Value()), i, f)
    {
      if proc[i].rts == {} {
        Dequeue(i);
      }
      proc := proc[i := proc[i].(rts := proc[i].rts + f)];
    }

    // sched: the new quantum and priority, the queue to use and whether to add in front.
    method Sched(i: nat) returns (queue: int, front: bool)
      requires Linked() && i < |proc|
      modifies this`proc
      ensures Linked() && proc == old(proc)[i := Rescheduled(old(proc[i]))]
      ensures queue == proc[i].prio && front == (old(proc[i].ticks) > 0)
    {
      front := proc[i].ticks > 0;
      if !front {
        proc := proc[i := proc[i].(ticks := proc[i].quantum)];
        if proc[i].prio < NR_QUEUES - 1 {
          proc := proc[i := proc[i].(prio := proc[i].prio + 1)];
        }
      }
      if proc[i].deadline > 0 {
        proc := proc[i := proc[i].(prio := EDF_QUEUE)];
      }
      queue := proc[i].prio;
    }

    // The insertion of enqueue: into an empty queue, in front, or at the end.
    method Link(i: nat, q: nat, front: bool)
      requires Linked() && i < |proc| && q < NR_QUEUES && OffQueues(i)
      modifies this`nextready, this`rdyHead, this`rdyTail, this`rdy
      ensures Linked() && rdy == old(rdy)[q := Insert(old(rdy[q]), i, front)]
    {
      assert ListOk(nextready, rdyHead[q], rdyTail[q], rdy[q]);
      if rdyHead[q] == NIL {
        PutFirst(nextready, rdyHead, rdyTail, rdy, q, i);
        rdyHead, rdyTail := rdyHead[q := i], rdyTail[q := i];
        nextready := nextready[i := NIL];
        assert [i] + rdy[q] == rdy[q] + [i];
      } else if front {
        PutFirst(nextready, rdyHead, rdyTail, rdy, q, i);
        nextready := nextready[i := rdyHead[q]];
        rdyHead := rdyHead[q := i];
      } else {
        PutLast(nextready, rdyHead, rdyTail, rdy, q, i);
        nextready := nextready[rdyTail[q] := i];
        rdyTail := rdyTail[q := i];
        nextready := nextready[i := NIL];
      }
      rdy := rdy[q := Insert(rdy[q], i, front)];
    }

    // enqueue
    method Enqueue(i: nat)
      requires Linked() && i < |proc| && OffQueues(i)
      modifies this`proc, this`nextready, this`rdyHead, this`rdyTail, this`rdy
      ensures Linked() && Value() == SchedSpec.Enqueue(old(Value()), i)
    {
      var q, front := Sched(i);
      Link(i, q, front);
      assert Value() == Queued(old(Value()), i);
      if proc[procPtr].prio > proc[i].prio && proc[procPtr].preemptible {
        RtsSet(procPtr, {Preempted});
      }
    }

    // enqueue_head
    method EnqueueHead(i: nat)
      requires Linked() && i < |proc| && OffQueues(i)
      modifies this`nextready, this`rdyHead, this`rdyTail, this`rdy
      ensures Linked() && Value() == SchedSpec.EnqueueHead(old(Value()), i)
    {
      var q := proc[i].prio;
      assert ListOk(nextready, rdyHead[q], rdyTail[q], rdy[q]);
      PutFirst(nextready, rdyHead, rdyTail, rdy, q, i);
      if rdyHead[q] == NIL {
        rdyTail := rdyTail[q := i];
        nextready := nextready[i := NIL];
      } else {
        nextready := nextready[i := rdyHead[q]];
      }
      rdyHead := rdyHead[q := i];
      rdy := rdy[q := [i] + rdy[q]];
    }

    lemma BlockedIsOff(i: nat)
      requires Exact() && i < |proc| && proc[i].rts != {}
      ensures OffQueues(i)
    {
      forall q | 0 <= q < |rdy| ensures i !in rdy[q] {
        assert SchedInv.QueueAt(Value(), q);
      }
    }

    // RTS_UNSET
    method RtsUnset(i: nat, f: set<Flag>)
      requires Exact() && i < |proc|
      modifies this`proc, this`nextready, this`rdyHead, this`rdyTail, this`rdy
      ensures Exact() && Value() == SchedSpec.RtsUnset(old(Value()), i, f)
    {
      SchedInv.RtsUnsetKeeps(Value(), i, f);
      var rts := proc[i].rts;
      if rts != {} {
        BlockedIsOff(i);
      }
      proc := proc[i := proc[i].(rts := rts - f)];
      if rts != {} && proc[i].rts == {} {
        Enqueue(i);
      }
    }

    // RTS_SET and RTS_UNSET as the rest of the kernel uses them.
    method Block(i: nat, f: set<Flag>)
      requires Valid() && i < |proc| && f != {} && f !! {Preempted, NoQuantum}
      modifies this`proc, this`nextready, this`rdyHead, this`rdyTail, this`rdy
      ensures Valid() && Value() == SchedSpec.RtsSet(old(Value()), i, f)
    {
      SchedInv.RtsSetKeeps(Value(), i, f);
      BlockServes(Value(), i, f);
      RtsSet(i, f);
    }

    method Unblock(i: nat, f: set<Flag>)
      requires Valid() && i < |proc|
      requires orderly && i == procPtr && proc[i].preemptible ==> SchedRuns.ReleaseOk(Value(), f)
      modifies this`proc, this`nextready, this`rdyHead, this`rdyTail, this`rdy
      ensures Valid() && Value() == SchedSpec.RtsUnset(old(Value()), i, f)
    {
      SchedRuns.RtsUnsetMarks(Value(), i, f);
      UnblockServes(Value(), i, f);
      RtsUnset(i, f);
    }

    // p_rts_flags &= ~f on a process that stays blocked.
    method ClearFlags(i: nat, f: set<Flag>)
      requires Valid() && i < |proc| && proc[i].rts - f != {}
      modifies this`proc
      ensures Valid() && proc == old(proc)[i := old(proc[i]).(rts := old(proc[i]).rts - f)]
    {
      var p := proc[i].(rts := proc[i].rts - f);
      SchedInv.NotQueued(Value(), i);
      SchedInv.StillBlocked(Value(), i, p);
      proc := proc[i := p];
    }

    // set_scheduler
    method SetScheduler(kind: int)
      requires Valid()
      modifies this`schedType, this`orderly
      ensures Valid() && schedType == if kind == 1 then Lottery else if kind == 2 then Edf else RoundRobin
      ensures orderly <==> old(orderly) && schedType == RoundRobin
    {
      schedType := match kind
        case 1 => Lottery
        case 2 => Edf
        case _ => RoundRobin;
      orderly := orderly && schedType == RoundRobin;
    }

    // --------------------------------------------------------------- pick_proc

    // The head of the first queue below `limit` that is not empty.
    method FirstHead(limit: nat) returns (r: int, q: nat)
      requires Linked() && limit <= NR_QUEUES
      ensures q <= limit && (forall k :: 0 <= k < q ==> rdy[k] == [])
      ensures q < limit ==> rdy[q] != [] && r == rdy[q][0]
      ensures q == limit ==> r == NIL
    {
      q := 0;
      while q < limit
        invariant q <= limit && forall k :: 0 <= k < q ==> rdy[k] == []
      {
        assert ListOk(nextready, rdyHead[q], rdyTail[q], rdy[q]);
        if rdyHead[q] != NIL {
          return rdyHead[q], q;
        }
        q := q + 1;
      }
      r := NIL;
    }

    lemma QueuedIsReady(q: nat, k: nat)
      requires Exact() && q < NR_QUEUES && k < |rdy[q]|
      ensures rdy[q][k] < |proc| && proc[rdy[q][k]].rts == {} && nextready[rdy[q][k]] == At(rdy[q], k + 1)
    {
      assert SchedInv.QueueAt(Value(), q) && rdy[q][k] in rdy[q];
      assert ListOk(nextready, rdyHead[q], rdyTail[q], rdy[q]);
    }

    // The tickets of queue q, added to those counted before.
    method CountQueue(q: nat, before: nat) returns (total: nat)
      requires Exact() && q < NR_QUEUES
      ensures total + Total(Lots(rdy, q + 1)) == before + Total(Lots(rdy, q))
    {
      total := before;
      var x := rdyHead[q];
      ghost var k := 0;
      assert ListOk(nextready, rdyHead[q], rdyTail[q], rdy[q]);
      LotsFromStep(rdy, q, 0);
      while x != NIL
        invariant k <= |rdy[q]| && x == At(rdy[q], k)
        invariant total + Total(LotsFrom(rdy, q, k)) == before + Total(Lots(rdy, q))
        decreases |rdy[q]| - k
      {
        QueuedIsReady(q, k);
        LotsFromStep(rdy, q, k);
        if proc[x].rts == {} {
          total := total + NR_QUEUES - q;
        }
        x := nextready[x];
        k := k + 1;
      }
      LotsFromStep(rdy, q, k);
    }

    method CountTickets() returns (total: nat)
      requires Exact()
      ensures total == Total(Lots(rdy, 6))
    {
      total := 0;
      for q := 6 to NR_QUEUES
        invariant total + Total(Lots(rdy, q)) == Total(Lots(rdy, 6))
      {
        total := CountQueue(q, total);
      }
    }

    // Pay off the draw with the tickets of queue q: either its winner is here or the
    // rest of the draw goes to the queues behind.
    method DrawQueue(q: nat, draw: nat) returns (r: int, left: int)
      requires Exact() && q < NR_QUEUES
      ensures left < 0 ==> r == Winner(Lots(rdy, q), draw)
      ensures left >= 0 ==> Winner(Lots(rdy, q), draw) == Winner(Lots(rdy, q + 1), left)
    {
      r, left := NIL, draw;
      var x := rdyHead[q];
      ghost var k := 0;
      assert ListOk(nextready, rdyHead[q], rdyTail[q], rdy[q]);
      LotsFromStep(rdy, q, 0);
      while x != NIL
        invariant k <= |rdy[q]| && x == At(rdy[q], k) && left >= 0
        invariant Winner(Lots(rdy, q), draw) == Winner(LotsFrom(rdy, q, k), left)
        decreases |rdy[q]| - k
      {
        QueuedIsReady(q, k);
        LotsFromStep(rdy, q, k);
        if proc[x].rts == {} {
          left := left - (NR_QUEUES - q);
          if left < 0 {
            r := x;
            return;
          }
        }
        x := nextready[x];
        k := k + 1;
      }
      LotsFromStep(rdy, q, k);
    }

    method DrawWinner(draw: nat) returns (r: int)
      requires Exact() && draw < Total(Lots(rdy, 6))
      ensures r == Winner(Lots(rdy, 6), draw)
    {
      var left: int := draw;
      var q := 6;
      while q < NR_QUEUES
        invariant 6 <= q <= NR_QUEUES && left >= 0
        invariant Winner(Lots(rdy, q), left) == Winner(Lots(rdy, 6), draw)
      {
        r, left := DrawQueue(q, left);
        if left < 0 {
          return;
        }
        q := q + 1;
      }
      r := NIL;
    }

    // The scan of queue 7 for the earliest deadline.
    method EarliestDeadline() returns (r: nat)
      requires Exact() && rdy[EDF_QUEUE] != []
      ensures forall k :: 0 <= k < |rdy[EDF_QUEUE]| ==> rdy[EDF_QUEUE][k] < |proc|
      ensures r == EdfScan(proc, rdy[EDF_QUEUE][0], rdy[EDF_QUEUE])
    {
      ghost var l, k := rdy[EDF_QUEUE], 0;
      assert ListOk(nextready, rdyHead[EDF_QUEUE], rdyTail[EDF_QUEUE], l);
      var x := rdyHead[EDF_QUEUE];
      r := x;
      forall j | 0 <= j < |l| ensures l[j] < |proc| {
        QueuedIsReady(EDF_QUEUE, j);
      }
      assert l[0..] == l;
      while x != NIL
        invariant k <= |l| && x == At(l, k) && r < |proc|
        invariant EdfScan(proc, r, l[k..]) == EdfScan(proc, l[0], l)
        decreases |l| - k
      {
        QueuedIsReady(EDF_QUEUE, k);
        assert l[k..][0] == l[k] && l[k..][1..] == l[k + 1..];
        if proc[x].deadline > 0
           && (proc[r].deadline == 0 || (proc[r].deadline > 0 && proc[x].deadline < proc[r].deadline)) {
          r := x;
        }
        x := nextready[x];
        k := k + 1;
      }
    }

    // pick_proc, without its note of who is billed.
    method PickProc(rand: nat) returns (r: int)
      requires Exact()
      ensures SchedSpec.InRange(Value()) && r == Pick(Value(), schedType, rand)
    {
      SchedInv.InvInRange(Value());
      match schedType {
        case RoundRobin =>
          var q;
          r, q := FirstHead(NR_QUEUES);
          FirstIs(q);
        case Lottery =>
          var q;
          r, q := FirstHead(6);
          FirstIs(q);
          if q == 6 {
            var total := CountTickets();
            if total > 0 {
              r := DrawWinner(rand % total);
            }
          }
        case Edf =>
          var q;
          r, q := FirstHead(NR_QUEUES);
          FirstIs(q);
          if q == EDF_QUEUE {
            r := EarliestDeadline();
          }
      }
    }

    lemma FirstIs(q: nat)
      requires Linked() && q <= NR_QUEUES && forall k :: 0 <= k < q ==> rdy[k] == []
      ensures FirstQueue(rdy, 0) >= q
      ensures q < NR_QUEUES && rdy[q] != [] ==> FirstQueue(rdy, 0) == q
    {
    }

    // ---------------------------------------------------------------- schedcheck

    // The current process gives way; the next one becomes current, or the idle task.
    method PickNew(rand: nat)
      requires Valid()
      modifies this`proc, this`nextready, this`rdyHead, this`rdyTail, this`rdy, this`procPtr, this`billPtr
      modifies this`orderly
      ensures Valid() && (orderly <==> schedType == RoundRobin) && (orderly ==> SchedRuns.Strict(Value()))
      ensures SchedSpec.InRange(SchedSpec.PutBack(old(Value())))
      ensures Value() == SchedSpec.PickNew(old(Value()), old(schedType), rand)
    {
      ghost var s0 := Value();
      PutBackCurrent();
      var n := PickProc(rand);
      ghost var s := Value();
      procPtr := if n == NIL then IDLE else n;
      if proc[procPtr].billable {
        billPtr := procPtr;
      }
      assert Value() == SwitchTo(s, n);
      SwitchValid(s, n);
      SchedRuns.SwitchMarks(s0, n);
      orderly := schedType == RoundRobin;
      if orderly {
        SchedRuns.SwitchStrict(s);
      }
    }

    lemma SwitchValid(s: State, n: int)
      requires Shape(s) && SchedInv.Queues(s) && NIL <= n < |s.procs|
      ensures Shape(SwitchTo(s, n)) && SchedInv.Queues(SwitchTo(s, n))
    {
      forall q | 0 <= q < NR_QUEUES ensures SchedInv.QueueAt(SwitchTo(s, n), q) {
        assert SchedInv.QueueAt(s, q);
      }
    }

    method PutBackCurrent()
      requires Exact()
      modifies this`proc, this`nextready, this`rdyHead, this`rdyTail, this`rdy
      ensures Exact() && Value() == SchedSpec.PutBack(old(Value()))
    {
      SchedInv.PutBackKeeps(Value());
      if Preempted in proc[procPtr].rts {
        ClearPreempted();
      }
      if NoQuantum in proc[procPtr].rts {
        RtsUnset(procPtr, {NoQuantum});
      }
    }

    // A preempted process that is runnable again goes back to the front.
    method ClearPreempted()
      requires Exact() && Preempted in proc[procPtr].rts
      modifies this`proc, this`nextready, this`rdyHead, this`rdyTail, this`rdy
      ensures Exact()
      ensures var s, c := old(Value()), procPtr;
        var p := s.procs[c].(rts := s.procs[c].rts - {Preempted});
        Value() == if p.Runnable() then SchedSpec.EnqueueHead(SetProc(s, c, p), c) else SetProc(s, c, p)
    {
      BlockedIsOff(procPtr);
      ghost var s := Value();
      var p := proc[procPtr].(rts := proc[procPtr].rts - {Preempted});
      SchedInv.NotQueued(s, procPtr);
      SchedInv.Unflagged(s, procPtr, p);
      proc := proc[procPtr := p];
      if p.rts == {} {
        SchedInv.EnqueueHeadKeeps(Value(), procPtr);
        EnqueueHead(procPtr);
      } else {
        SchedInv.StillBlocked(s, procPtr, p);
      }
    }

    // --------------------------------------------------- clock tick and balancing

    // ap_timer_int_handler
    method Tick()
      requires Valid()
      modifies this`proc, this`nextready, this`rdyHead, this`rdyTail, this`rdy
      ensures Valid() && Value() == SchedSpec.Tick(old(Value()))
    {
      TickServes(Value());
      var c := procPtr;
      if proc[c].preemptible {
        Charge(c);
      }
      if !proc[c].billable {
        Charge(billPtr);
      }
      if proc[c].rts == {} && proc[c].ticks <= 0 && proc[c].preemptible {
        RtsSet(c, {NoQuantum});
      }
    }

    // A process pays for a tick.
    method Charge(i: nat)
      requires Linked() && i < |proc|
      modifies this`proc
      ensures Linked() && Value() == SchedSpec.Charge(old(Value()), i)
    {
      proc := proc[i := proc[i].(ticks := Char(proc[i].ticks - 1))];
    }

    // balance_queues for one slot; returns the ticks it accounts for.
    method BalanceSlot(i: nat) returns (added: int)
      requires Exact() && i < |proc|
      modifies this`proc, this`nextready, this`rdyHead, this`rdyTail, this`rdy
      ensures Exact() && Value() == BalanceOne(old(Value()), i)
      ensures added == BalanceTicks(old(proc[i]))
    {
      SchedInv.BalanceOneKeeps(Value(), i);
      added := 0;
      if proc[i].rts != {SlotFree} {
        if proc[i].prio > proc[i].maxPrio {
          added := proc[i].quantum;
          RaisePriority(i);
        } else {
          added := proc[i].quantum - proc[i].ticks;
          proc := proc[i := proc[i].(ticks := proc[i].quantum)];
        }
      }
    }

    method RaisePriority(i: nat)
      requires Exact() && i < |proc| && proc[i].prio > proc[i].maxPrio && proc[i].rts != {SlotFree}
      modifies this`proc, this`nextready, this`rdyHead, this`rdyTail, this`rdy
      ensures Linked() && Value() == BalanceOne(old(Value()), i)
    {
      var ready := proc[i].rts == {};
      if ready {
        SchedInv.DequeueLeaves(Value(), i);
        Dequeue(i);
      } else {
        BlockedIsOff(i);
      }
      assert OffQueues(i);
      proc := proc[i := proc[i].(prio := proc[i].prio - 1)];
      if ready {
        Enqueue(i);
      }
    }

    // Where balance_queues is, and what it comes to.
    ghost predicate Balancing(i: nat, added: int, all: State, sum: int)
      reads this
    {
      Exact() && i <= |proc| && Balance(Value(), i) == all && added + BalanceAdded(Value(), i) == sum
    }

    method BalanceNext(i: nat, added0: int, ghost all: State, ghost sum: int) returns (added: int)
      requires i < |proc| && Balancing(i, added0, all, sum)
      modifies this`proc, this`nextready, this`rdyHead, this`rdyTail, this`rdy
      ensures Balancing(i + 1, added, all, sum) && |proc| == |old(proc)|
    {
      var a := BalanceSlot(i);
      added := added0 + a;
    }

    // balance_queues; returns the number of ticks until it is to run again.
    method BalanceQueues() returns (period: int)
      requires Valid()
      modifies this`proc, this`nextready, this`rdyHead, this`rdyTail, this`rdy, this`orderly
      ensures Valid() && Value() == Balance(old(Value()), 0)
      ensures orderly <==> old(orderly) && (proc[procPtr].preemptible ==> SchedRuns.RebalanceOk(old(Value())))
      ensures period >= 100 && (period == 100 || period == BalanceAdded(old(Value()), 0))
      ensures period >= BalanceAdded(old(Value()), 0)
    {
      ghost var s := Value();
      BalanceServes(s);
      var added := BalanceTable(Balance(s, 0), BalanceAdded(s, 0));
      orderly := orderly && (proc[procPtr].preemptible ==> SchedRuns.RebalanceOk(s));
      period := if added > 100 then added else 100;
    }

    // The loop over the process table.
    method BalanceTable(ghost all: State, ghost sum: int) returns (added: int)
      requires Balancing(0, 0, all, sum)
      modifies this`proc, this`nextready, this`rdyHead, this`rdyTail, this`rdy
      ensures Exact() && Value() == all && added == sum
    {
      added := 0;
      var i := 0;
      while i < |proc|
        invariant Balancing(i, added, all, sum)
      {
        added := BalanceNext(i, added, all, sum);
        i := i + 1;
      }
    }
  }

  lemma BalanceServes(s: State)
    requires Shape(s) && SchedInv.Marks(s)
    ensures var r := Balance(s, 0);
      && SchedInv.Marks(r) && r.cur == s.cur && |r.procs| == |s.procs|
      && r.procs[s.cur].preemptible == s.procs[s.cur].preemptible
      && ((s.procs[s.cur].preemptible ==> SchedRuns.RebalanceOk(s)) ==> SchedRuns.Served(r))
  {
    SchedRuns.BalanceMarks(s, 0);
    SchedRuns.BalanceIs(s);
    SchedRuns.RebalanceStrictIff(s);
  }

  lemma TickServes(s: State)
    requires Shape(s) && SchedInv.Queues(s) && SchedInv.Marks(s)
    ensures var r := SchedSpec.Tick(s);
      SchedInv.Queues(r) && SchedInv.Marks(r) && (SchedRuns.Served(s) ==> SchedRuns.Served(r))
  {
    SchedInv.TickKeeps(s);
    SchedRuns.TickMarks(s);
    if SchedRuns.Strict(s) {
      SchedRuns.TickStrict(s);
    }
  }

  lemma BlockServes(s: State, i: nat, f: set<Flag>)
    requires Shape(s) && SchedInv.Marks(s) && i < |s.procs| && f != {} && f !! {Preempted, NoQuantum}
    ensures var r := SchedSpec.RtsSet(s, i, f);
      SchedInv.Marks(r) && (SchedRuns.Served(s) ==> SchedRuns.Served(r))
  {
    assert Preempted !in f && NoQuantum !in f;
    if SchedRuns.Strict(s) {
      SchedRuns.RtsSetStrict(s, i, f);
    }
  }

  lemma UnblockServes(s: State, i: nat, f: set<Flag>)
    requires Shape(s) && i < |s.procs|
    ensures SchedRuns.Served(s) && (i == s.cur && s.procs[i].preemptible ==> SchedRuns.ReleaseOk(s, f)) ==>
      SchedRuns.Served(SchedSpec.RtsUnset(s, i, f))
  {
    SchedRuns.UnsetStays(s, i, f);
    if SchedRuns.Strict(s) {
      SchedRuns.UnsetStrictIff(s, i, f);
    }
  }
}
