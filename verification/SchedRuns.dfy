/** Runs of the scheduler: what every sequence of its steps keeps. */
module SchedRuns {
  import opened Seqs
  import opened Links
  import opened SchedSpec
  import opened SchedInv

  datatype Event =
    | Block(slot: nat, flags: set<Flag>)      // RTS_SET
    | Unblock(slot: nat, flags: set<Flag>)    // RTS_UNSET
    | ClockTick                               // ap_timer_int_handler
    | Switch(draw: nat)                       // schedcheck picks a new process
    | Rebalance                               // balance_queues
    | SetNice(slot: nat, queue: nat)          // do_nice
    | SetDeadline(slot: nat, deadline: int)   // do_chdeadline

  // Flags that only the scheduler itself sets.
  predicate Outside(f: set<Flag>) {
    f != {} && Preempted !in f && NoQuantum !in f
  }

  ghost predicate Enabled(s: State, ev: Event)
    requires Inv(s)
  {
    match ev
    case Block(i, f) => i < |s.procs| && Outside(f)
    case Unblock(i, f) => i < |s.procs| && Outside(f)
    case ClockTick => true
    case Switch(_) => !s.procs[s.cur].Runnable()
    case Rebalance => true
    case SetNice(i, q) => i < |s.procs| && q < NR_QUEUES
    case SetDeadline(i, _) => i < |s.procs|
  }

  ghost function Apply(s: State, policy: Policy, ev: Event): (r: State)
    requires Inv(s) && Enabled(s, ev)
    ensures Shape(r)
  {
    match ev
    case Block(i, f) => RtsSet(s, i, f)
    case Unblock(i, f) => RtsUnset(s, i, f)
    case ClockTick => Tick(s)
    case Switch(draw) => PutBackKeeps(s); InvInRange(PutBack(s)); PickNew(s, policy, draw)
    case Rebalance => Balance(s, 0)
    case SetNice(i, q) => Nice(s, i, q)
    case SetDeadline(i, d) => ChDeadline(s, i, d)
  }

  lemma StepKeepsQueues(s: State, policy: Policy, ev: Event)
    requires Inv(s) && Enabled(s, ev)
    ensures Queues(Apply(s, policy, ev))
  {
    match ev
    case Block(i, f) => RtsSetKeeps(s, i, f);
    case Unblock(i, f) => RtsUnsetKeeps(s, i, f);
    case ClockTick => TickKeeps(s);
    case Switch(draw) =>
      PutBackKeeps(s);
      InvInRange(PutBack(s));
      SwitchKeeps(PutBack(s), Pick(PutBack(s), policy, draw));
    case Rebalance => BalanceKeeps(s, 0);
    case SetNice(i, q) =>
      LockedChangeKeeps(s, i, RtsSet(s, i, {SysLock}).procs[i].(prio := q, maxPrio := q));
    case SetDeadline(i, d) => LockedChangeKeeps(s, i, RtsSet(s, i, {SysLock}).procs[i].(deadline := d));
  }

  lemma SwitchKeeps(s: State, n: int)
    requires Shape(s) && Queues(s) && NIL <= n < |s.procs|
    ensures Shape(SwitchTo(s, n)) && Queues(SwitchTo(s, n))
  {
    var r := SwitchTo(s, n);
    forall q | 0 <= q < NR_QUEUES ensures QueueAt(r, q) {
      assert QueueAt(s, q);
    }
  }

  // -------------------------------------------------------------------- marks

  lemma EnqueueMarks(s: State, i: nat)
    requires Shape(s) && Marks(s) && i < |s.procs|
    ensures Marks(Enqueue(s, i)) && Enqueue(s, i).cur == s.cur
  {
  }

  lemma RtsUnsetMarks(s: State, i: nat, f: set<Flag>)
    requires Shape(s) && Marks(s) && i < |s.procs|
    ensures Marks(RtsUnset(s, i, f)) && RtsUnset(s, i, f).cur == s.cur
  {
    var s1 := SetProc(s, i, s.procs[i].(rts := s.procs[i].rts - f));
    EnqueueMarks(s1, i);
  }

  // After the current process is put back nobody is marked.
  lemma PutBackUnmarks(s: State)
    requires Shape(s) && Marks(s)
    ensures forall i :: 0 <= i < |s.procs| ==>
      Preempted !in PutBack(s).procs[i].rts && NoQuantum !in PutBack(s).procs[i].rts
    ensures |PutBack(s).procs| == |s.procs|
  {
  }

  lemma BalanceOneMarks(s: State, i: nat)
    requires Shape(s) && Marks(s) && i < |s.procs|
    ensures Marks(BalanceOne(s, i)) && BalanceOne(s, i).cur == s.cur
  {
    var p := s.procs[i];
    if p.rts != {SlotFree} && p.prio > p.maxPrio && p.Runnable() {
      EnqueueMarks(SetProc(Dequeue(s, i), i, p.(prio := p.prio - 1)), i);
    }
  }

  lemma {:induction false} BalanceMarks(s: State, i: nat)
    requires Shape(s) && Marks(s) && i <= |s.procs|
    ensures Marks(Balance(s, i))
    decreases |s.procs| - i
  {
    if i < |s.procs| {
      BalanceOneMarks(s, i);
      BalanceMarks(BalanceOne(s, i), i + 1);
    }
  }

  lemma TickMarks(s: State)
    requires Shape(s) && Marks(s)
    ensures Marks(Tick(s))
  {
  }

  lemma LockedChangeMarks(s: State, i: nat, p: Proc)
    requires Shape(s) && Marks(s) && i < |s.procs|
    requires p.rts == s.procs[i].rts + {SysLock} && 0 <= p.prio < NR_QUEUES && 0 <= p.maxPrio
    ensures Marks(RtsUnset(SetProc(RtsSet(s, i, {SysLock}), i, p), i, {SysLock}))
  {
    RtsUnsetMarks(SetProc(RtsSet(s, i, {SysLock}), i, p), i, {SysLock});
  }

  lemma SwitchMarks(s: State, n: int)
    requires Shape(s) && Marks(s) && NIL <= n < |s.procs|
    ensures Marks(SwitchTo(PutBack(s), n))
  {
    PutBackUnmarks(s);
  }

  lemma StepKeepsMarks(s: State, policy: Policy, ev: Event)
    requires Inv(s) && Enabled(s, ev)
    ensures Marks(Apply(s, policy, ev))
  {
    match ev
    case Block(i, f) =>
    case Unblock(i, f) => RtsUnsetMarks(s, i, f);
    case ClockTick => TickMarks(s);
    case Switch(draw) =>
      PutBackKeeps(s);
      InvInRange(PutBack(s));
      PutBackUnmarks(s);
      SwitchMarks(s, Pick(PutBack(s), policy, draw));
    case Rebalance => BalanceMarks(s, 0);
    case SetNice(i, q) => LockedChangeMarks(s, i, RtsSet(s, i, {SysLock}).procs[i].(prio := q, maxPrio := q));
    case SetDeadline(i, d) => LockedChangeMarks(s, i, RtsSet(s, i, {SysLock}).procs[i].(deadline := d));
  }

  /** Every step of the scheduler keeps the run queues exact. */
  lemma StepKeepsInv(s: State, policy: Policy, ev: Event)
    requires Inv(s) && Enabled(s, ev)
    ensures Inv(Apply(s, policy, ev))
  {
    StepKeepsQueues(s, policy, ev);
    StepKeepsMarks(s, policy, ev);
  }

  ghost predicate Legal(s: State, policy: Policy, evs: seq<Event>)
    requires Inv(s)
    decreases |evs|
  {
    evs == [] ||
    (&& Enabled(s, evs[0])
     && (StepKeepsInv(s, policy, evs[0]); Legal(Apply(s, policy, evs[0]), policy, evs[1..])))
  }

  ghost function After(s: State, policy: Policy, evs: seq<Event>): (r: State)
    requires Inv(s) && Legal(s, policy, evs)
    ensures Inv(r)
    decreases |evs|
  {
    if evs == [] then s else
      StepKeepsInv(s, policy, evs[0]);
      After(Apply(s, policy, evs[0]), policy, evs[1..])
  }

  /** Over any run a process is queued exactly when it is runnable: in the queue named
      by its priority, once, and in no other; and only the current process is preempted
      or without quantum. */
  lemma RunnableExactlyWhenQueued(s: State, policy: Policy, evs: seq<Event>, i: nat)
    requires Inv(s) && Legal(s, policy, evs)
    ensures var r := After(s, policy, evs);
      i < |r.procs| ==>
        && (forall q :: 0 <= q < NR_QUEUES ==> (i in r.rdy[q] <==> r.procs[i].rts == {} && r.procs[i].prio == q))
        && (forall q, a, b :: 0 <= q < NR_QUEUES && 0 <= a < b < |r.rdy[q]| ==> r.rdy[q][a] != r.rdy[q][b])
        && (Preempted in r.procs[i].rts || NoQuantum in r.procs[i].rts ==> i == r.cur)
  {
    var r := After(s, policy, evs);
    if i < |r.procs| {
      forall q | 0 <= q < NR_QUEUES
        ensures i in r.rdy[q] <==> r.procs[i].rts == {} && r.procs[i].prio == q
        ensures NoDup(r.rdy[q])
      {
        assert QueueAt(r, q);
        assert i in r.rdy[q] <==> i < |r.procs| && r.procs[i].Runnable() && r.procs[i].prio == q;
      }
    }
  }

  // ---------------------------------------------------------- strict priority

  // While the current process runs nobody in a better queue is ready.
  ghost predicate Strict(s: State)
    requires Shape(s)
  {
    s.procs[s.cur].Runnable() ==>
      forall i :: 0 <= i < |s.procs| && s.procs[i].Runnable() ==> s.procs[s.cur].prio <= s.procs[i].prio
  }

  // ... unless it cannot be preempted.
  ghost predicate Served(s: State)
    requires Shape(s)
  {
    s.procs[s.cur].preemptible ==> Strict(s)
  }

  // Nobody who is ready would be overtaken by the current process in queue q.
  ghost predicate BestQueue(s: State, q: int)
    requires Shape(s)
  {
    forall i {:trigger s.procs[i].Runnable()} :: 0 <= i < |s.procs| && i != s.cur && s.procs[i].Runnable() ==>
      q <= s.procs[i].prio
  }

  // The current process stays blocked when it loses the flags f, or finds no ready process
  // in a better queue than the one sched gives it.
  ghost predicate ReleaseOk(s: State, f: set<Flag>)
    requires Shape(s)
  {
    var p := s.procs[s.cur].(rts := s.procs[s.cur].rts - f);
    s.procs[s.cur].Runnable() || !p.Runnable() || BestQueue(s, Rescheduled(p).prio)
  }

  // Another process is not woken by losing the flags f, or takes the place of the current
  // process, or gets no better queue.
  ghost predicate WakeOk(s: State, i: nat, f: set<Flag>)
    requires Shape(s) && i < |s.procs|
  {
    var p, c := s.procs[i].(rts := s.procs[i].rts - f), s.procs[s.cur];
    s.procs[i].Runnable() || !p.Runnable() || !c.Runnable() || c.preemptible || c.prio <= Rescheduled(p).prio
  }

  ghost predicate UnsetOk(s: State, i: nat, f: set<Flag>)
    requires Shape(s) && i < |s.procs|
  {
    if i == s.cur then ReleaseOk(s, f) else WakeOk(s, i, f)
  }

  // do_nice and do_chdeadline just before RTS_SYS_LOCK is cleared.
  ghost function Locked(s: State, i: nat, p: Proc): (r: State)
    requires Shape(s) && i < |s.procs| && 0 <= p.prio < NR_QUEUES && 0 <= p.maxPrio
    ensures Shape(r)
  {
    SetProc(RtsSet(s, i, {SysLock}), i, p.(rts := s.procs[i].rts + {SysLock}))
  }

  // Steps that keep strict priority.
  ghost predicate Plain(s: State, ev: Event)
    requires Inv(s) && Enabled(s, ev)
  {
    match ev
    case Unblock(i, f) => UnsetOk(s, i, f)
    case Rebalance => RebalanceOk(s)
    case SetNice(i, q) => UnsetOk(Locked(s, i, s.procs[i].(prio := q, maxPrio := q)), i, {SysLock})
    case SetDeadline(i, d) => UnsetOk(Locked(s, i, s.procs[i].(deadline := d)), i, {SysLock})
    case _ => true
  }

  // ------------------------------------------------------------- one flag cleared

  /** Releasing the current process keeps strict priority if and only if no ready process is
      in a better queue than the one it gets. */
  lemma ReleaseStrictIff(s: State, f: set<Flag>)
    requires Shape(s) && Strict(s)
    ensures Strict(RtsUnset(s, s.cur, f)) <==> ReleaseOk(s, f)
  {
    var p := s.procs[s.cur].(rts := s.procs[s.cur].rts - f);
    var s1 := SetProc(s, s.cur, p);
    var r := RtsUnset(s, s.cur, f);
    if s.procs[s.cur].Runnable() {
      assert p == s.procs[s.cur];
      assert s1 == s;
    } else if p.Runnable() {
      assert r == Queued(s1, s.cur);
      assert forall i :: 0 <= i < |s.procs| && i != s.cur ==> r.procs[i] == s.procs[i];
    }
  }

  /** Waking another process keeps strict priority if and only if it is not really woken, or
      nobody is running, or the current process can be preempted or is in a queue at least as
      good as the one the other gets. */
  lemma WakeStrictIff(s: State, i: nat, f: set<Flag>)
    requires Shape(s) && Strict(s) && i < |s.procs| && i != s.cur
    ensures Strict(RtsUnset(s, i, f)) <==> WakeOk(s, i, f)
  {
    var p := s.procs[i].(rts := s.procs[i].rts - f);
    var s1 := SetProc(s, i, p);
    if s.procs[i].Runnable() {
      assert p == s.procs[i];
      assert s1 == s;
    } else if p.Runnable() {
      EnqueueStrictIff(s1, i);
    }
  }

  // For a slot that is ready and not yet queued; the others are in order.
  lemma EnqueueStrictIff(s: State, i: nat)
    requires Shape(s) && i < |s.procs| && i != s.cur && s.procs[i].Runnable()
    requires s.procs[s.cur].Runnable() ==>
      forall k :: 0 <= k < |s.procs| && k != i && s.procs[k].Runnable() ==> s.procs[s.cur].prio <= s.procs[k].prio
    ensures var c := s.procs[s.cur];
      Strict(Enqueue(s, i)) <==> !c.Runnable() || c.preemptible || c.prio <= Rescheduled(s.procs[i]).prio
  {
    var r, c := Enqueue(s, i), s.procs[s.cur];
    assert r.procs[i] == Rescheduled(s.procs[i]) && r.procs[i].Runnable();
    assert forall k :: 0 <= k < |s.procs| && k != i && k != s.cur ==> r.procs[k] == s.procs[k];
    if c.preemptible && c.prio > r.procs[i].prio {
      assert Preempted in r.procs[s.cur].rts;
    } else {
      assert r.procs[s.cur] == c;
    }
  }

  lemma UnsetStrictIff(s: State, i: nat, f: set<Flag>)
    requires Shape(s) && Strict(s) && i < |s.procs|
    ensures Strict(RtsUnset(s, i, f)) <==> UnsetOk(s, i, f)
  {
    if i == s.cur {
      ReleaseStrictIff(s, f);
    } else {
      WakeStrictIff(s, i, f);
    }
  }

  /** It can go wrong: two processes in queues 8 and 9, the worse one current and blocked. */
  lemma ReleaseBreaksStrict()
    ensures var p := Proc({}, 8, 8, 5, 5, 0, true, true);
      var c := Proc({Sending}, 9, 9, 5, 5, 0, true, true);
      var s := State([c, p], seq(NR_QUEUES, q => if q == 8 then [1] else []), 0, 1);
      Inv(s) && Strict(s) && !Served(RtsUnset(s, s.cur, {Sending}))
  {
    var p := Proc({}, 8, 8, 5, 5, 0, true, true);
    var c := Proc({Sending}, 9, 9, 5, 5, 0, true, true);
    var s := State([c, p], seq(NR_QUEUES, q => if q == 8 then [1] else []), 0, 1);
    forall q | 0 <= q < NR_QUEUES ensures QueueAt(s, q) {
      assert s.procs[0] == c && s.procs[1] == p;
    }
    ReleaseStrictIff(s, {Sending});
    assert s.procs[1].Runnable();
    assert c.rts - {Sending} == {};
  }

  /** It does go wrong: VM runs, in queue 2 and not to be preempted, and TTY in queue 1 is
      woken. */
  lemma VmIsNotPreempted()
    ensures var vm := Proc({}, 2, 2, 32, 32, 0, false, false);
      var tty := Proc({Receiving}, 1, 1, 4, 4, 0, true, false);
      var s := State([vm, tty], seq(NR_QUEUES, q => if q == 2 then [0] else []), 0, 0);
      Inv(s) && Strict(s) && !Strict(RtsUnset(s, 1, {Receiving}))
  {
    var vm := Proc({}, 2, 2, 32, 32, 0, false, false);
    var tty := Proc({Receiving}, 1, 1, 4, 4, 0, true, false);
    var s := State([vm, tty], seq(NR_QUEUES, q => if q == 2 then [0] else []), 0, 0);
    forall q | 0 <= q < NR_QUEUES ensures QueueAt(s, q) {
      assert s.procs[0] == vm && s.procs[1] == tty;
    }
    WakeStrictIff(s, 1, {Receiving});
    assert tty.rts - {Receiving} == {};
  }

  // ------------------------------------------------------------------ balancing

  // What balance_queues makes of a process that is not preempted meanwhile.
  function Balanced(p: Proc): (r: Proc)
    requires 0 <= p.prio < NR_QUEUES && 0 <= p.maxPrio
    ensures r.rts == p.rts && 0 <= r.prio < NR_QUEUES && r.preemptible == p.preemptible
  {
    if p.rts == {SlotFree} then p
    else if p.prio <= p.maxPrio then p.(ticks := p.quantum)
    else if p.Runnable() then Rescheduled(p.(prio := p.prio - 1))
    else p.(prio := p.prio - 1)
  }

  // Slot i is queued again, in a better queue than the current process has at that moment.
  ghost predicate Overtakes(s: State, i: int)
    requires Shape(s)
  {
    && 0 <= i < |s.procs| && i != s.cur && s.procs[i].Runnable() && s.procs[i].prio > s.procs[i].maxPrio
    && Balanced(s.procs[i]).prio < if i < s.cur then s.procs[s.cur].prio else Balanced(s.procs[s.cur]).prio
  }

  // The current process is preempted by one of the first k slots.
  ghost predicate Overtaken(s: State, k: int)
    requires Shape(s)
  {
    s.procs[s.cur].preemptible && exists i :: Overtakes(s, i) && i < k
  }

  // Balancing finds nobody running, or preempts the current process, or leaves it in a queue
  // at least as good as that of anybody who is ready.
  ghost predicate RebalanceOk(s: State)
    requires Shape(s)
  {
    || !s.procs[s.cur].Runnable() || Overtaken(s, |s.procs|)
    || forall i {:trigger Balanced(s.procs[i])} :: 0 <= i < |s.procs| && s.procs[i].Runnable() ==>
         Balanced(s.procs[s.cur]).prio <= Balanced(s.procs[i]).prio
  }

  // t is s after the first k slots.
  ghost predicate PartBalanced(s: State, t: State, k: int)
    requires Shape(s)
  {
    && Shape(t) && |t.procs| == |s.procs| && t.cur == s.cur
    && (forall i {:trigger OthersAt(s, t, i, k)} :: 0 <= i < |s.procs| && i != s.cur ==> OthersAt(s, t, i, k))
    && CurrentAt(s, t.procs[s.cur], k)
  }

  ghost predicate OthersAt(s: State, t: State, i: int, k: int)
    requires Shape(s) && |t.procs| == |s.procs| && 0 <= i < |s.procs|
  {
    t.procs[i] == if i < k then Balanced(s.procs[i]) else s.procs[i]
  }

  ghost predicate CurrentAt(s: State, d: Proc, k: int)
    requires Shape(s)
  {
    var c := s.procs[s.cur];
    && d.preemptible == c.preemptible && (d.Runnable() <==> c.Runnable() && !Overtaken(s, k))
    && (d.Runnable() ==> d == if s.cur < k then Balanced(c) else c)
  }

  lemma OvertakenNext(s: State, k: nat)
    requires Shape(s)
    ensures Overtaken(s, k + 1) <==> Overtaken(s, k) || (s.procs[s.cur].preemptible && Overtakes(s, k))
  {
  }

  // Slot k got its turn, and the other slots but the current one did not change.
  lemma OthersStay(s: State, t: State, r: State, k: nat, n: nat)
    requires Shape(s) && PartBalanced(s, t, k) && |r.procs| == |s.procs| && k < |s.procs| && n == k + 1
    requires forall i :: 0 <= i < |s.procs| && i != s.cur && i != k ==> r.procs[i] == t.procs[i]
    requires k != s.cur ==> r.procs[k] == Balanced(s.procs[k])
    ensures forall i {:trigger OthersAt(s, r, i, n)} :: 0 <= i < |s.procs| && i != s.cur ==> OthersAt(s, r, i, n)
  {
    forall i {:trigger OthersAt(s, r, i, n)} | 0 <= i < |s.procs| && i != s.cur ensures OthersAt(s, r, i, n) {
      assert OthersAt(s, t, i, k);
    }
  }

  // Another slot is moved up, and may preempt the current process.
  lemma RaisedOther(s: State, t: State, k: nat)
    requires Shape(s) && PartBalanced(s, t, k) && k < |s.procs| && k != s.cur
    requires s.procs[k].Runnable() && s.procs[k].prio > s.procs[k].maxPrio
    ensures var r := BalanceOne(t, k);
      && r.cur == s.cur && r.procs[k] == Balanced(s.procs[k])
      && (forall i :: 0 <= i < |s.procs| && i != s.cur && i != k ==> r.procs[i] == t.procs[i])
      && CurrentAt(s, r.procs[s.cur], k + 1)
  {
    assert OthersAt(s, t, k, k);
    OvertakenNext(s, k);
    var p := t.procs[k];
    var u := SetProc(Dequeue(t, k), k, p.(prio := p.prio - 1));
    var c := u.procs[s.cur];
    assert c == t.procs[s.cur];
    assert BalanceOne(t, k) == Enqueue(u, k);
  }

  // A slot that is not moved up, or is not ready.
  lemma KeptOther(s: State, t: State, k: nat)
    requires Shape(s) && PartBalanced(s, t, k) && k < |s.procs| && k != s.cur
    requires !(s.procs[k].Runnable() && s.procs[k].prio > s.procs[k].maxPrio)
    ensures var r := BalanceOne(t, k);
      && r.cur == s.cur && r.procs == t.procs[k := Balanced(s.procs[k])]
      && CurrentAt(s, r.procs[s.cur], k + 1)
  {
    assert OthersAt(s, t, k, k);
    OvertakenNext(s, k);
  }

  // The slot of the current process.
  lemma CurrentNext(s: State, t: State)
    requires Shape(s) && PartBalanced(s, t, s.cur)
    ensures var r := BalanceOne(t, s.cur);
      && r.cur == s.cur && (forall i :: 0 <= i < |s.procs| && i != s.cur ==> r.procs[i] == t.procs[i])
      && CurrentAt(s, r.procs[s.cur], s.cur + 1)
  {
    OvertakenNext(s, s.cur);
  }

  lemma PartBalancedNext(s: State, t: State, k: nat)
    requires Shape(s) && PartBalanced(s, t, k) && k < |s.procs|
    ensures PartBalanced(s, BalanceOne(t, k), k + 1)
  {
    if k == s.cur {
      CurrentNext(s, t);
    } else if s.procs[k].Runnable() && s.procs[k].prio > s.procs[k].maxPrio {
      RaisedOther(s, t, k);
    } else {
      KeptOther(s, t, k);
    }
    OthersStay(s, t, BalanceOne(t, k), k, k + 1);
  }

  lemma {:induction false} BalancedAll(s: State, t: State, k: nat)
    requires Shape(s) && PartBalanced(s, t, k) && k <= |s.procs|
    ensures PartBalanced(s, Balance(t, k), |s.procs|)
    decreases |s.procs| - k
  {
    if k < |s.procs| {
      PartBalancedNext(s, t, k);
      BalancedAll(s, BalanceOne(t, k), k + 1);
    }
  }

  lemma BalanceIs(s: State)
    requires Shape(s)
    ensures PartBalanced(s, Balance(s, 0), |s.procs|)
  {
    assert forall i :: 0 <= i < |s.procs| ==> OthersAt(s, s, i, 0);
    BalancedAll(s, s, 0);
  }

  /** balance_queues keeps strict priority if and only if nobody is running, or the current
      process is preempted on the way, or its new queue is at least as good as the new queue of
      anybody who is ready. */
  lemma RebalanceStrictIff(s: State)
    requires Shape(s)
    ensures Strict(Balance(s, 0)) <==> RebalanceOk(s)
  {
    var r, n := Balance(s, 0), |s.procs|;
    BalanceIs(s);
    forall i | 0 <= i < n && i != s.cur
      ensures r.procs[i] == Balanced(s.procs[i]) && r.procs[i].Runnable() == s.procs[i].Runnable()
    {
      assert OthersAt(s, r, i, n);
    }
  }

  /** For a current process that can be preempted and has no deadline it always does. */
  lemma RebalancePreemptible(s: State)
    requires Shape(s) && Strict(s) && s.procs[s.cur].preemptible && s.procs[s.cur].deadline <= 0
    ensures RebalanceOk(s)
  {
    if s.procs[s.cur].Runnable() && !Overtaken(s, |s.procs|) {
      forall i | 0 <= i < |s.procs| && s.procs[i].Runnable()
        ensures Balanced(s.procs[s.cur]).prio <= Balanced(s.procs[i]).prio
      {
        assert !Overtakes(s, i);
      }
    }
  }

  // ------------------------------------------------------------------ other steps

  lemma RtsSetStrict(s: State, i: nat, f: set<Flag>)
    requires Shape(s) && Strict(s) && i < |s.procs| && f != {}
    ensures Strict(RtsSet(s, i, f))
  {
  }

  lemma TickStrict(s: State)
    requires Shape(s) && Strict(s)
    ensures Strict(Tick(s))
  {
  }

  // The default policy picks from the best queue that is not empty.
  lemma SwitchStrict(s: State)
    requires Shape(s) && Queues(s) && InRange(s)
    ensures var r := SwitchTo(s, Pick(s, RoundRobin, 0)); Shape(r) && Strict(r)
  {
    var r := SwitchTo(s, Pick(s, RoundRobin, 0));
    var q := FirstQueue(s.rdy, 0);
    if q < NR_QUEUES {
      assert QueueAt(s, q) && s.rdy[q][0] in s.rdy[q];
    }
    forall i | 0 <= i < |s.procs| && s.procs[i].Runnable()
      ensures q < NR_QUEUES && q <= s.procs[i].prio
    {
      assert QueueAt(s, s.procs[i].prio);
      var k: nat := i;
      assert k in s.rdy[s.procs[i].prio];
    }
  }

  lemma LockedStrictIff(s: State, i: nat, p: Proc)
    requires Shape(s) && Strict(s) && i < |s.procs| && 0 <= p.prio < NR_QUEUES && 0 <= p.maxPrio
    ensures Strict(RtsUnset(Locked(s, i, p), i, {SysLock})) <==> UnsetOk(Locked(s, i, p), i, {SysLock})
  {
    RtsSetStrict(s, i, {SysLock});
    var t := Locked(s, i, p);
    assert !t.procs[i].Runnable();
    assert forall k :: 0 <= k < |s.procs| && k != i ==> t.procs[k] == s.procs[k];
    UnsetStrictIff(t, i, {SysLock});
  }

  /** A step keeps strict priority if and only if it is plain. */
  lemma StepStrictIff(s: State, ev: Event)
    requires Inv(s) && Enabled(s, ev) && Strict(s)
    ensures Strict(Apply(s, RoundRobin, ev)) <==> Plain(s, ev)
  {
    match ev
    case Block(i, f) => RtsSetStrict(s, i, f);
    case Unblock(i, f) => UnsetStrictIff(s, i, f);
    case ClockTick => TickStrict(s);
    case Switch(draw) =>
      PutBackKeeps(s);
      InvInRange(PutBack(s));
      SwitchStrict(PutBack(s));
    case Rebalance => RebalanceStrictIff(s);
    case SetNice(i, q) => LockedStrictIff(s, i, s.procs[i].(prio := q, maxPrio := q));
    case SetDeadline(i, d) => LockedStrictIff(s, i, s.procs[i].(deadline := d));
  }

  // Strict priority in terms of the queues.
  lemma StrictEmpty(s: State)
    requires Shape(s) && Queues(s) && Strict(s)
    ensures s.procs[s.cur].Runnable() ==> forall q :: 0 <= q < s.procs[s.cur].prio ==> s.rdy[q] == []
  {
    if s.procs[s.cur].Runnable() {
      forall q | 0 <= q < s.procs[s.cur].prio ensures s.rdy[q] == [] {
        assert QueueAt(s, q);
        SomeMember(s.rdy[q]);
      }
    }
  }

  // -------------------------------------------------------------------- over runs

  // Every step of a run is plain.
  ghost predicate PlainRun(s: State, evs: seq<Event>)
    requires Inv(s) && Legal(s, RoundRobin, evs)
    decreases |evs|
  {
    evs == [] ||
    (Plain(s, evs[0]) && (StepKeepsInv(s, RoundRobin, evs[0]); PlainRun(Apply(s, RoundRobin, evs[0]), evs[1..])))
  }

  // Strict priority in every state of a run.
  ghost predicate StrictThroughout(s: State, evs: seq<Event>)
    requires Inv(s) && Legal(s, RoundRobin, evs)
    decreases |evs|
  {
    Strict(s) &&
    (evs == [] || (StepKeepsInv(s, RoundRobin, evs[0]); StrictThroughout(Apply(s, RoundRobin, evs[0]), evs[1..])))
  }

  /** Strict priority over whole runs: it is served in every state if and only if every step
      is plain. */
  lemma {:induction false} StrictPriority(s: State, evs: seq<Event>)
    requires Inv(s) && Strict(s) && Legal(s, RoundRobin, evs)
    ensures StrictThroughout(s, evs) <==> PlainRun(s, evs)
    decreases |evs|
  {
    if evs != [] {
      StepKeepsInv(s, RoundRobin, evs[0]);
      StepStrictIff(s, evs[0]);
      if Plain(s, evs[0]) {
        StrictPriority(Apply(s, RoundRobin, evs[0]), evs[1..]);
      } else {
        NotStrict(Apply(s, RoundRobin, evs[0]), evs[1..]);
      }
    }
  }

  lemma NotStrict(s: State, evs: seq<Event>)
    requires Inv(s) && Legal(s, RoundRobin, evs) && !Strict(s)
    ensures !StrictThroughout(s, evs)
  {
  }

  // A step does not change the current process's own queue for the worse: it is not released,
  // given another priority or a deadline outside schedcheck, nor balanced with a deadline.
  ghost predicate Considerate(s: State, ev: Event)
    requires Inv(s) && Enabled(s, ev)
  {
    match ev
    case Unblock(i, f) => i == s.cur ==> ReleaseOk(s, f)
    case Rebalance => s.procs[s.cur].deadline > 0 ==> RebalanceOk(s)
    case SetNice(i, _) => i == s.cur ==> Plain(s, ev)
    case SetDeadline(i, _) => i == s.cur ==> Plain(s, ev)
    case _ => true
  }

  // The same process is current, and it is as preemptible as before.
  ghost predicate Stays(s: State, r: State)
    requires Shape(s) && Shape(r)
  {
    r.cur == s.cur && |r.procs| == |s.procs| && r.procs[s.cur].preemptible == s.procs[s.cur].preemptible
  }

  lemma UnsetStays(s: State, i: nat, f: set<Flag>)
    requires Shape(s) && i < |s.procs|
    ensures Stays(s, RtsUnset(s, i, f))
  {
  }

  lemma LockedStays(s: State, i: nat, p: Proc)
    requires Shape(s) && i < |s.procs| && 0 <= p.prio < NR_QUEUES && 0 <= p.maxPrio
    requires p.preemptible == s.procs[i].preemptible
    ensures Stays(s, RtsUnset(Locked(s, i, p), i, {SysLock}))
  {
    UnsetStays(Locked(s, i, p), i, {SysLock});
  }

  // Only a switch makes another process current.
  lemma SameCurrent(s: State, ev: Event)
    requires Inv(s) && Enabled(s, ev) && !ev.Switch?
    ensures Stays(s, Apply(s, RoundRobin, ev))
  {
    match ev
    case Block(i, f) =>
    case Unblock(i, f) => UnsetStays(s, i, f);
    case ClockTick =>
    case Rebalance => BalanceIs(s);
    case SetNice(i, q) => LockedStays(s, i, s.procs[i].(prio := q, maxPrio := q));
    case SetDeadline(i, d) => LockedStays(s, i, s.procs[i].(deadline := d));
  }

  lemma ConsiderateIsPlain(s: State, ev: Event)
    requires Inv(s) && Enabled(s, ev) && Strict(s) && s.procs[s.cur].preemptible && Considerate(s, ev)
    ensures Plain(s, ev)
  {
    if ev.Rebalance? && s.procs[s.cur].deadline <= 0 {
      RebalancePreemptible(s);
    }
  }

  lemma StepKeepsServed(s: State, ev: Event)
    requires Inv(s) && Enabled(s, ev) && Served(s) && Considerate(s, ev)
    ensures Served(Apply(s, RoundRobin, ev))
    ensures ev.Switch? ==> Strict(Apply(s, RoundRobin, ev))
  {
    if ev.Switch? {
      PutBackKeeps(s);
      InvInRange(PutBack(s));
      SwitchStrict(PutBack(s));
    } else {
      SameCurrent(s, ev);
      if s.procs[s.cur].preemptible {
        ConsiderateIsPlain(s, ev);
        StepStrictIff(s, ev);
      }
    }
  }

  ghost predicate ConsiderateRun(s: State, evs: seq<Event>)
    requires Inv(s) && Legal(s, RoundRobin, evs)
    decreases |evs|
  {
    evs == [] ||
    (&& Considerate(s, evs[0])
     && (StepKeepsInv(s, RoundRobin, evs[0]); ConsiderateRun(Apply(s, RoundRobin, evs[0]), evs[1..])))
  }

  /** For any processes, preemptible or not: over any run that leaves the current process's own
      queue alone, every queue better than that of a running preemptible process is empty, and
      so is every queue better than that of any process just picked. */
  lemma {:induction false} PriorityServed(s: State, evs: seq<Event>)
    requires Inv(s) && Served(s) && Legal(s, RoundRobin, evs) && ConsiderateRun(s, evs)
    ensures var r := After(s, RoundRobin, evs);
      && Served(r)
      && (r.procs[r.cur].Runnable() && (r.procs[r.cur].preemptible || (evs != [] && evs[|evs| - 1].Switch?)) ==>
            forall q :: 0 <= q < r.procs[r.cur].prio ==> r.rdy[q] == [])
    decreases |evs|
  {
    if evs == [] {
      if s.procs[s.cur].preemptible {
        StrictEmpty(s);
      }
    } else {
      var t := Apply(s, RoundRobin, evs[0]);
      StepKeepsInv(s, RoundRobin, evs[0]);
      StepKeepsServed(s, evs[0]);
      PriorityServed(t, evs[1..]);
      if evs[1..] == [] && evs[0].Switch? {
        StrictEmpty(t);
      }
    }
  }
}
