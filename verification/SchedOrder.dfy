/**
 The order within a queue: at which end a process joins it, that nobody else changes places,
 and so whose turn comes before whose.
 */
module SchedOrder {
  import opened Seqs
  import opened Links
  import opened SchedSpec
  import opened SchedInv
  import opened SchedRuns

  ghost predicate Before(q: seq<nat>, x: nat, y: nat) {
    exists a, b :: 0 <= a < b < |q| && q[a] == x && q[b] == y
  }

  lemma BeforeIs(q: seq<nat>, x: nat, y: nat, a: nat, b: nat)
    requires a < b < |q| && q[a] == x && q[b] == y
    ensures Before(q, x, y)
  {
  }

  lemma JoinOrder(q: seq<nat>, i: nat, x: nat)
    requires x in q
    ensures Before([i] + q, i, x) && Before(q + [i], x, i)
  {
    var k := MemberAt(q, x);
    BeforeIs([i] + q, i, x, 0, k + 1);
    BeforeIs(q + [i], x, i, k, |q|);
  }

  lemma InsertOrder(q: seq<nat>, i: nat, x: nat, y: nat)
    requires Before(q, x, y)
    ensures Before([i] + q, x, y) && Before(q + [i], x, y)
  {
    var a, b :| 0 <= a < b < |q| && q[a] == x && q[b] == y;
    BeforeIs([i] + q, x, y, a + 1, b + 1);
    BeforeIs(q + [i], x, y, a, b);
  }

  lemma RemoveAtOrder(q: seq<nat>, k: nat, a: nat, b: nat)
    requires k < |q| && a < b < |q| && a != k && b != k
    ensures Before(RemoveAt(q, k), q[a], q[b])
  {
    var r, c, d := RemoveAt(q, k), if a < k then a else a - 1, if b < k then b else b - 1;
    assert r[c] == q[a] && r[d] == q[b];
    BeforeIs(r, q[a], q[b], c, d);
  }

  lemma RemoveOrder(q: seq<nat>, i: nat, x: nat, y: nat)
    requires Before(q, x, y) && i != x && i != y
    ensures Before(Remove(q, i), x, y)
  {
    var a, b :| 0 <= a < b < |q| && q[a] == x && q[b] == y;
    var k := Find(q, i);
    if k < |q| {
      RemoveAtOrder(q, k, a, b);
    }
  }

  // ------------------------------------------------------------------------ enqueue

  // Which end of which queue slot i joins between s and r.
  ghost predicate Joins(s: State, r: State, i: nat)
    requires Shape(s) && Shape(r) && i < |s.procs| && |r.procs| == |s.procs|
  {
    var p, q := s.procs[i], r.procs[i].prio;
    && r.procs[i].Runnable() && r.procs[i].ticks == (if p.ticks > 0 then p.ticks else p.quantum)
    && q == (if p.deadline > 0 then 7 else if p.ticks > 0 || p.prio == 15 then p.prio else p.prio + 1)
    && r.rdy[q] == (if p.ticks > 0 then [i] + s.rdy[q] else s.rdy[q] + [i])
    && (forall k :: 0 <= k < NR_QUEUES && k != q ==> r.rdy[k] == s.rdy[k] || r.rdy[k] == Remove(s.rdy[k], s.cur))
    && (forall k :: 0 <= k < |s.procs| && k != i && k != s.cur ==> r.procs[k] == s.procs[k])
  }

  /** enqueue: a process with time left joins its queue in front, one whose quantum is used
      up joins the next lower one at the end with a new quantum, unless a deadline puts it on
      queue 7; of the others only the current process can lose its place. */
  lemma EnqueueJoins(s: State, i: nat)
    requires Shape(s) && i < |s.procs| && s.procs[i].Runnable()
    ensures |Enqueue(s, i).procs| == |s.procs| && Joins(s, Enqueue(s, i), i)
  {
    var t, r := Queued(s, i), Enqueue(s, i);
    assert Joins(s, t, i);
    if r != t {
      var c := s.cur;
      assert c != i && t.procs[c].prio > t.procs[i].prio;
      assert r.rdy == t.rdy || r.rdy == t.rdy[t.procs[c].prio := Remove(t.rdy[t.procs[c].prio], c)];
    }
  }

  /** The same by who comes before whom. */
  lemma EnqueueOrder(s: State, i: nat, x: nat)
    requires Shape(s) && QueuesBut(s, i) && i < |s.procs| && s.procs[i].Runnable()
    requires x in s.rdy[Enqueue(s, i).procs[i].prio]
    ensures var r := Enqueue(s, i);
      var q := r.rdy[r.procs[i].prio];
      if s.procs[i].ticks > 0 then Before(q, i, x) else Before(q, x, i)
  {
    EnqueueJoins(s, i);
    JoinOrder(s.rdy[Enqueue(s, i).procs[i].prio], i, x);
  }

  /** A preempted process goes back to the head of the queue it ran from. */
  lemma PreemptedGoesFirst(s: State)
    requires Inv(s) && s.procs[s.cur].rts == {Preempted}
    ensures var r, q := PutBack(s), s.procs[s.cur].prio;
      && r.rdy == s.rdy[q := [s.cur] + s.rdy[q]]
      && r.procs == s.procs[s.cur := s.procs[s.cur].(rts := {})]
  {
    assert s.procs[s.cur].rts - {Preempted} == {};
  }

  predicate OutOfQuantum(p: Proc) {
    NoQuantum in p.rts && p.rts <= {NoQuantum, Preempted} && p.ticks <= 0
  }

  /** A process whose quantum is used up goes to the end of the queue it joins. */
  lemma OutOfQuantumGoesLast(s: State)
    requires Inv(s) && OutOfQuantum(s.procs[s.cur])
    ensures var r, p := PutBack(s), s.procs[s.cur];
      var q := r.procs[s.cur].prio;
      && r.procs[s.cur].Runnable() && r.procs[s.cur].ticks == p.quantum && r.rdy[q] == s.rdy[q] + [s.cur]
      && q == (if p.deadline > 0 then 7 else if p.prio == 15 then 15 else p.prio + 1)
      && (forall k :: 0 <= k < |s.procs| && k != s.cur ==> r.procs[k] == s.procs[k])
  {
    var c := s.cur;
    NotQueued(s, c);
    Unflagged(s, c, s.procs[c].(rts := {}));
    QueuedAgain(s);
    EnqueueJoins(SetProc(s, c, s.procs[c].(rts := {})), c);
  }

  lemma QueuedAgain(s: State)
    requires Shape(s) && OutOfQuantum(s.procs[s.cur])
    ensures PutBack(s) == Enqueue(SetProc(s, s.cur, s.procs[s.cur].(rts := {})), s.cur)
  {
    var c := s.cur;
    assert s.procs[c].rts - {Preempted} == {NoQuantum} && {NoQuantum} - {NoQuantum} == {};
    assert s.procs[c].rts - {NoQuantum} == {} || Preempted in s.procs[c].rts;
  }

  // ----------------------------------------------------------------------- one step

  // x and y keep their order in queue q as far as both stay there.
  ghost predicate Ordered(s: State, r: State, q: nat, x: nat, y: nat) {
    && q < |s.rdy| && q < |r.rdy|
    && (Before(s.rdy[q], x, y) && x in r.rdy[q] && y in r.rdy[q] ==> Before(r.rdy[q], x, y))
  }

  // ... and neither of them is taken off it.
  ghost predicate Kept(s: State, r: State, q: nat, x: nat, y: nat) {
    q < |s.rdy| && q < |r.rdy| && (Before(s.rdy[q], x, y) ==> Before(r.rdy[q], x, y))
  }

  lemma RtsSetOrder(s: State, i: nat, f: set<Flag>, q: nat, x: nat, y: nat)
    requires Shape(s) && i < |s.procs| && q < NR_QUEUES && i != x && i != y
    ensures Kept(s, RtsSet(s, i, f), q, x, y)
  {
    if Before(s.rdy[q], x, y) {
      RemoveOrder(s.rdy[q], i, x, y);
    }
  }

  lemma JoinKeeps(s: State, i: nat, q: nat, x: nat, y: nat)
    requires Shape(s) && i < |s.procs| && q < NR_QUEUES
    ensures Kept(s, Queued(s, i), q, x, y) && Kept(s, EnqueueHead(s, i), q, x, y)
  {
    if Before(s.rdy[q], x, y) {
      InsertOrder(s.rdy[q], i, x, y);
    }
  }

  lemma EnqueueKeepsOrder(s: State, i: nat, q: nat, x: nat, y: nat)
    requires Shape(s) && i < |s.procs| && q < NR_QUEUES && s.cur != x && s.cur != y
    ensures Kept(s, Enqueue(s, i), q, x, y)
  {
    JoinKeeps(s, i, q, x, y);
    RtsSetOrder(Queued(s, i), s.cur, {Preempted}, q, x, y);
  }

  lemma RtsUnsetOrder(s: State, i: nat, f: set<Flag>, q: nat, x: nat, y: nat)
    requires Shape(s) && i < |s.procs| && q < NR_QUEUES && s.cur != x && s.cur != y
    ensures Kept(s, RtsUnset(s, i, f), q, x, y)
  {
    EnqueueKeepsOrder(SetProc(s, i, s.procs[i].(rts := s.procs[i].rts - f)), i, q, x, y);
  }

  lemma PutBackOrder(s: State, q: nat, x: nat, y: nat)
    requires Shape(s) && q < NR_QUEUES && s.cur != x && s.cur != y
    ensures Kept(s, PutBack(s), q, x, y)
  {
    var c := s.cur;
    var p := s.procs[c].(rts := s.procs[c].rts - {Preempted});
    JoinKeeps(SetProc(s, c, p), c, q, x, y);
    RtsUnsetOrder(s, c, {NoQuantum}, q, x, y);
    RtsUnsetOrder(SetProc(s, c, p), c, {NoQuantum}, q, x, y);
  }

  lemma TickOrder(s: State, q: nat, x: nat, y: nat)
    requires Shape(s) && q < NR_QUEUES && s.cur != x && s.cur != y
    ensures Kept(s, Tick(s), q, x, y)
  {
    var s1 := if s.procs[s.cur].preemptible then Charge(s, s.cur) else s;
    var s2 := if !s.procs[s.cur].billable then Charge(s1, s.bill) else s1;
    RtsSetOrder(s2, s.cur, {NoQuantum}, q, x, y);
  }

  lemma LockedOrder(s: State, i: nat, p: Proc, q: nat, x: nat, y: nat)
    requires Shape(s) && i < |s.procs| && q < NR_QUEUES && i != x && i != y && s.cur != x && s.cur != y
    requires 0 <= p.prio < NR_QUEUES && 0 <= p.maxPrio
    ensures Kept(s, RtsUnset(SetProc(RtsSet(s, i, {SysLock}), i, p), i, {SysLock}), q, x, y)
  {
    RtsSetOrder(s, i, {SysLock}, q, x, y);
    RtsUnsetOrder(SetProc(RtsSet(s, i, {SysLock}), i, p), i, {SysLock}, q, x, y);
  }

  // balance_queues leaves a process with its best priority where it is.
  predicate AtBest(p: Proc) {
    p.prio <= p.maxPrio
  }

  lemma RaiseOrder(s: State, i: nat, q: nat, x: nat, y: nat)
    requires Shape(s) && i < |s.procs| && q < NR_QUEUES && s.cur != x && s.cur != y && i != x && i != y
    requires s.procs[i].prio > 0
    ensures Kept(s, Enqueue(SetProc(Dequeue(s, i), i, s.procs[i].(prio := s.procs[i].prio - 1)), i), q, x, y)
  {
    if Before(s.rdy[q], x, y) {
      RemoveOrder(s.rdy[q], i, x, y);
    }
    EnqueueKeepsOrder(SetProc(Dequeue(s, i), i, s.procs[i].(prio := s.procs[i].prio - 1)), i, q, x, y);
  }

  lemma BalanceOneOrder(s: State, i: nat, q: nat, x: nat, y: nat)
    requires Shape(s) && i < |s.procs| && q < NR_QUEUES && s.cur != x && s.cur != y
    requires x < |s.procs| && y < |s.procs| && AtBest(s.procs[x]) && AtBest(s.procs[y])
    ensures Kept(s, BalanceOne(s, i), q, x, y)
  {
    var p := s.procs[i];
    if p.rts != {SlotFree} && p.prio > p.maxPrio && p.Runnable() {
      RaiseOrder(s, i, q, x, y);
    }
  }

  lemma BalanceOneLeaves(s: State, i: nat, x: nat)
    requires Shape(s) && i < |s.procs| && s.cur != x && x < |s.procs| && AtBest(s.procs[x])
    ensures BalanceOne(s, i).cur == s.cur && AtBest(BalanceOne(s, i).procs[x])
  {
  }

  lemma {:induction false} BalanceOrder(s: State, i: nat, q: nat, x: nat, y: nat)
    requires Shape(s) && i <= |s.procs| && q < NR_QUEUES && s.cur != x && s.cur != y
    requires x < |s.procs| && y < |s.procs| && AtBest(s.procs[x]) && AtBest(s.procs[y])
    ensures Kept(s, Balance(s, i), q, x, y)
    decreases |s.procs| - i
  {
    if i < |s.procs| {
      BalanceOneOrder(s, i, q, x, y);
      BalanceOneLeaves(s, i, x);
      BalanceOneLeaves(s, i, y);
      BalanceOrder(BalanceOne(s, i), i + 1, q, x, y);
    }
  }

  // The step takes slot i off its queue and puts it on one again.
  ghost predicate Moves(s: State, ev: Event, i: nat)
    requires Inv(s) && i < |s.procs|
  {
    match ev
    case Rebalance => s.procs[i].prio > s.procs[i].maxPrio
    case SetNice(k, _) => k == i
    case SetDeadline(k, _) => k == i
    case _ => false
  }

  lemma MemberReady(s: State, q: nat, x: nat)
    requires Shape(s) && Queues(s) && q < NR_QUEUES && x in s.rdy[q]
    ensures x < |s.procs| && s.procs[x].Runnable() && s.procs[x].prio == q
  {
    assert QueueAt(s, q);
  }

  lemma MarkedLeaves(s: State, i: nat, f: set<Flag>, q: nat)
    requires Shape(s) && Queues(s) && i < |s.procs| && f != {} && q < NR_QUEUES
    ensures i !in RtsSet(s, i, f).rdy[q]
  {
    RtsSetKeeps(s, i, f);
    assert QueueAt(RtsSet(s, i, f), q);
  }

  /** A step changes the order of two waiting processes only by moving one of them. */
  lemma StepOrder(s: State, policy: Policy, ev: Event, q: nat, x: nat, y: nat)
    requires Inv(s) && Enabled(s, ev) && q < NR_QUEUES && x in s.rdy[q] && y in s.rdy[q]
    requires x < |s.procs| && y < |s.procs| && s.cur != x && s.cur != y && !Moves(s, ev, x) && !Moves(s, ev, y)
    ensures Ordered(s, Apply(s, policy, ev), q, x, y)
  {
    MemberReady(s, q, x);
    MemberReady(s, q, y);
    match ev
    case Block(i, f) =>
      if i == x || i == y {
        MarkedLeaves(s, i, f, q);
      } else {
        RtsSetOrder(s, i, f, q, x, y);
      }
    case Unblock(i, f) => RtsUnsetOrder(s, i, f, q, x, y);
    case ClockTick => TickOrder(s, q, x, y);
    case Switch(_) => PutBackOrder(s, q, x, y);
    case Rebalance => BalanceOrder(s, 0, q, x, y);
    case SetNice(i, k) => LockedOrder(s, i, RtsSet(s, i, {SysLock}).procs[i].(prio := k, maxPrio := k), q, x, y);
    case SetDeadline(i, d) => LockedOrder(s, i, RtsSet(s, i, {SysLock}).procs[i].(deadline := d), q, x, y);
  }

  // ------------------------------------------------------------------------ over runs

  // c waits in queue q all the time.
  ghost predicate Waits(s: State, policy: Policy, evs: seq<Event>, q: nat, c: nat)
    requires Inv(s) && Legal(s, policy, evs) && q < NR_QUEUES && c < |s.procs|
    decreases |evs|
  {
    && c in s.rdy[q] && s.cur != c
    && (evs != [] ==>
          && !Moves(s, evs[0], c)
          && (StepKeepsInv(s, policy, evs[0]); SameSlots(s, policy, evs[0]);
              Waits(Apply(s, policy, evs[0]), policy, evs[1..], q, c)))
  }

  // At some time x has been picked or has left queue q.
  ghost predicate HadTurn(s: State, policy: Policy, evs: seq<Event>, q: nat, x: nat)
    requires Inv(s) && Legal(s, policy, evs) && q < NR_QUEUES && x < |s.procs|
    decreases |evs|
  {
    || x !in s.rdy[q] || s.cur == x
    || (evs != [] && (
          || Moves(s, evs[0], x)
          || (StepKeepsInv(s, policy, evs[0]); SameSlots(s, policy, evs[0]);
              HadTurn(Apply(s, policy, evs[0]), policy, evs[1..], q, x))))
  }

  lemma {:induction false} BalanceSlots(s: State, i: nat)
    requires Shape(s) && i <= |s.procs|
    ensures |Balance(s, i).procs| == |s.procs|
    decreases |s.procs| - i
  {
    if i < |s.procs| {
      BalanceSlots(BalanceOne(s, i), i + 1);
    }
  }

  lemma UnsetSlots(s: State, i: nat, f: set<Flag>)
    requires Shape(s) && i < |s.procs|
    ensures |RtsUnset(s, i, f).procs| == |s.procs|
  {
  }

  lemma PutBackSlots(s: State)
    requires Shape(s)
    ensures |PutBack(s).procs| == |s.procs|
  {
  }

  lemma SameSlots(s: State, policy: Policy, ev: Event)
    requires Inv(s) && Enabled(s, ev)
    ensures |Apply(s, policy, ev).procs| == |s.procs|
  {
    match ev
    case Block(_, _) =>
    case Unblock(i, f) => UnsetSlots(s, i, f);
    case ClockTick =>
    case Switch(_) => PutBackSlots(s);
    case Rebalance => BalanceSlots(s, 0);
    case SetNice(i, q) =>
      var s1 := RtsSet(s, i, {SysLock});
      UnsetSlots(SetProc(s1, i, s1.procs[i].(prio := q, maxPrio := q)), i, {SysLock});
    case SetDeadline(i, d) =>
      var s1 := RtsSet(s, i, {SysLock});
      UnsetSlots(SetProc(s1, i, s1.procs[i].(deadline := d)), i, {SysLock});
  }

  lemma {:induction false} RunOrder(s: State, policy: Policy, evs: seq<Event>, q: nat, x: nat, c: nat)
    requires Inv(s) && Legal(s, policy, evs) && q < NR_QUEUES && x < |s.procs| && c < |s.procs|
    requires Before(s.rdy[q], x, c) && Waits(s, policy, evs, q, c) && !HadTurn(s, policy, evs, q, x)
    ensures var r := After(s, policy, evs); Before(r.rdy[q], x, c) && r.cur != x && r.cur != c
    decreases |evs|
  {
    if evs != [] {
      var r := Apply(s, policy, evs[0]);
      StepKeepsInv(s, policy, evs[0]);
      SameSlots(s, policy, evs[0]);
      StepOrder(s, policy, evs[0], q, x, c);
      RunOrder(r, policy, evs[1..], q, x, c);
    }
  }

  // Who is picked by the default policy has nobody before it.
  lemma PickedIsFirst(s: State, q: nat, x: nat, c: nat)
    requires Shape(s) && Queues(s) && InRange(s) && q < NR_QUEUES && Before(s.rdy[q], x, c)
    ensures Pick(s, RoundRobin, 0) != c
  {
    var k := FirstQueue(s.rdy, 0);
    if k < NR_QUEUES {
      MemberReady(s, q, c);
      MemberReady(s, k, s.rdy[k][0]);
      assert QueueAt(s, q);
    }
  }

  /** Round robin: a process whose quantum is used up is not picked again before everybody
      who was ready in the queue it joined has been picked or has left that queue. */
  lemma QuantumTurn(s: State, draw: nat, evs: seq<Event>, next: nat, x: nat)
    requires Inv(s) && OutOfQuantum(s.procs[s.cur]) && x < |s.procs| && x != s.cur
    requires var t := Apply(s, RoundRobin, Switch(draw));
      && Inv(t) && |t.procs| == |s.procs| && Legal(t, RoundRobin, evs)
      && var q := t.procs[s.cur].prio;
      && x in t.rdy[q] && Waits(t, RoundRobin, evs, q, s.cur)
      && var r := After(t, RoundRobin, evs);
      && Enabled(r, Switch(next)) && Apply(r, RoundRobin, Switch(next)).cur == s.cur
    ensures var t := Apply(s, RoundRobin, Switch(draw)); HadTurn(t, RoundRobin, evs, t.procs[s.cur].prio, x)
  {
    var c, t := s.cur, Apply(s, RoundRobin, Switch(draw));
    var q, r := t.procs[c].prio, After(t, RoundRobin, evs);
    OutOfQuantumGoesLast(s);
    JoinOrder(s.rdy[q], c, x);
    if !HadTurn(t, RoundRobin, evs, q, x) {
      RunOrder(t, RoundRobin, evs, q, x, c);
      PutBackOrder(r, q, x, c);
      PutBackKeeps(r);
      InvInRange(PutBack(r));
      PickedIsFirst(PutBack(r), q, x, c);
    }
  }

  /** Why the waiting process must not be moved: do_nice on a process that waits in queue q,
      for that same queue, puts it before all others there if and only if it has time left. */
  lemma NiceOvertakes(s: State, c: nat, x: nat, q: nat)
    requires Inv(s) && q < NR_QUEUES && c in s.rdy[q] && x in s.rdy[q] && x != c
    requires c < |s.procs| && s.procs[c].deadline <= 0
    ensures Before(Nice(s, c, q).rdy[q], c, x) <==> s.procs[c].ticks > 0
  {
    MemberReady(s, q, c);
    MemberReady(s, q, x);
    var s1 := RtsSet(s, c, {SysLock});
    var s2 := SetProc(s1, c, s.procs[c].(prio := q, maxPrio := q));
    DequeueLeaves(s, c);
    Unflagged(Dequeue(s, c), c, s.procs[c].(prio := q, maxPrio := q));
    NiceIs(s, c, q);
    EnqueueJoins(s2, c);
    assert QueueAt(s, q);
    RemoveKeeps(s.rdy[q], c);
    var r := Enqueue(s2, c).rdy[q];
    if s.procs[c].ticks > 0 {
      JoinOrder(s2.rdy[q], c, x);
    } else {
      NotFirst(s2.rdy[q], r, c, x);
    }
  }

  lemma NiceIs(s: State, c: nat, q: nat)
    requires Shape(s) && c < |s.procs| && s.procs[c].Runnable() && q < NR_QUEUES
    ensures var s1 := RtsSet(s, c, {SysLock});
      Nice(s, c, q) == Enqueue(SetProc(s1, c, s.procs[c].(prio := q, maxPrio := q)), c)
  {
    assert s.procs[c].rts + {SysLock} - {SysLock} == {};
  }

  lemma NotFirst(q: seq<nat>, r: seq<nat>, c: nat, x: nat)
    requires c !in q && (r == q + [c] || c !in r)
    ensures x != c ==> !Before(r, c, x)
  {
  }

  /** do_nice: the new limit is in force, and the process is blocked if and only if it was. */
  lemma NiceInForce(s: State, c: nat, q: nat)
    requires Shape(s) && c < |s.procs| && q < NR_QUEUES && SysLock !in s.procs[c].rts
    ensures var p, r := s.procs[c], Nice(s, c, q).procs[c];
      && r.maxPrio == q && r.rts == p.rts
      && (p.ticks > 0 && p.deadline <= 0 ==> r.prio == q)
  {
    assert s.procs[c].rts + {SysLock} - {SysLock} == s.procs[c].rts;
  }

  /** do_chdeadline: the new deadline is in force, and if it is one and the process is ready,
      it is so in queue 7. */
  lemma DeadlineInForce(s: State, c: nat, deadline: int)
    requires Shape(s) && c < |s.procs| && SysLock !in s.procs[c].rts
    ensures var p, r := s.procs[c], ChDeadline(s, c, deadline).procs[c];
      && r.deadline == deadline && r.rts == p.rts
      && (p.rts == {} && deadline > 0 ==> r.prio == 7)
  {
    assert s.procs[c].rts + {SysLock} - {SysLock} == s.procs[c].rts;
  }

  // -------------------------------------------------------------------- clock ticks

  // n clock ticks in a row.
  ghost function Ticks(s: State, n: nat): (r: State)
    requires Shape(s)
    ensures Shape(r)
    decreases n
  {
    if n == 0 then s else Ticks(Tick(s), n - 1)
  }

  /** A quantum is what it says: a process that starts with n ticks, and pays for itself,
      runs for n clock ticks and is stopped by the n-th and by none before. */
  lemma {:induction false} QuantumLasts(s: State, n: nat, k: nat)
    requires Shape(s) && n < 128 && k <= n
    requires var p := s.procs[s.cur]; p.rts == {} && p.preemptible && p.billable && p.ticks == n > 0
    ensures var r := Ticks(s, k);
      && r.cur == s.cur && r.procs[s.cur].ticks == n - k
      && r.procs[s.cur].rts == (if k == n then {NoQuantum} else {})
    decreases k
  {
    if k > 0 {
      var t := Tick(s);
      OneTick(s);
      if n > 1 {
        QuantumLasts(t, n - 1, k - 1);
      }
    }
  }

  lemma OneTick(s: State)
    requires Shape(s)
    requires var p := s.procs[s.cur]; p.rts == {} && p.preemptible && p.billable && 0 < p.ticks < 128
    ensures var p, r := s.procs[s.cur], Tick(s);
      && r.cur == s.cur
      && r.procs == s.procs[s.cur := p.(ticks := p.ticks - 1, rts := if p.ticks == 1 then {NoQuantum} else {})]
  {
    var p := s.procs[s.cur];
    assert Char(p.ticks - 1) == p.ticks - 1;
    assert p.rts + {NoQuantum} == {NoQuantum};
  }

  // How many ticks of slot i the clock takes at once.
  function Due(s: State, i: int): (n: nat)
    requires Shape(s) && 0 <= i < |s.procs|
  {
    (if i == s.cur && s.procs[i].preemptible then 1 else 0) + (if i == s.bill && !s.procs[s.cur].billable then 1 else 0)
  }

  // What a tick makes of slot i.
  ghost predicate TickedAt(s: State, r: State, i: int)
    requires Shape(s) && 0 <= i < |s.procs| && |r.procs| == |s.procs|
  {
    var p, left := s.procs[i], s.procs[i].ticks - Due(s, i);
    r.procs[i] == p.(ticks := left,
                     rts := if i == s.cur && p.rts == {} && p.preemptible && left <= 0 then {NoQuantum} else p.rts)
  }

  lemma CharIs(n: int)
    requires -128 <= n < 128
    ensures Char(n) == n
  {
  }

  /** A clock tick is charged to the current process, if it can be preempted, and to whoever
      pays when it is not billable, and to nobody else; the current process is stopped if and
      only if it runs, can be preempted and has no time left. */
  lemma TickExact(s: State)
    requires Shape(s) && forall i :: 0 <= i < |s.procs| ==> -126 <= s.procs[i].ticks < 128
    ensures var r := Tick(s);
      && |r.procs| == |s.procs| && r.cur == s.cur && r.bill == s.bill
      && forall i :: 0 <= i < |s.procs| ==> TickedAt(s, r, i)
  {
    var s2 := Charged(s);
    forall i | 0 <= i < |s.procs| ensures TickedAt(s, Tick(s), i) {
      ChargedAt(s, i);
      ChargedAt(s, s.cur);
      assert Tick(s) == if s2.procs[s.cur].Runnable() && s2.procs[s.cur].ticks <= 0 && s2.procs[s.cur].preemptible
        then RtsSet(s2, s.cur, {NoQuantum}) else s2;
    }
  }

  // The charges of a tick.
  ghost function Charged(s: State): (r: State)
    requires Shape(s)
    ensures Shape(r) && |r.procs| == |s.procs| && r.cur == s.cur && r.bill == s.bill
  {
    var s1 := if s.procs[s.cur].preemptible then Charge(s, s.cur) else s;
    if !s.procs[s.cur].billable then Charge(s1, s.bill) else s1
  }

  lemma ChargedAt(s: State, i: int)
    requires Shape(s) && 0 <= i < |s.procs| && -126 <= s.procs[i].ticks < 128
    ensures Charged(s).procs[i] == s.procs[i].(ticks := s.procs[i].ticks - Due(s, i))
  {
    CharIs(s.procs[i].ticks);
    CharIs(s.procs[i].ticks - 1);
    CharIs(s.procs[i].ticks - 2);
  }

  /** Who is picked pays from now on if it is billable; otherwise whoever paid goes on paying. */
  lemma SwitchBills(s: State, policy: Policy, draw: nat)
    requires Inv(s) && Enabled(s, Switch(draw))
    ensures var r := Apply(s, policy, Switch(draw)); r.bill == if r.procs[r.cur].billable then r.cur else s.bill
  {
  }

  // ---------------------------------------------------------------------- balancing

  // balance_queues n times in a row.
  ghost function Balances(s: State, n: nat): (r: State)
    requires Shape(s)
    ensures Shape(r)
    decreases n
  {
    if n == 0 then s else Balances(Balance(s, 0), n - 1)
  }

  /** A process that lost priority and is not current gets it back, one queue at a time, and
      then keeps it: after n rounds it is n queues up, or at its best. */
  lemma {:induction false} PriorityRecovers(s: State, i: nat, n: nat)
    requires Shape(s) && i < |s.procs| && i != s.cur
    requires var p := s.procs[i]; p.rts != {SlotFree} && p.maxPrio <= p.prio && p.deadline <= 0 && (p.rts == {} ==> p.ticks > 0)
    requires s.procs[i].rts == {} ==> s.procs[i].quantum > 0
    ensures var r, p := Balances(s, n), s.procs[i];
      |r.procs| == |s.procs| && r.procs[i].prio == if p.prio - n > p.maxPrio then p.prio - n else p.maxPrio
    decreases n
  {
    if n > 0 {
      BalanceIs(s);
      var r := Balance(s, 0);
      assert OthersAt(s, r, i, |s.procs|);
      PriorityRecovers(r, i, n - 1);
    }
  }
}
