/**
 The run queues and the scheduling policies, on values: sixteen queues of slots, the
 runtime flags and the scheduling fields of each process, and the current process.
 */
module SchedSpec {
  import opened Seqs
  import opened Links

  const NR_QUEUES := 16
  const EDF_QUEUE := 7
  const IDLE := 0

  datatype Flag =
    | SlotFree | ProcStop | Sending | Receiving | Signaled | SigPending | PStop | NoPriv
    | NoEndpoint | VmInhibit | PageFault | VmRequest | VmReqTarget | SysLock | Preempted | NoQuantum

  datatype Proc = Proc(
    rts: set<Flag>,          // p_rts_flags: runnable when empty
    prio: int,               // p_priority
    maxPrio: int,            // p_max_priority
    ticks: int,              // p_ticks_left
    quantum: int,            // p_quantum_size
    deadline: int,           // p_deadline.tmr_exp_time
    preemptible: bool,       // PREEMPTIBLE
    billable: bool)          // BILLABLE
  {
    predicate Runnable() { rts == {} }
  }

  datatype Policy = RoundRobin | Lottery | Edf

  datatype State = State(
    procs: seq<Proc>,
    rdy: seq<seq<nat>>,      // the list rdy_head[q] of each queue
    cur: int,                // proc_ptr
    bill: int)               // bill_ptr

  ghost predicate Shape(s: State) {
    && |s.rdy| == NR_QUEUES && IDLE < |s.procs|
    && 0 <= s.cur < |s.procs| && 0 <= s.bill < |s.procs|
    && (forall i :: 0 <= i < |s.procs| ==> 0 <= s.procs[i].prio < NR_QUEUES && 0 <= s.procs[i].maxPrio)
  }

  function SetProc(s: State, i: int, p: Proc): (r: State)
    requires 0 <= i < |s.procs|
  {
    s.(procs := s.procs[i := p])
  }

  // --------------------------------------------------------- sched and queues

  // sched: a process that used up its quantum gets a new one and, unless it is already
  // in the last queue, a lower priority; a process with a deadline goes to queue 7.
  function Rescheduled(p: Proc): (r: Proc)
    requires 0 <= p.prio < NR_QUEUES
    ensures 0 <= r.prio < NR_QUEUES && r.rts == p.rts && r.maxPrio == p.maxPrio
  {
    var p1 := if p.ticks > 0 then p
              else p.(ticks := p.quantum, prio := if p.prio < NR_QUEUES - 1 then p.prio + 1 else p.prio);
    if p1.deadline > 0 then p1.(prio := EDF_QUEUE) else p1
  }

  function Insert(q: seq<nat>, i: nat, front: bool): (r: seq<nat>) {
    if front then [i] + q else q + [i]
  }

  ghost function Dequeue(s: State, i: nat): (r: State)
    requires Shape(s) && i < |s.procs|
    ensures Shape(r)
  {
    var q := s.procs[i].prio;
    s.(rdy := s.rdy[q := Remove(s.rdy[q], i)])
  }

  ghost function RtsSet(s: State, i: nat, f: set<Flag>): (r: State)
    requires Shape(s) && i < |s.procs|
    ensures Shape(r)
  {
    var s1 := if s.procs[i].Runnable() then Dequeue(s, i) else s;
    SetProc(s1, i, s.procs[i].(rts := s.procs[i].rts + f))
  }

  // enqueue up to the test for preemption.
  ghost function Queued(s: State, i: nat): (r: State)
    requires Shape(s) && i < |s.procs|
    ensures Shape(r)
  {
    var p := Rescheduled(s.procs[i]);
    SetProc(s, i, p).(rdy := s.rdy[p.prio := Insert(s.rdy[p.prio], i, s.procs[i].ticks > 0)])
  }

  ghost function Enqueue(s: State, i: nat): (r: State)
    requires Shape(s) && i < |s.procs|
    ensures Shape(r)
  {
    var s1 := Queued(s, i);
    var c := s1.procs[s1.cur];
    if c.prio > s1.procs[i].prio && c.preemptible then RtsSet(s1, s1.cur, {Preempted}) else s1
  }

  ghost function EnqueueHead(s: State, i: nat): (r: State)
    requires Shape(s) && i < |s.procs|
    ensures Shape(r)
  {
    var q := s.procs[i].prio;
    s.(rdy := s.rdy[q := [i] + s.rdy[q]])
  }

  ghost function RtsUnset(s: State, i: nat, f: set<Flag>): (r: State)
    requires Shape(s) && i < |s.procs|
    ensures Shape(r)
  {
    var s1 := SetProc(s, i, s.procs[i].(rts := s.procs[i].rts - f));
    if !s.procs[i].Runnable() && s1.procs[i].Runnable() then Enqueue(s1, i) else s1
  }

  // -------------------------------------------------------------- pick_proc

  // The first non-empty queue from q on, or NR_QUEUES.
  function FirstQueue(rdy: seq<seq<nat>>, q: nat): (r: nat)
    requires q <= |rdy|
    ensures q <= r <= |rdy|
    ensures r < |rdy| ==> rdy[r] != []
    ensures forall k :: q <= k < r ==> rdy[k] == []
    decreases |rdy| - q
  {
    if q == |rdy| || rdy[q] != [] then q else FirstQueue(rdy, q + 1)
  }

  datatype Lot = Lot(slot: nat, tickets: nat)

  // The tickets of the processes in queues q and up: 16 - q for each in queue q.
  function Lots(rdy: seq<seq<nat>>, q: nat): (r: seq<Lot>)
    requires |rdy| == NR_QUEUES && q <= NR_QUEUES
    decreases NR_QUEUES - q
  {
    if q == NR_QUEUES then []
    else seq(|rdy[q]|, k requires 0 <= k < |rdy[q]| => Lot(rdy[q][k], NR_QUEUES - q)) + Lots(rdy, q + 1)
  }

  // The tickets from element k of queue q on.
  ghost function LotsFrom(rdy: seq<seq<nat>>, q: nat, k: nat): (r: seq<Lot>)
    requires |rdy| == NR_QUEUES && q < NR_QUEUES && k <= |rdy[q]|
  {
    seq(|rdy[q]| - k, j requires 0 <= j < |rdy[q]| - k => Lot(rdy[q][k + j], NR_QUEUES - q)) + Lots(rdy, q + 1)
  }

  lemma LotsFromStep(rdy: seq<seq<nat>>, q: nat, k: nat)
    requires |rdy| == NR_QUEUES && q < NR_QUEUES && k <= |rdy[q]|
    ensures LotsFrom(rdy, q, 0) == Lots(rdy, q)
    ensures if k == |rdy[q]| then LotsFrom(rdy, q, k) == Lots(rdy, q + 1)
            else LotsFrom(rdy, q, k) == [Lot(rdy[q][k], NR_QUEUES - q)] + LotsFrom(rdy, q, k + 1)
  {
    LotsFromFirst(rdy, q);
    if k < |rdy[q]| {
      LotsFromNext(rdy, q, k);
    }
  }

  lemma LotsFromFirst(rdy: seq<seq<nat>>, q: nat)
    requires |rdy| == NR_QUEUES && q < NR_QUEUES
    ensures LotsFrom(rdy, q, 0) == Lots(rdy, q)
  {
  }

  lemma LotsFromNext(rdy: seq<seq<nat>>, q: nat, k: nat)
    requires |rdy| == NR_QUEUES && q < NR_QUEUES && k < |rdy[q]|
    ensures LotsFrom(rdy, q, k) == [Lot(rdy[q][k], NR_QUEUES - q)] + LotsFrom(rdy, q, k + 1)
  {
    var rest := Lots(rdy, q + 1);
    var a := seq(|rdy[q]| - k, j requires 0 <= j < |rdy[q]| - k => Lot(rdy[q][k + j], NR_QUEUES - q));
    var b := seq(|rdy[q]| - k - 1, j requires 0 <= j < |rdy[q]| - k - 1 => Lot(rdy[q][k + 1 + j], NR_QUEUES - q));
    assert a == [Lot(rdy[q][k], NR_QUEUES - q)] + b;
  }

  function Total(lots: seq<Lot>): (r: nat) {
    if lots == [] then 0 else lots[0].tickets + Total(lots[1..])
  }

  // Who holds ticket number draw, NIL beyond the last ticket.
  function Winner(lots: seq<Lot>, draw: nat): (r: int) {
    if lots == [] then NIL
    else if draw < lots[0].tickets then lots[0].slot
    else Winner(lots[1..], draw - lots[0].tickets)
  }

  // The scan of queue 7: best so far, then the rest of the queue.
  function EdfScan(procs: seq<Proc>, best: nat, rest: seq<nat>): (r: nat)
    requires best < |procs| && forall k :: 0 <= k < |rest| ==> rest[k] < |procs|
    ensures r == best || r in rest
    decreases |rest|
  {
    if rest == [] then best
    else
      var t, b := procs[rest[0]].deadline, procs[best].deadline;
      EdfScan(procs, if t > 0 && (b == 0 || (b > 0 && t < b)) then rest[0] else best, rest[1..])
  }

  ghost predicate InRange(s: State)
    requires Shape(s)
  {
    forall q, k :: 0 <= q < NR_QUEUES && 0 <= k < |s.rdy[q]| ==> s.rdy[q][k] < |s.procs|
  }

  // pick_proc; the draw of the lottery is taken modulo the number of tickets.
  ghost function Pick(s: State, policy: Policy, draw: nat): (r: int)
    requires Shape(s) && InRange(s)
    ensures NIL <= r < |s.procs|
  {
    var q := FirstQueue(s.rdy, 0);
    match policy
    case RoundRobin => if q == NR_QUEUES then NIL else s.rdy[q][0]
    case Lottery =>
      if q < 6 then s.rdy[q][0]
      else
        var lots := Lots(s.rdy, 6);
        if Total(lots) == 0 then NIL
        else
          WinnerInRange(s, 6, draw % Total(lots));
          Winner(lots, draw % Total(lots))
    case Edf =>
      if q == NR_QUEUES then NIL
      else if q == EDF_QUEUE then EdfScan(s.procs, s.rdy[q][0], s.rdy[q])
      else s.rdy[q][0]
  }

  lemma {:induction false} WinnerMember(lots: seq<Lot>, draw: nat)
    ensures Winner(lots, draw) == NIL <==> draw >= Total(lots)
    ensures draw < Total(lots) ==> exists k :: 0 <= k < |lots| && lots[k].slot == Winner(lots, draw)
  {
    if lots != [] && draw >= lots[0].tickets {
      WinnerMember(lots[1..], draw - lots[0].tickets);
      if draw < Total(lots) {
        var k :| 0 <= k < |lots[1..]| && lots[1..][k].slot == Winner(lots, draw);
        assert lots[k + 1].slot == Winner(lots, draw);
      }
    }
  }

  lemma {:induction false} LotsInRange(s: State, q: nat)
    requires Shape(s) && InRange(s) && q <= NR_QUEUES
    ensures forall k :: 0 <= k < |Lots(s.rdy, q)| ==> Lots(s.rdy, q)[k].slot < |s.procs|
    decreases NR_QUEUES - q
  {
    if q < NR_QUEUES {
      LotsInRange(s, q + 1);
    }
  }

  lemma WinnerInRange(s: State, q: nat, draw: nat)
    requires Shape(s) && InRange(s) && q <= NR_QUEUES
    ensures NIL <= Winner(Lots(s.rdy, q), draw) < |s.procs|
  {
    LotsInRange(s, q);
    WinnerMember(Lots(s.rdy, q), draw);
  }

  // --------------------------------------------------------------- schedcheck

  // The current process leaves: a preempted one goes back to the head of its queue, one
  // without quantum is queued again.
  ghost function PutBack(s: State): (r: State)
    requires Shape(s)
    ensures Shape(r) && r.cur == s.cur
  {
    var c := s.cur;
    var p := s.procs[c].(rts := s.procs[c].rts - {Preempted});
    var s1 := if Preempted !in s.procs[c].rts then s
              else if p.Runnable() then EnqueueHead(SetProc(s, c, p), c)
              else SetProc(s, c, p);
    if NoQuantum in s1.procs[c].rts then RtsUnset(s1, c, {NoQuantum}) else s1
  }

  // Make n the current process, the idle task when there is none to run.
  function SwitchTo(s: State, n: int): (r: State)
    requires NIL <= n < |s.procs| && IDLE < |s.procs|
  {
    var c := if n == NIL then IDLE else n;
    s.(cur := c, bill := if s.procs[c].billable then c else s.bill)
  }

  ghost function PickNew(s: State, policy: Policy, draw: nat): (r: State)
    requires Shape(s) && InRange(PutBack(s))
    ensures Shape(r)
  {
    var s1 := PutBack(s);
    SwitchTo(s1, Pick(s1, policy, draw))
  }

  // ------------------------------------------------- clock ticks and balancing

  // p_ticks_left is a signed char.
  function Char(n: int): (r: int)
    ensures -128 <= r < 128
  {
    (n + 128) % 256 - 128
  }

  ghost function Charge(s: State, i: int): (r: State)
    requires Shape(s) && 0 <= i < |s.procs|
    ensures Shape(r)
  {
    SetProc(s, i, s.procs[i].(ticks := Char(s.procs[i].ticks - 1)))
  }

  // The tick handler: charge the current process and whoever pays for it, and take the
  // processor from a process whose quantum is used up.
  ghost function Tick(s: State): (r: State)
    requires Shape(s)
    ensures Shape(r)
  {
    var s1 := if s.procs[s.cur].preemptible then Charge(s, s.cur) else s;
    var s2 := if !s.procs[s.cur].billable then Charge(s1, s.bill) else s1;
    var p := s2.procs[s.cur];
    if p.Runnable() && p.ticks <= 0 && p.preemptible then RtsSet(s2, s.cur, {NoQuantum}) else s2
  }

  // balance_queues for one slot.
  ghost function BalanceOne(s: State, i: nat): (r: State)
    requires Shape(s) && i < |s.procs|
    ensures Shape(r) && |r.procs| == |s.procs|
  {
    var p := s.procs[i];
    if p.rts == {SlotFree} then s
    else if p.prio > p.maxPrio then
      var s1 := if p.Runnable() then Dequeue(s, i) else s;
      var s2 := SetProc(s1, i, p.(prio := p.prio - 1));
      if p.Runnable() then Enqueue(s2, i) else s2
    else SetProc(s, i, p.(ticks := p.quantum))
  }

  // The ticks balance_queues accounts for one slot.
  function BalanceTicks(p: Proc): (r: int) {
    if p.rts == {SlotFree} then 0
    else if p.prio > p.maxPrio then p.quantum
    else p.quantum - p.ticks
  }

  ghost function Balance(s: State, i: nat): (r: State)
    requires Shape(s) && i <= |s.procs|
    ensures Shape(r)
    decreases |s.procs| - i
  {
    if i == |s.procs| then s else Balance(BalanceOne(s, i), i + 1)
  }

  // The ticks balance_queues accounts for from slot i on.
  ghost function BalanceAdded(s: State, i: nat): (r: int)
    requires Shape(s) && i <= |s.procs|
    decreases |s.procs| - i
  {
    if i == |s.procs| then 0 else BalanceTicks(s.procs[i]) + BalanceAdded(BalanceOne(s, i), i + 1)
  }

  // do_nice and do_chdeadline change a process while RTS_SYS_LOCK keeps it off the
  // queues.
  ghost function Nice(s: State, i: nat, q: nat): (r: State)
    requires Shape(s) && i < |s.procs| && q < NR_QUEUES
    ensures Shape(r)
  {
    var s1 := RtsSet(s, i, {SysLock});
    var s2 := SetProc(s1, i, s1.procs[i].(prio := q, maxPrio := q));
    RtsUnset(s2, i, {SysLock})
  }

  ghost function ChDeadline(s: State, i: nat, deadline: int): (r: State)
    requires Shape(s) && i < |s.procs|
    ensures Shape(r)
  {
    var s1 := RtsSet(s, i, {SysLock});
    var s2 := SetProc(s1, i, s1.procs[i].(deadline := deadline));
    RtsUnset(s2, i, {SysLock})
  }
}
