/**
 How the tables of the running kernel stand for the message-passing state: runtime
 flags kept by the scheduler, one record per slot, and caller queues threaded through
 the process table by p_q_link.
 */
module KernelState {
  import opened Options
  import opened Seqs
  import opened WaitGraph
  import opened Links
  import opened IpcState
  import opened IpcSteps
  import opened IpcInv
  import S = SchedSpec

  // What a process table entry holds besides its runtime flags and its links.
  datatype Record = Record(
    getfrom: int, sendto: int, sendmsg: Payload, inbox: Option<Msg>,
    replyPend: bool, asynMsg: bool, sigDelay: bool, pending: set<int>, retreg: Status)

  // A message as the kernel stores it, without its position in the history.
  function Plain(p: Payload): (r: Payload) {
    if p.kind.Direct? then p.(kind := Direct(0)) else p
  }

  function PlainBox(m: Option<Msg>): (r: Option<Msg>) {
    if m.Some? then Some(m.value.(payload := Plain(m.value.payload))) else None
  }

  ghost predicate AgreesAt(r: Record, rts: set<S.Flag>, free: bool, p: Proc) {
    && p.dead == (S.NoEndpoint in rts) && p.sending == (S.Sending in rts) && p.receiving == (S.Receiving in rts)
    && p.signaled == (S.Signaled in rts)
    && r.getfrom == p.getfrom && r.sendto == p.sendto && r.replyPend == p.replyPend && r.asynMsg == p.asynMsg
    && r.sigDelay == p.sigDelay && r.pending == p.pending && r.retreg == p.retreg
    && r.sendmsg == Plain(p.sendmsg) && r.inbox == PlainBox(p.inbox)
    && (free <==> rts == {S.SlotFree}) && (S.SlotFree in rts ==> free)
  }

  // The idle task is stopped for good and takes no part in message passing.
  ghost predicate IdleStopped(procs: seq<S.Proc>, s: State)
    requires Shape(s) && |procs| == NR_SLOTS
  {
    S.ProcStop in procs[S.IDLE].rts && !s.procs[S.IDLE].sending && !s.procs[S.IDLE].receiving
  }

  ghost predicate Agrees(rec: seq<Record>, procs: seq<S.Proc>, s: State)
    requires Shape(s)
  {
    && |rec| == |procs| == NR_SLOTS && IdleStopped(procs, s)
    && forall i {:trigger AgreesAt(rec[i], procs[i].rts, s.cfg.free[i], s.procs[i])} :: 0 <= i < NR_SLOTS ==>
         AgreesAt(rec[i], procs[i].rts, s.cfg.free[i], s.procs[i])
  }

  ghost predicate PrivsAgree(privs: seq<Priv>, s: State)
    requires Shape(s)
  {
    && |privs| == NR_SYS_PROCS
    && forall j :: 0 <= j < NR_SYS_PROCS ==> privs[j] == s.privs[j].(tableNo := 0)
  }

  // The queues of live processes are linked from p_caller_q on.
  ghost predicate Linked(callerQ: seq<int>, qLink: seq<int>, s: State)
    requires Shape(s)
  {
    && |callerQ| == |qLink| == NR_SLOTS
    && forall i :: 0 <= i < NR_SLOTS && Live(s, i) ==> ListAt(qLink, callerQ[i], s.callq[i])
  }

  // What a slot and a privilege structure look like at boot.
  predicate FreshSlot(r: Record, rts: set<S.Flag>, free: bool) {
    && r.inbox.None? && r.sendmsg == Plain(r.sendmsg) && S.Sending !in rts && S.Receiving !in rts
    && (free <==> rts == {S.SlotFree}) && (S.SlotFree in rts ==> free)
  }

  ghost predicate FreshPriv(v: Priv) {
    v.notify == {} && v.sigPending == {} && !v.active && v.tableNo == 0
  }

  function FreshProc(r: Record, rts: set<S.Flag>): (p: Proc) {
    Proc(S.NoEndpoint in rts, false, false, r.getfrom, r.sendto, r.sendmsg, None, r.replyPend, r.asynMsg,
         r.sigDelay, S.Signaled in rts, r.pending, r.retreg)
  }

  ghost function FreshState(cfg: Config, rec: seq<Record>, procs: seq<S.Proc>, privs: seq<Priv>): (s: State)
    requires |rec| == |procs| == NR_SLOTS
  {
    State(cfg, seq(NR_SLOTS, i requires 0 <= i < NR_SLOTS => FreshProc(rec[i], procs[i].rts)),
          seq(NR_SLOTS, _ => []), privs, [], [])
  }

  lemma FreshAgrees(cfg: Config, rec: seq<Record>, procs: seq<S.Proc>, privs: seq<Priv>)
    requires ConfigOk(cfg) && |rec| == |procs| == NR_SLOTS && |privs| == NR_SYS_PROCS
    requires forall i :: 0 <= i < NR_SLOTS ==> FreshSlot(rec[i], procs[i].rts, cfg.free[i])
    requires forall j :: 0 <= j < NR_SYS_PROCS ==> FreshPriv(privs[j])
    requires S.ProcStop in procs[S.IDLE].rts
    ensures var s := FreshState(cfg, rec, procs, privs); Agrees(rec, procs, s) && PrivsAgree(privs, s)
  {
    var s := FreshState(cfg, rec, procs, privs);
    forall i | 0 <= i < NR_SLOTS ensures AgreesAt(rec[i], procs[i].rts, cfg.free[i], s.procs[i]) {
      assert FreshSlot(rec[i], procs[i].rts, cfg.free[i]);
    }
  }

  lemma SetTwice(s: State, i: int, p: Proc, q: Proc)
    requires 0 <= i < |s.procs|
    ensures SetProc(SetProc(s, i, p), i, q) == SetProc(s, i, q)
  {
  }

  lemma SetSame(s: State, i: int)
    requires 0 <= i < |s.procs|
    ensures SetProc(s, i, s.procs[i]) == s
  {
  }

  // --------------------------------------------------------------- runtime flags

  function With(p: Proc, f: set<S.Flag>): (r: Proc) {
    p.(dead := p.dead || S.NoEndpoint in f, sending := p.sending || S.Sending in f,
       receiving := p.receiving || S.Receiving in f, signaled := p.signaled || S.Signaled in f)
  }

  function Without(p: Proc, f: set<S.Flag>): (r: Proc) {
    p.(dead := p.dead && S.NoEndpoint !in f, sending := p.sending && S.Sending !in f,
       receiving := p.receiving && S.Receiving !in f, signaled := p.signaled && S.Signaled !in f)
  }

  lemma AgreesUpdate(rec: seq<Record>, procs: seq<S.Proc>, s: State, i: nat, r: Record, p: Proc)
    requires Shape(s) && Agrees(rec, procs, s) && i < NR_SLOTS && AgreesAt(r, procs[i].rts, s.cfg.free[i], p)
    ensures Agrees(rec[i := r], procs, SetProc(s, i, p))
  {
    assert AgreesAt(rec[S.IDLE], procs[S.IDLE].rts, s.cfg.free[S.IDLE], s.procs[S.IDLE]);
    forall k | 0 <= k < NR_SLOTS
      ensures AgreesAt(rec[i := r][k], procs[k].rts, s.cfg.free[k], SetProc(s, i, p).procs[k])
    {
      assert AgreesAt(rec[k], procs[k].rts, s.cfg.free[k], s.procs[k]);
    }
  }

  // RTS_UNSET takes the flags off one slot; it may preempt the current process.
  lemma UnsetFlags(s: S.State, i: nat, f: set<S.Flag>, k: nat)
    requires S.Shape(s) && i < |s.procs| && k < |s.procs|
    ensures var r, rts := S.RtsUnset(s, i, f).procs, if k == i then s.procs[k].rts - f else s.procs[k].rts;
      |r| == |s.procs| && (r[k].rts == rts || (k == s.cur && r[k].rts == rts + {S.Preempted}))
  {
  }

  lemma AgreesUnset(rec: seq<Record>, t: S.State, s: State, i: nat, f: set<S.Flag>)
    requires Shape(s) && S.Shape(t) && |t.procs| == NR_SLOTS && Agrees(rec, t.procs, s)
    requires i < NR_SLOTS && !s.cfg.free[i] && !s.cfg.free[t.cur] && S.Preempted !in f && S.ProcStop !in f
    ensures Agrees(rec, S.RtsUnset(t, i, f).procs, SetProc(s, i, Without(s.procs[i], f)))
  {
    var r, s' := S.RtsUnset(t, i, f).procs, SetProc(s, i, Without(s.procs[i], f));
    UnsetFlags(t, i, f, S.IDLE);
    forall k | 0 <= k < NR_SLOTS ensures AgreesAt(rec[k], r[k].rts, s.cfg.free[k], s'.procs[k]) {
      UnsetFlags(t, i, f, k);
      assert AgreesAt(rec[k], t.procs[k].rts, s.cfg.free[k], s.procs[k]);
    }
  }

  lemma AgreesSet(rec: seq<Record>, t: S.State, s: State, i: nat, f: set<S.Flag>)
    requires Shape(s) && S.Shape(t) && |t.procs| == NR_SLOTS && Agrees(rec, t.procs, s)
    requires i < NR_SLOTS && !s.cfg.free[i] && S.SlotFree !in f && (i == S.IDLE ==> f !! {S.Sending, S.Receiving})
    ensures Agrees(rec, S.RtsSet(t, i, f).procs, SetProc(s, i, With(s.procs[i], f)))
  {
    var r, s' := S.RtsSet(t, i, f).procs, SetProc(s, i, With(s.procs[i], f));
    forall k | 0 <= k < NR_SLOTS ensures AgreesAt(rec[k], r[k].rts, s.cfg.free[k], s'.procs[k]) {
      assert AgreesAt(rec[k], t.procs[k].rts, s.cfg.free[k], s.procs[k]);
    }
  }

  // The scheduler's own steps touch no flags but its marks on the current process.
  ghost predicate MarksOnly(a: seq<S.Proc>, b: seq<S.Proc>, cur: int) {
    && |a| == |b|
    && forall k :: 0 <= k < |a| ==>
         b[k].rts == a[k].rts || (k == cur && b[k].rts - {S.Preempted, S.NoQuantum} == a[k].rts - {S.Preempted, S.NoQuantum})
  }

  lemma AgreesMarks(rec: seq<Record>, a: seq<S.Proc>, b: seq<S.Proc>, s: State, cur: int)
    requires Shape(s) && Agrees(rec, a, s) && MarksOnly(a, b, cur) && IsSlot(cur) && !s.cfg.free[cur]
    ensures Agrees(rec, b, s)
  {
    forall k | 0 <= k < NR_SLOTS
      ensures AgreesAt(rec[k], b[k].rts, s.cfg.free[k], s.procs[k]) && (S.ProcStop in a[k].rts ==> S.ProcStop in b[k].rts)
    {
      assert AgreesAt(rec[k], a[k].rts, s.cfg.free[k], s.procs[k]);
      if b[k].rts != a[k].rts {
        SameButMarks(a[k].rts, b[k].rts);
      }
    }
  }

  lemma SameButMarks(a: set<S.Flag>, b: set<S.Flag>)
    requires b - {S.Preempted, S.NoQuantum} == a - {S.Preempted, S.NoQuantum}
    ensures forall f :: f !in {S.Preempted, S.NoQuantum} ==> (f in b <==> f in a)
  {
    forall f | f !in {S.Preempted, S.NoQuantum} ensures f in b <==> f in a {
      assert f in b <==> f in b - {S.Preempted, S.NoQuantum};
    }
  }

  lemma TickMarksOnly(t: S.State)
    requires S.Shape(t)
    ensures MarksOnly(t.procs, S.Tick(t).procs, t.cur)
  {
  }

  lemma PutBackMarksOnly(t: S.State)
    requires S.Shape(t)
    ensures MarksOnly(t.procs, S.PutBack(t).procs, t.cur)
  {
  }

  lemma BalanceOneMarksOnly(t: S.State, i: nat)
    requires S.Shape(t) && i < |t.procs|
    ensures MarksOnly(t.procs, S.BalanceOne(t, i).procs, t.cur) && S.BalanceOne(t, i).cur == t.cur
  {
  }

  lemma {:induction false} BalanceMarksOnly(t: S.State, i: nat)
    requires S.Shape(t) && i <= |t.procs|
    ensures MarksOnly(t.procs, S.Balance(t, i).procs, t.cur)
    decreases |t.procs| - i
  {
    if i < |t.procs| {
      var t1 := S.BalanceOne(t, i);
      BalanceOneMarksOnly(t, i);
      BalanceMarksOnly(t1, i + 1);
      forall k | 0 <= k < |t.procs| && S.Balance(t, i).procs[k].rts != t.procs[k].rts
        ensures k == t.cur
        ensures S.Balance(t, i).procs[k].rts - {S.Preempted, S.NoQuantum} == t.procs[k].rts - {S.Preempted, S.NoQuantum}
      {
        assert t1.procs[k].rts == t.procs[k].rts || k == t.cur;
      }
    }
  }

  // The slots that do not wait for VM.
  ghost function Awake(procs: seq<S.Proc>): (r: set<int>) {
    set i | 0 <= i < |procs| && S.VmRequest !in procs[i].rts
  }

  ghost predicate SameVm(a: seq<S.Proc>, b: seq<S.Proc>) {
    |a| == |b| && forall k :: 0 <= k < |a| ==> (S.VmRequest in a[k].rts <==> S.VmRequest in b[k].rts)
  }

  lemma VmAwake(a: seq<S.Proc>, b: seq<S.Proc>)
    requires SameVm(a, b)
    ensures Awake(a) == Awake(b)
  {
  }

  lemma UnsetVm(t: S.State, i: nat, f: set<S.Flag>)
    requires S.Shape(t) && i < |t.procs| && S.VmRequest !in f
    ensures SameVm(t.procs, S.RtsUnset(t, i, f).procs)
  {
    var r := S.RtsUnset(t, i, f).procs;
    forall k | 0 <= k < |t.procs| ensures S.VmRequest in t.procs[k].rts <==> S.VmRequest in r[k].rts {
      UnsetFlags(t, i, f, k);
    }
  }

  lemma SetAwake(t: S.State, i: nat)
    requires S.Shape(t) && i < |t.procs| && t.procs[i].rts == {}
    ensures Awake(S.RtsSet(t, i, {S.VmRequest}).procs) < Awake(t.procs)
  {
    var r := S.RtsSet(t, i, {S.VmRequest}).procs;
    assert i in Awake(t.procs) && i !in Awake(r);
    forall k | k in Awake(r) ensures k in Awake(t.procs) {
    }
  }

  lemma MarksAwake(a: seq<S.Proc>, b: seq<S.Proc>, cur: int)
    requires MarksOnly(a, b, cur)
    ensures Awake(b) == Awake(a)
  {
    forall k | 0 <= k < |a| ensures k in Awake(b) <==> k in Awake(a) {
      if b[k].rts != a[k].rts {
        SameButMarks(a[k].rts, b[k].rts);
      }
    }
  }

  // --------------------------------------------------------------- caller queues

  // What the walks over caller queues rely on.
  ghost predicate Sound(s: State) {
    Shape(s) && Refs(s) && Queues(s) && Blocking(s) && !s.procs[PM].sigDelay
  }

  // The senders on two live queues are different.
  lemma QueuesApart(s: State, i: int, k: int, x: nat)
    requires Shape(s) && Queues(s) && IsSlot(i) && IsSlot(k) && Live(s, i) && Live(s, k)
    requires x in s.callq[i] && x in s.callq[k]
    ensures i == k
  {
    assert QueueAt(s, i) && QueueAt(s, k);
    assert SendsTo(s, x, i) && SendsTo(s, x, k);
  }

  lemma NotOnQueue(s: State, i: int, x: nat)
    requires Shape(s) && Queues(s) && IsSlot(i) && Live(s, i) && IsSlot(x)
    requires !s.procs[x].sending
    ensures x !in s.callq[i]
  {
    assert QueueAt(s, i);
    assert x in s.callq[i] <==> SendsTo(s, x, i);
  }

  // Links of slots that are not on queue k change.
  lemma LinkFrame(callerQ: seq<int>, qLink: seq<int>, qLink': seq<int>, s: State, k: int)
    requires Shape(s) && Linked(callerQ, qLink, s) && IsSlot(k) && Live(s, k) && |qLink'| == |qLink|
    requires forall x :: 0 <= x < |qLink| && x in s.callq[k] ==> qLink'[x] == qLink[x]
    ensures ListAt(qLink', callerQ[k], s.callq[k])
  {
    ChainFrame(qLink, qLink', s.callq[k]);
  }

  // The links once c is put at the end of queue d, whose last element is `last`.
  lemma CallerAppended(callerQ: seq<int>, qLink: seq<int>, s: State, c: nat, d: nat)
    requires Shape(s) && Linked(callerQ, qLink, s) && Queues(s)
    requires c < NR_SLOTS && d < NR_SLOTS && Live(s, d) && !s.procs[c].sending
    ensures NIL <= Last(s.callq[d]) < NR_SLOTS
    ensures var last := Last(s.callq[d]);
      Linked(if last == NIL then callerQ[d := c] else callerQ,
             (if last == NIL then qLink else qLink[last := c])[c := NIL],
             s.(callq := s.callq[d := s.callq[d] + [c]]))
  {
    var l := s.callq[d];
    assert QueueAt(s, d) && ListAt(qLink, callerQ[d], l);
    NotOnQueue(s, d, c);
    PushBack(qLink, l, c);
    var last := Last(l);
    if l != [] {
      assert l[|l| - 1] in l;
    } else {
      assert l + [c] == [c];
    }
    var q' := (if last == NIL then qLink else qLink[last := c])[c := NIL];
    forall k | 0 <= k < NR_SLOTS && Live(s, k) && k != d ensures ListAt(q', callerQ[k], s.callq[k]) {
      NotOnQueue(s, k, c);
      if last != NIL && last in s.callq[k] {
        QueuesApart(s, d, k, last);
      }
      LinkFrame(callerQ, qLink, q', s, k);
    }
  }

  // The links once element k is taken out of queue d.
  lemma CallerRemoved(callerQ: seq<int>, qLink: seq<int>, s: State, d: nat, k: nat)
    requires Shape(s) && Linked(callerQ, qLink, s) && Queues(s)
    requires d < NR_SLOTS && Live(s, d) && k < |s.callq[d]|
    ensures s.callq[d][k] < NR_SLOTS && (k > 0 ==> s.callq[d][k - 1] < NR_SLOTS)
    ensures var next := qLink[s.callq[d][k]];
      Linked(if k == 0 then callerQ[d := next] else callerQ,
             if k == 0 then qLink else qLink[s.callq[d][k - 1] := next],
             s.(callq := s.callq[d := RemoveAt(s.callq[d], k)]))
  {
    var l := s.callq[d];
    assert QueueAt(s, d) && ListAt(qLink, callerQ[d], l);
    Unlink(qLink, l, k);
    var q' := if k == 0 then qLink else qLink[l[k - 1] := qLink[l[k]]];
    forall j | 0 <= j < NR_SLOTS && Live(s, j) && j != d ensures ListAt(q', callerQ[j], s.callq[j]) {
      if k > 0 && l[k - 1] in s.callq[j] {
        assert l[k - 1] in l;
        QueuesApart(s, d, j, l[k - 1]);
      }
      LinkFrame(callerQ, qLink, q', s, j);
    }
  }

  lemma LinkedFrame(callerQ: seq<int>, qLink: seq<int>, s: State, r: State)
    requires Shape(s) && Shape(r) && Linked(callerQ, qLink, s) && r.callq == s.callq
    requires forall i :: 0 <= i < NR_SLOTS && Live(r, i) ==> Live(s, i)
    ensures Linked(callerQ, qLink, r)
  {
  }

  // ------------------------------------------------------- order of two changes

  // cause_sig on x and the end of x's send do not disturb each other.
  lemma SignalThenUnsend(s: State, x: int, sig: int, q: seq<seq<nat>>, log: seq<Transfer>)
    requires Shape(s) && IsSlot(x) && x != PM && |q| == NR_SLOTS
    ensures var a := CauseSig(s, x, sig);
      var b := SetProc(s, x, s.procs[x].(sending := false)).(callq := q, log := log);
      SetProc(a, x, a.procs[x].(sending := false)).(callq := q, log := log) == CauseSig(b, x, sig)
  {
    var p := s.procs[x];
    var p1 := p.(pending := p.pending + {sig});
    if sig in p.pending {
    } else if p.signaled {
      SetTwice(s, x, p1, p1.(sending := false));
      SetTwice(s, x, p.(sending := false), p1.(sending := false));
    } else {
      StopThenUnsend(s, x, p1.(signaled := true), q, log);
    }
  }

  lemma StopThenUnsend(s: State, x: int, p1: Proc, q: seq<seq<nat>>, log: seq<Transfer>)
    requires Shape(s) && IsSlot(x) && x != PM && |q| == NR_SLOTS
    ensures var a := SendSig(SetProc(s, x, p1), PM, SIGKSIG);
      var b := SetProc(s, x, s.procs[x].(sending := false)).(callq := q, log := log);
      SetProc(a, x, a.procs[x].(sending := false)).(callq := q, log := log)
      == SendSig(SetProc(b, x, p1.(sending := false)), PM, SIGKSIG)
  {
    NotifyPmThenUnsend(SetProc(s, x, p1), x, q, log);
    SetTwice(s, x, p1, p1.(sending := false));
    SetTwice(s, x, s.procs[x].(sending := false), p1.(sending := false));
  }

  lemma NotifyPmThenUnsend(s: State, x: int, q: seq<seq<nat>>, log: seq<Transfer>)
    requires Shape(s) && IsSlot(x) && x != PM && |q| == NR_SLOTS
    ensures var a := SendSig(s, PM, SIGKSIG);
      var b := SetProc(s, x, s.procs[x].(sending := false)).(callq := q, log := log);
      SetProc(a, x, a.procs[x].(sending := false)).(callq := q, log := log) == SendSig(b, PM, SIGKSIG)
  {
    var a := SendSig(s, PM, SIGKSIG);
    var b := SetProc(s, x, s.procs[x].(sending := false)).(callq := q, log := log);
    assert a.procs[x] == s.procs[x];
    assert AddSignal(b, PM, SIGKSIG).procs[PM] == s.procs[PM];
    assert SetProc(a, x, a.procs[x].(sending := false)).procs == SendSig(b, PM, SIGKSIG).procs;
  }

  // What mini_receive does to the sender x it takes, up to the queue: copy its message,
  // report the end of a delayed signal, and only then release it.
  ghost function Relieved(s: State, c: int, x: int): (r: State)
    requires Shape(s) && IsSlot(c) && IsSlot(x)
    ensures Shape(r) && r.cfg == s.cfg
  {
    var s1 := QueueMess(s, s.cfg.ep[x], s.procs[x].sendmsg, c);
    var a := if s.procs[x].sigDelay then SigDelayDone(s1, x) else s1;
    SetProc(a, x, a.procs[x].(sending := false))
  }

  ghost function TakenFrom(s: State, c: int, k: nat): (r: State)
    requires Shape(s) && IsSlot(c) && k < |s.callq[c]| && IsSlot(s.callq[c][k])
    ensures Shape(r) && r.cfg == s.cfg
  {
    var x, s1 := s.callq[c][k], TakeQueued(s, c, k);
    if s.procs[x].sigDelay then SigDelayDone(s1, x) else s1
  }

  lemma SigDelayFirst(s: State, c: int, k: nat)
    requires Shape(s) && IsSlot(c) && k < |s.callq[c]| && IsSlot(s.callq[c][k])
    requires s.callq[c][k] != c && (s.procs[s.callq[c][k]].sigDelay ==> s.callq[c][k] != PM)
    ensures var x := s.callq[c][k];
      Relieved(s, c, x).(callq := s.callq[c := RemoveAt(s.callq[c], k)],
                         log := SetPlace(s.log, s.procs[x].sendmsg.kind, AtReceiver))
      == TakenFrom(s, c, k)
  {
    var x := s.callq[c][k];
    if s.procs[x].sigDelay {
      var s1 := QueueMess(s, s.cfg.ep[x], s.procs[x].sendmsg, c);
      var s2 := SetProc(s1, x, s1.procs[x].(sigDelay := false));
      var q, log := s.callq[c := RemoveAt(s.callq[c], k)], SetPlace(s.log, s.procs[x].sendmsg.kind, AtReceiver);
      SignalThenUnsend(s2, x, SIGNDELAY, q, log);
      SetTwice(s1, x, s1.procs[x].(sigDelay := false), s1.procs[x].(sigDelay := false, sending := false));
      SetTwice(s1, x, s1.procs[x].(sending := false), s1.procs[x].(sigDelay := false, sending := false));
    }
  }

  // The same processes are alive, with the same queues.
  ghost predicate SameQueues(s: State, r: State)
    requires Shape(s) && Shape(r)
  {
    && r.cfg == s.cfg && r.callq == s.callq
    && forall i :: 0 <= i < NR_SLOTS ==> r.procs[i].dead == s.procs[i].dead
  }

  lemma NotifyQueues(s: State, src: int, dstE: int)
    requires Shape(s) && IsSlot(src)
    ensures SameQueues(s, MiniNotify(s, src, dstE).state)
  {
  }

  lemma CauseSigQueues(s: State, p: int, sig: int)
    requires Shape(s) && IsSlot(p)
    ensures SameQueues(s, CauseSig(s, p, sig))
  {
    var x := s.procs[p];
    if sig !in x.pending && !x.signaled {
      var s1 := SetProc(s, p, x.(pending := x.pending + {sig}, signaled := true));
      NotifyQueues(AddSignal(s1, PM, SIGKSIG), SYSTEM, s.cfg.ep[PM]);
    }
  }

  lemma RelievedQueues(s: State, c: int, x: int)
    requires Shape(s) && IsSlot(c) && IsSlot(x)
    ensures SameQueues(s, Relieved(s, c, x))
  {
    var s1 := QueueMess(s, s.cfg.ep[x], s.procs[x].sendmsg, c);
    SigDelayQueues(s1, x);
  }

  lemma SigDelayQueues(s: State, x: int)
    requires Shape(s) && IsSlot(x)
    ensures SameQueues(s, SigDelayDone(s, x))
  {
    CauseSigQueues(SetProc(s, x, s.procs[x].(sigDelay := false)), x, SIGNDELAY);
  }

  // A RECEIVE without its search for notifications: the caller queue, then async tables.
  ghost function FromTables(s: State, c: int, srcE: int): (r: TryResult)
    requires Shape(s) && IsSlot(c) && (srcE == ANY || IsSlot(SlotOf(srcE)))
    ensures Shape(r.state) && r.state.cfg == s.cfg
  {
    if !s.procs[c].asynMsg then TryResult(s, false, false)
    else if srcE != ANY then TryOne(s, SlotOf(srcE), c)
    else TryAsync(s, c, 0, false)
  }

  ghost function FromOthers(s: State, c: int, srcE: int): (r: TryResult)
    requires Shape(s) && Refs(s) && IsSlot(c) && (srcE == ANY || IsSlot(SlotOf(srcE)))
    ensures Shape(r.state) && r.state.cfg == s.cfg
  {
    var k := QueuePick(s, c, srcE);
    if k < |s.callq[c]| then TryResult(TakenFrom(s, c, k), true, false) else FromTables(s, c, srcE)
  }

  lemma ReceiveFromOthers(s: State, c: int, srcE: int)
    requires Shape(s) && Refs(s) && IsSlot(c) && (srcE == ANY || IsSlot(SlotOf(srcE)))
    requires !s.procs[c].sending && (s.procs[c].replyPend || NotifyPick(s, c, srcE) == NOBODY)
    ensures ReceiveNow(s, c, srcE) == FromOthers(s, c, srcE)
  {
  }

  // -------------------------------------------------------------- clear_endpoint

  ghost predicate InUseBelow(s: State, j: nat, k: nat)
    requires Shape(s) && k <= NR_SLOTS
  {
    exists i :: 0 <= i < k && !s.cfg.free[i] && s.cfg.priv[i] == j
  }

  // The death of rc once the loop over the process table has done the slots below k.
  ghost function PartCleared(s: State, rc: int, k: nat): (r: State)
    requires Shape(s) && IsSlot(rc) && k <= NR_SLOTS
    ensures Shape(r) && r.cfg == s.cfg
  {
    var p := s.procs[rc];
    var d := SlotOf(p.sendto);
    State(s.cfg,
          seq(NR_SLOTS, i requires 0 <= i < NR_SLOTS =>
            if i == rc then Buried(s.procs[i])
            else if i >= k || s.cfg.free[i] then s.procs[i]
            else Released(s.procs[i], s.cfg.ep[rc])),
          if p.sending && 0 <= d < |s.callq| then s.callq[d := Remove(s.callq[d], rc)] else s.callq,
          seq(NR_SYS_PROCS, j requires 0 <= j < NR_SYS_PROCS =>
            var v := s.privs[j].(active := s.privs[j].active && !(s.cfg.priv[rc] == j && s.cfg.sysProc[j]));
            if InUseBelow(s, j, k) then v.(notify := v.notify - {s.cfg.priv[rc]}) else v),
          ClearedLog(s, rc), s.asyncLog)
  }

  lemma PartClearedAll(s: State, rc: int)
    requires Shape(s) && IsSlot(rc)
    ensures PartCleared(s, rc, NR_SLOTS) == ClearEndpoint(s, rc)
  {
    var r, e := PartCleared(s, rc, NR_SLOTS), ClearEndpoint(s, rc);
    forall j | 0 <= j < NR_SYS_PROCS ensures r.privs[j] == e.privs[j] {
      assert InUseBelow(s, j, NR_SLOTS) <==> InUse(s, j);
    }
    assert r.procs == e.procs && r.privs == e.privs;
  }

  // One slot of the loop: its pending bit goes, and it is released if it waits for rc.
  ghost function ClearedSlot(s: State, rc: int, k: nat): (r: State)
    requires Shape(s) && IsSlot(rc) && k < NR_SLOTS
    ensures Shape(r) && r.cfg == s.cfg
  {
    if s.cfg.free[k] then s
    else
      var v := s.cfg.priv[k];
      SetProc(SetPriv(s, v, s.privs[v].(notify := s.privs[v].notify - {s.cfg.priv[rc]})),
              k, Released(s.procs[k], s.cfg.ep[rc]))
  }

  lemma PartClearedStep(s: State, rc: int, k: nat)
    requires Shape(s) && IsSlot(rc) && k < NR_SLOTS
    ensures PartCleared(s, rc, k + 1) == ClearedSlot(PartCleared(s, rc, k), rc, k)
  {
    var a, b := PartCleared(s, rc, k + 1), ClearedSlot(PartCleared(s, rc, k), rc, k);
    forall i | 0 <= i < NR_SLOTS ensures a.procs[i] == b.procs[i] {
    }
    forall j | 0 <= j < NR_SYS_PROCS ensures a.privs[j] == b.privs[j] {
      assert InUseBelow(s, j, k + 1) <==> InUseBelow(s, j, k) || (!s.cfg.free[k] && s.cfg.priv[k] == j);
    }
    assert a.procs == b.procs && a.privs == b.privs;
  }

  // Before the loop.
  lemma PartClearedStart(s: State, rc: int)
    requires Shape(s) && IsSlot(rc)
    ensures var r, v := PartCleared(s, rc, 0), s.cfg.priv[rc];
      && r.procs == s.procs[rc := Buried(s.procs[rc])]
      && r.privs == if s.cfg.sysProc[v] then s.privs[v := s.privs[v].(active := false)] else s.privs
  {
    var r, v := PartCleared(s, rc, 0), s.cfg.priv[rc];
    forall j | 0 <= j < NR_SYS_PROCS
      ensures r.privs[j] == if s.cfg.sysProc[v] && j == v then s.privs[j].(active := false) else s.privs[j]
    {
      assert !InUseBelow(s, j, 0);
    }
  }

  lemma AgreesBuried(rec: seq<Record>, a: seq<S.Proc>, b: seq<S.Proc>, s: State, rc: nat)
    requires Shape(s) && Agrees(rec, a, s) && rc < NR_SLOTS && !s.cfg.free[rc] && s.procs[rc].dead
    requires b == a[rc := a[rc].(rts := a[rc].rts - {S.Sending, S.Receiving})]
    ensures Agrees(rec, b, SetProc(s, rc, Buried(s.procs[rc])))
  {
    assert AgreesAt(rec[rc], a[rc].rts, s.cfg.free[rc], s.procs[rc]);
    assert S.NoEndpoint in b[rc].rts;
  }

  // The two halves of Released.
  function NotReceiving(p: Proc, e: int): (r: Proc) {
    if p.receiving && p.getfrom == e then p.(receiving := false, retreg := ESRCDIED) else p
  }

  function NotSending(p: Proc, e: int): (r: Proc) {
    if p.sending && p.sendto == e then p.(sending := false, retreg := EDSTDIED) else p
  }
}
