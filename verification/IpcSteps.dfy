/**
 What each message-passing operation of the kernel does to the state, as functions
 from the state before to the state after.  Memory that may be unmapped or may fault
 is a parameter of the call.
 */
module IpcSteps {
  import opened Options
  import opened Seqs
  import opened WaitGraph
  import opened IpcState

  // The caller's message buffer: whether umap_local finds it, whether the copy
  // succeeds, and what it holds.
  datatype Buf = Buf(mapped: bool, readable: bool, body: int)

  datatype Outcome = Outcome(state: State, status: Status)

  function SetProc(s: State, i: int, p: Proc): (r: State)
    requires 0 <= i < |s.procs|
    ensures |r.procs| == |s.procs|
  {
    s.(procs := s.procs[i := p])
  }

  function SetPriv(s: State, j: nat, v: Priv): (r: State)
    requires j < |s.privs|
    ensures |r.privs| == |s.privs|
  {
    s.(privs := s.privs[j := v])
  }

  function SetPlace(log: seq<Transfer>, kind: Kind, place: Place): (r: seq<Transfer>)
    ensures |r| == |log|
  {
    if kind.Direct? && kind.tag < |log| then log[kind.tag := log[kind.tag].(place := place)] else log
  }

  // QueueMess, the copy having succeeded.
  function QueueMess(s: State, ep: int, payload: Payload, d: int): (r: State)
    requires 0 <= d < |s.procs|
  {
    SetProc(s, d, s.procs[d].(inbox := Some(Msg(ep, payload))))
  }

  // ---------------------------------------------------------------- mini_send

  // The destination waits for this message: hand it over and release it.
  ghost function HandOver(s: State, c: int, d: int, body: int): (r: State)
    requires Shape(s) && IsSlot(c) && IsSlot(d)
    ensures Shape(r) && r.cfg == s.cfg
  {
    var payload := Payload(Direct(|s.log|), body);
    var s1 := QueueMess(s, s.cfg.ep[c], payload, d);
    SetProc(s1, d, s1.procs[d].(receiving := false))
      .(log := s.log + [Transfer(c, s.cfg.ep[c], d, body, AtReceiver)])
  }

  // The destination is busy: block the caller at the end of its queue.
  ghost function BlockSender(s: State, c: int, dstE: int, body: int): (r: State)
    requires Shape(s) && IsSlot(c) && IsSlot(SlotOf(dstE))
    ensures Shape(r) && r.cfg == s.cfg
  {
    var d := SlotOf(dstE);
    var payload := Payload(Direct(|s.log|), body);
    SetProc(s, c, s.procs[c].(sending := true, sendto := dstE, sendmsg := payload))
      .(callq := s.callq[d := s.callq[d] + [c]],
        log := s.log + [Transfer(c, s.cfg.ep[c], d, body, AtSender)])
  }

  ghost function MiniSend(s: State, c: int, dstE: int, buf: Buf, nonblocking: bool): (r: Outcome)
    requires Shape(s) && IsSlot(c) && IsSlot(SlotOf(dstE))
    ensures Shape(r.state) && r.state.cfg == s.cfg
  {
    var d := SlotOf(dstE);
    if !buf.mapped then Outcome(s, EFAULT)
    else if s.procs[d].dead then Outcome(s, EDSTDIED)
    else if WillReceive(s.procs[d], s.cfg.ep[c]) then
      if !buf.readable then Outcome(s, EFAULT) else Outcome(HandOver(s, c, d, buf.body), OK)
    else if nonblocking then Outcome(s, ENOTREADY)
    else if Deadlocked(s, Send, c, d) then Outcome(s, ELOCKED)
    else if !buf.readable then Outcome(s, EFAULT)
    else Outcome(BlockSender(s, c, dstE, buf.body), OK)
  }

  // -------------------------------------------------------------- mini_notify

  // BuildNotifyMessage: the argument, and what the destination's privilege structure
  // keeps afterwards.
  function NotifyArg(v: Priv, src: int): (arg: set<int>) {
    if src == HARDWARE then v.intPending else if src == SYSTEM then v.sigPending else {}
  }

  function NotifyTaken(v: Priv, src: int): (r: Priv) {
    if src == HARDWARE then v.(intPending := {}) else if src == SYSTEM then v.(sigPending := {}) else v
  }

  // Assemble a notification from src and queue it at d.
  ghost function QueueNotify(s: State, src: int, d: int): (r: State)
    requires Shape(s) && IsSlot(src) && IsSlot(d)
    ensures Shape(r) && r.cfg == s.cfg
  {
    var v := s.cfg.priv[d];
    SetPriv(QueueMess(s, s.cfg.ep[src], Payload(Notification(NotifyArg(s.privs[v], src)), 0), d),
            v, NotifyTaken(s.privs[v], src))
  }

  ghost function NotifyNow(s: State, src: int, d: int): (r: State)
    requires Shape(s) && IsSlot(src) && IsSlot(d)
    ensures Shape(r) && r.cfg == s.cfg
  {
    var s1 := QueueNotify(s, src, d);
    SetProc(s1, d, s1.procs[d].(receiving := false))
  }

  ghost function NotifyLater(s: State, src: int, d: int): (r: State)
    requires Shape(s) && IsSlot(src) && IsSlot(d)
    ensures Shape(r) && r.cfg == s.cfg
  {
    var v := s.cfg.priv[d];
    SetPriv(s, v, s.privs[v].(notify := s.privs[v].notify + {s.cfg.priv[src]}))
  }

  ghost function MiniNotify(s: State, src: int, dstE: int): (r: Outcome)
    requires Shape(s) && IsSlot(src)
    ensures Shape(r.state) && r.state.cfg == s.cfg
  {
    if !OkEndpoint(s.cfg, dstE) then Outcome(s, EDEADSRCDST)
    else
      var d := SlotOf(dstE);
      if WillReceive(s.procs[d], s.cfg.ep[src]) && !s.procs[d].replyPend
      then Outcome(NotifyNow(s, src, d), OK)
      else Outcome(NotifyLater(s, src, d), OK)
  }

  // ---------------------------------------------------- send_sig and cause_sig

  ghost function AddSignal(s: State, p: int, sig: int): (r: State)
    requires Shape(s) && IsSlot(p)
    ensures Shape(r) && r.cfg == s.cfg
  {
    var v := s.cfg.priv[p];
    SetPriv(s, v, s.privs[v].(sigPending := s.privs[v].sigPending + {sig}))
  }

  ghost function SendSig(s: State, p: int, sig: int): (r: State)
    requires Shape(s) && IsSlot(p)
    ensures Shape(r) && r.cfg == s.cfg
  {
    var s1 := AddSignal(s, p, sig);
    MiniNotify(s1, SYSTEM, s.cfg.ep[p]).state
  }

  ghost function CauseSig(s: State, p: int, sig: int): (r: State)
    requires Shape(s) && IsSlot(p)
    ensures Shape(r) && r.cfg == s.cfg
  {
    var x := s.procs[p];
    if sig in x.pending then s
    else if x.signaled then SetProc(s, p, x.(pending := x.pending + {sig}))
    else SendSig(SetProc(s, p, x.(pending := x.pending + {sig}, signaled := true)), PM, SIGKSIG)
  }

  ghost function SigDelayDone(s: State, p: int): (r: State)
    requires Shape(s) && IsSlot(p)
    ensures Shape(r) && r.cfg == s.cfg
  {
    CauseSig(SetProc(s, p, s.procs[p].(sigDelay := false)), p, SIGNDELAY)
  }

  // ------------------------------------------------------------ async tables

  datatype Scan = Found(index: nat) | BadBits | Nothing(allDone: bool)
  datatype ScanResult = ScanResult(scan: Scan, postponed: bool)

  // The scan of try_one from entry i on.
  function ScanTable(t: seq<Entry>, i: nat, dst: int, replyPend: bool): (r: ScanResult)
    requires i <= |t|
    decreases |t| - i
  {
    if i == |t| then ScanResult(Nothing(true), false)
    else if t[i].Empty() then ScanTable(t, i + 1, dst, replyPend)
    else if t[i].Malformed() then ScanResult(BadBits, false)
    else if t[i].done then ScanTable(t, i + 1, dst, replyPend)
    else if t[i].dst == dst && !(t[i].noreply && replyPend) then ScanResult(Found(i), false)
    else
      var rest := ScanTable(t, i + 1, dst, replyPend);
      ScanResult(if rest.scan.Nothing? then Nothing(false) else rest.scan,
                 rest.postponed || t[i].dst == dst)
  }

  datatype TryResult = TryResult(state: State, delivered: bool, postponed: bool)

  function DoneEntry(e: Entry, result: Status): (r: Entry) {
    e.(done := true, result := result)
  }

  // Entry i of the table of privilege structure v goes to slot d.
  ghost function DeliverEntry(s: State, v: nat, src: int, i: nat, d: int): (r: State)
    requires Shape(s) && IsSlot(src) && IsSlot(d) && v < NR_SYS_PROCS && i < |s.privs[v].table|
    ensures Shape(r) && r.cfg == s.cfg
  {
    var e := s.privs[v].table[i];
    SetPriv(QueueMess(s, s.cfg.ep[src], Payload(Async(e.noreply), e.body), d), v,
            s.privs[v].(table := s.privs[v].table[i := DoneEntry(e, OK)]))
      .(asyncLog := s.asyncLog + [AsyncDelivery(v, s.privs[v].tableNo, i, s.cfg.ep[d], e.noreply)])
  }

  ghost function TryOne(s: State, src: int, d: int): (r: TryResult)
    requires Shape(s) && IsSlot(src) && IsSlot(d)
    ensures Shape(r.state) && r.state.cfg == s.cfg
  {
    var v := s.cfg.priv[src];
    if v == USER_PRIV || !s.privs[v].active || !MaySend(s.cfg, src, d) then TryResult(s, false, false)
    else
      var r := ScanTable(s.privs[v].table, 0, s.cfg.ep[d], s.procs[d].replyPend);
      match r.scan
      case Found(i) =>
        ScanIndex(s.privs[v].table, 0, s.cfg.ep[d], s.procs[d].replyPend);
        TryResult(DeliverEntry(s, v, src, i, d), true, r.postponed)
      case BadBits => TryResult(SetPriv(s, v, s.privs[v].(active := false)), false, r.postponed)
      case Nothing(allDone) =>
        TryResult(SetPriv(s, v, s.privs[v].(active := s.privs[v].active && !allDone)), false, r.postponed)
  }

  // Privilege structure j in the loop of try_async: nothing to try when it has no owner.
  ghost function TryNext(s: State, d: int, j: nat): (r: TryResult)
    requires Shape(s) && IsSlot(d) && j < NR_SYS_PROCS
    ensures Shape(r.state) && r.state.cfg == s.cfg
  {
    if s.cfg.owner[j] == NOBODY then TryResult(s, false, false) else TryOne(s, s.cfg.owner[j], d)
  }

  // Its end: nothing was found, and the flag stays only for what was postponed.
  ghost function TryEnd(s: State, d: int, postponed: bool): (r: TryResult)
    requires Shape(s) && IsSlot(d)
    ensures Shape(r.state) && r.state.cfg == s.cfg
  {
    TryResult(SetProc(s, d, s.procs[d].(asynMsg := s.procs[d].asynMsg && postponed)), false, postponed)
  }

  // try_async from privilege structure j on.
  ghost function TryAsync(s: State, d: int, j: nat, postponed: bool): (r: TryResult)
    requires Shape(s) && IsSlot(d) && j <= NR_SYS_PROCS
    ensures Shape(r.state) && r.state.cfg == s.cfg
    decreases NR_SYS_PROCS - j
  {
    if j == NR_SYS_PROCS then TryEnd(s, d, postponed)
    else
      var r := TryNext(s, d, j);
      if r.delivered then r else TryAsync(r.state, d, j + 1, postponed || r.postponed)
  }

  // A condition on the loop of try_async that its body keeps until the loop is left.
  ghost predicate KeptByTry(d: int, j: nat, s: State, postponed: bool,
                            keep: (State, nat, bool) -> bool, done: TryResult -> bool)
    requires Shape(s) && IsSlot(d) && j <= NR_SYS_PROCS
  {
    if j == NR_SYS_PROCS then done(TryEnd(s, d, postponed))
    else
      var r := TryNext(s, d, j);
      if r.delivered then done(r) else keep(r.state, j + 1, postponed || r.postponed)
  }

  lemma {:induction false} TryAsyncInduction(s: State, d: int, j: nat, postponed: bool,
                                             keep: (State, nat, bool) -> bool, done: TryResult -> bool)
    requires Shape(s) && IsSlot(d) && j <= NR_SYS_PROCS && keep(s, j, postponed)
    requires forall t, i: nat, b {:trigger keep(t, i, b)} :: Shape(t) && i <= NR_SYS_PROCS && keep(t, i, b) ==>
      KeptByTry(d, i, t, b, keep, done)
    ensures done(TryAsync(s, d, j, postponed))
    decreases NR_SYS_PROCS - j
  {
    assert KeptByTry(d, j, s, postponed, keep, done);
    if j < NR_SYS_PROCS {
      var r := TryNext(s, d, j);
      if !r.delivered {
        TryAsyncInduction(r.state, d, j + 1, postponed || r.postponed, keep, done);
      }
    }
  }

  lemma ScanIndex(t: seq<Entry>, i: nat, dst: int, replyPend: bool)
    requires i <= |t|
    ensures var r := ScanTable(t, i, dst, replyPend).scan;
      r.Found? ==> i <= r.index < |t| && t[r.index].Undone() && t[r.index].dst == dst
                   && !(t[r.index].noreply && replyPend)
    decreases |t| - i
  {
  }

  // -------------------------------------------------------------- mini_receive

  // The lowest bit in [lo, hi), or hi.
  function Lowest(bits: set<nat>, lo: nat, hi: nat): (r: nat)
    requires lo <= hi
    ensures lo <= r <= hi
    ensures r < hi ==> r in bits
    ensures forall b :: lo <= b < r ==> b !in bits
    decreases hi - lo
  {
    if lo == hi || lo in bits then lo else Lowest(bits, lo + 1, hi)
  }

  // The pending notification that a RECEIVE from srcE takes, NOBODY for none: only
  // the lowest bit of each chunk is looked at.
  ghost function NotifyPick(s: State, c: int, srcE: int): (id: int)
    requires Shape(s) && IsSlot(c)
    ensures id == NOBODY || (0 <= id < NR_SYS_PROCS && id in s.privs[s.cfg.priv[c]].notify)
  {
    var bits := s.privs[s.cfg.priv[c]].notify;
    var a := Lowest(bits, 0, CHUNK_BITS);
    var b := Lowest(bits, CHUNK_BITS, NR_SYS_PROCS);
    if a < CHUNK_BITS && (srcE == ANY || SlotOf(srcE) == s.cfg.owner[a]) then a
    else if b < NR_SYS_PROCS && (srcE == ANY || SlotOf(srcE) == s.cfg.owner[b]) then b
    else NOBODY
  }

  ghost function TakeNotify(s: State, c: int, id: int): (r: State)
    requires Shape(s) && IsSlot(c) && 0 <= id < NR_SYS_PROCS && s.cfg.owner[id] != NOBODY
    ensures Shape(r) && r.cfg == s.cfg
  {
    var v := s.cfg.priv[c];
    QueueNotify(SetPriv(s, v, s.privs[v].(notify := s.privs[v].notify - {id})), s.cfg.owner[id], c)
  }

  // The position in the caller queue of the sender a RECEIVE from srcE takes, or the
  // length of the queue.
  ghost function QueuePick(s: State, c: int, srcE: int): (k: nat)
    requires Shape(s) && IsSlot(c)
    ensures k <= |s.callq[c]|
  {
    if srcE == ANY || SlotOf(srcE) < 0 then 0 else Find(s.callq[c], SlotOf(srcE))
  }

  // Take the message of the k-th caller, take it off the queue and release it.
  ghost function TakeQueued(s: State, c: int, k: nat): (r: State)
    requires Shape(s) && IsSlot(c) && k < |s.callq[c]| && IsSlot(s.callq[c][k])
    ensures Shape(r) && r.cfg == s.cfg
  {
    var x := s.callq[c][k];
    var s1 := QueueMess(s, s.cfg.ep[x], s.procs[x].sendmsg, c);
    SetProc(s1, x, s1.procs[x].(sending := false))
      .(callq := s.callq[c := RemoveAt(s.callq[c], k)],
        log := SetPlace(s.log, s.procs[x].sendmsg.kind, AtReceiver))
  }

  ghost function BlockReceiver(s: State, c: int, srcE: int): (r: State)
    requires Shape(s) && IsSlot(c)
    ensures Shape(r) && r.cfg == s.cfg
  {
    SetProc(s, c, s.procs[c].(receiving := true, getfrom := srcE))
  }

  // Try to satisfy a RECEIVE from what is already there.
  ghost function ReceiveNow(s: State, c: int, srcE: int): (r: TryResult)
    requires Shape(s) && Refs(s) && IsSlot(c)
    requires srcE == ANY || IsSlot(SlotOf(srcE))
    ensures Shape(r.state) && r.state.cfg == s.cfg
  {
    var id := if s.procs[c].replyPend then NOBODY else NotifyPick(s, c, srcE);
    var k := QueuePick(s, c, srcE);
    if s.procs[c].sending then TryResult(s, false, false)
    else if id != NOBODY then TryResult(TakeNotify(s, c, id), true, false)
    else if k < |s.callq[c]| then
      var x := s.callq[c][k];
      var s1 := TakeQueued(s, c, k);
      TryResult(if s.procs[x].sigDelay then SigDelayDone(s1, x) else s1, true, false)
    else if !s.procs[c].asynMsg then TryResult(s, false, false)
    else if srcE != ANY then TryOne(s, SlotOf(srcE), c)
    else TryAsync(s, c, 0, false)
  }

  ghost function MiniReceive(s: State, c: int, srcE: int, mapped: bool, nonblocking: bool): (r: Outcome)
    requires Shape(s) && Refs(s) && IsSlot(c)
    requires srcE == ANY || IsSlot(SlotOf(srcE))
    ensures Shape(r.state) && r.state.cfg == s.cfg
  {
    if !mapped then Outcome(s, EFAULT)
    else if srcE != ANY && s.procs[SlotOf(srcE)].dead then Outcome(s, ESRCDIED)
    else
      var t := ReceiveNow(s, c, srcE);
      if t.delivered then Outcome(t.state, OK)
      else if nonblocking then Outcome(t.state, ENOTREADY)
      else if srcE != ANY && Deadlocked(t.state, Receive, c, SlotOf(srcE)) then Outcome(t.state, ELOCKED)
      else Outcome(BlockReceiver(t.state, c, srcE), OK)
  }

  // --------------------------------------------------------------- mini_senda

  datatype SendaResult = SendaResult(state: State, status: Status, done: bool)

  // Mark entry i as done without delivering it.
  ghost function RefuseEntry(s: State, v: nat, i: nat, result: Status): (r: State)
    requires Shape(s) && v < NR_SYS_PROCS && i < |s.privs[v].table|
    ensures Shape(r) && r.cfg == s.cfg
  {
    SetPriv(s, v, s.privs[v].(table := s.privs[v].table[i := DoneEntry(s.privs[v].table[i], result)]))
  }

  // One undone entry of a table that is being submitted.
  ghost function SendaEntry(s: State, c: int, i: nat): (r: SendaResult)
    requires Shape(s) && IsSlot(c) && i < |s.privs[s.cfg.priv[c]].table|
    ensures Shape(r.state) && r.state.cfg == s.cfg
    ensures |r.state.privs[s.cfg.priv[c]].table| == |s.privs[s.cfg.priv[c]].table|
  {
    var v := s.cfg.priv[c];
    var e := s.privs[v].table[i];
    var d := SlotOf(e.dst);
    if !OkEndpoint(s.cfg, e.dst) then SendaResult(RefuseEntry(s, v, i, EDEADSRCDST), OK, true)
    else if d < NR_TASKS then SendaResult(RefuseEntry(s, v, i, ECALLDENIED), OK, true)
    else if !MaySend(s.cfg, c, d) then SendaResult(RefuseEntry(s, v, i, ECALLDENIED), OK, true)
    else if s.procs[d].dead then SendaResult(RefuseEntry(s, v, i, EDSTDIED), OK, true)
    else if WillReceive(s.procs[d], s.cfg.ep[c]) && (!e.noreply || !s.procs[d].replyPend) then
      var s1 := DeliverEntry(s, v, c, i, d);
      SendaResult(SetProc(s1, d, s1.procs[d].(receiving := false)), OK, true)
    else SendaResult(SetProc(s, d, s.procs[d].(asynMsg := true)), OK, false)
  }

  // The scan of mini_senda from entry i on.
  ghost function SendaScan(s: State, c: int, i: nat, done: bool): (r: SendaResult)
    requires Shape(s) && IsSlot(c) && i <= |s.privs[s.cfg.priv[c]].table|
    ensures Shape(r.state) && r.state.cfg == s.cfg
    decreases |s.privs[s.cfg.priv[c]].table| - i
  {
    var t := s.privs[s.cfg.priv[c]].table;
    if i == |t| then SendaResult(s, OK, done)
    else if t[i].Empty() then SendaScan(s, c, i + 1, done)
    else if t[i].Malformed() then SendaResult(s, EINVAL, done)
    else if t[i].done then SendaScan(s, c, i + 1, done)
    else
      var r := SendaEntry(s, c, i);
      SendaScan(r.state, c, i + 1, done && r.done)
  }

  // The scan starts with the new table in place and not yet active.
  ghost function SendaStart(s: State, c: int, table: seq<Entry>): (r: State)
    requires Shape(s) && IsSlot(c)
    ensures Shape(r) && r.cfg == s.cfg
  {
    var v := s.cfg.priv[c];
    SetPriv(s, v, s.privs[v].(active := false, table := table, tableNo := s.privs[v].tableNo + 1))
  }

  ghost function MiniSenda(s: State, c: int, table: seq<Entry>, mapped: bool): (r: Outcome)
    requires Shape(s) && IsSlot(c)
    ensures Shape(r.state) && r.state.cfg == s.cfg
  {
    var v := s.cfg.priv[c];
    var idle := SetPriv(s, v, s.privs[v].(active := false));
    if !s.cfg.sysProc[v] then Outcome(s, EPERM)
    else if table == [] then Outcome(idle, OK)
    else if !mapped then Outcome(idle, EFAULT)
    else if |table| > 16 * NR_SLOTS then Outcome(idle, EDOM)
    else
      var r := SendaScan(SendaStart(s, c, table), c, 0, true);
      if r.status == OK && !r.done
      then Outcome(SetPriv(r.state, v, r.state.privs[v].(active := true)), OK)
      else Outcome(r.state, r.status)
  }

  // ----------------------------------------------------------------- sys_call

  datatype Call = Call(nr: int, ep: int, buf: Buf, table: seq<Entry>)

  const SEND := 1
  const RECEIVE := 2
  const SENDREC := 3
  const NOTIFY := 4
  const SENDNB := 5
  const SENDA := 16

  // The checks of sys_call before any message is moved.
  ghost function CallCheck(s: State, c: int, call: Call): (r: Status)
    requires Shape(s) && IsSlot(c)
  {
    if call.nr != SENDA && call.ep == ANY && call.nr != RECEIVE then EINVAL
    else if call.nr != SENDA && call.ep != ANY && !OkEndpoint(s.cfg, call.ep) then EDEADSRCDST
    else if call.nr != SENDA && call.ep != ANY && call.nr != RECEIVE && !MaySend(s.cfg, c, SlotOf(call.ep))
    then ECALLDENIED
    else if call.nr < 0 || call.nr >= 32 then ETRAPDENIED
    else if call.nr !in s.cfg.traps[s.cfg.priv[c]] then ETRAPDENIED
    else if call.nr != SENDREC && call.nr != RECEIVE && call.nr != SENDA && SlotOf(call.ep) < NR_TASKS
    then ETRAPDENIED
    else if call.nr == SENDA && |call.table| > 16 * NR_SLOTS then EDOM
    else if call.nr !in {SEND, RECEIVE, SENDREC, NOTIFY, SENDNB, SENDA} then EBADCALL
    else OK
  }

  ghost function WithReplyPend(s: State, c: int, b: bool): (r: State)
    requires Shape(s) && IsSlot(c)
    ensures Shape(r) && r.cfg == s.cfg
  {
    SetProc(s, c, s.procs[c].(replyPend := b))
  }

  ghost function SysCall(s: State, c: int, call: Call): (r: Outcome)
    requires Shape(s) && Refs(s) && IsSlot(c)
    ensures Shape(r.state) && r.state.cfg == s.cfg
  {
    var check := CallCheck(s, c, call);
    if check != OK then Outcome(s, check)
    else if call.nr == SEND then MiniSend(s, c, call.ep, call.buf, false)
    else if call.nr == SENDNB then MiniSend(s, c, call.ep, call.buf, true)
    else if call.nr == RECEIVE then
      MiniReceive(WithReplyPend(s, c, false), c, call.ep, call.buf.mapped, false)
    else if call.nr == SENDREC then
      SendRec(WithReplyPend(s, c, true), c, call.ep, call.buf)
    else if call.nr == NOTIFY then MiniNotify(s, c, call.ep)
    else MiniSenda(s, c, call.table, call.buf.mapped)
  }

  lemma MiniSendShape(s: State, c: int, dstE: int, buf: Buf, nonblocking: bool)
    requires Shape(s) && Refs(s) && IsSlot(c) && IsSlot(SlotOf(dstE))
    ensures var r := MiniSend(s, c, dstE, buf, nonblocking).state; Shape(r) && Refs(r)
  {
  }

  ghost function SendRec(s: State, c: int, ep: int, buf: Buf): (r: Outcome)
    requires Shape(s) && Refs(s) && IsSlot(c) && IsSlot(SlotOf(ep))
    ensures Shape(r.state) && r.state.cfg == s.cfg
  {
    var r := MiniSend(s, c, ep, buf, false);
    MiniSendShape(s, c, ep, buf, false);
    if r.status != OK then r else MiniReceive(r.state, c, ep, buf.mapped, false)
  }

  // ----------------------------------------------------------- clear_endpoint

  // What the death of rc does to another process.
  function Released(p: Proc, e: int): (r: Proc) {
    var p1 := if p.receiving && p.getfrom == e then p.(receiving := false, retreg := ESRCDIED) else p;
    if p1.sending && p1.sendto == e then p1.(sending := false, retreg := EDSTDIED) else p1
  }

  // The dying process itself: no endpoint, not sending, not receiving.
  function Buried(p: Proc): (r: Proc) {
    p.(dead := true, sending := false, receiving := false)
  }

  ghost predicate InUse(s: State, j: nat)
    requires Shape(s)
  {
    exists i :: 0 <= i < NR_SLOTS && !s.cfg.free[i] && s.cfg.priv[i] == j
  }

  ghost function ClearedProcs(s: State, rc: int): (r: seq<Proc>)
    requires Shape(s) && IsSlot(rc)
    ensures |r| == |s.procs|
  {
    seq(|s.procs|, i requires 0 <= i < |s.procs| =>
      if i == rc then Buried(s.procs[i])
      else if s.cfg.free[i] then s.procs[i]
      else Released(s.procs[i], s.cfg.ep[rc]))
  }

  ghost function ClearedPrivs(s: State, rc: int): (r: seq<Priv>)
    requires Shape(s) && IsSlot(rc)
    ensures |r| == |s.privs|
  {
    seq(|s.privs|, j requires 0 <= j < |s.privs| =>
      var v := s.privs[j].(active := s.privs[j].active && !(s.cfg.priv[rc] == j && s.cfg.sysProc[j]));
      if InUse(s, j) then v.(notify := v.notify - {s.cfg.priv[rc]}) else v)
  }

  function ClearedLog(s: State, rc: int): (r: seq<Transfer>)
    ensures |r| == |s.log|
  {
    seq(|s.log|, t requires 0 <= t < |s.log| =>
      if s.log[t].place == AtSender && (s.log[t].src == rc || s.log[t].dst == rc)
      then s.log[t].(place := Withdrawn) else s.log[t])
  }

  ghost function ClearEndpoint(s: State, rc: int): (r: State)
    requires Shape(s) && IsSlot(rc)
    ensures Shape(r) && r.cfg == s.cfg
  {
    var p := s.procs[rc];
    var d := SlotOf(p.sendto);
    State(s.cfg, ClearedProcs(s, rc),
          if p.sending && 0 <= d < |s.callq| then s.callq[d := Remove(s.callq[d], rc)] else s.callq,
          ClearedPrivs(s, rc), ClearedLog(s, rc), s.asyncLog)
  }

  // --------------------------------------------------------------- delivermsg

  // The message is copied out to the process before it runs.
  ghost function CopyOut(s: State, p: int): (r: State)
    requires Shape(s) && IsSlot(p)
    ensures Shape(r) && r.cfg == s.cfg
  {
    var m := s.procs[p].inbox;
    SetProc(s, p, s.procs[p].(inbox := None))
      .(log := if m.Some? then SetPlace(s.log, m.value.payload.kind, CopiedOut) else s.log)
  }

  // do_getksig takes the pending signals of p.
  ghost function TakeSignals(s: State, p: int): (r: State)
    requires Shape(s) && IsSlot(p)
    ensures Shape(r) && r.cfg == s.cfg
  {
    SetProc(s, p, s.procs[p].(pending := {}, signaled := false))
  }
}
