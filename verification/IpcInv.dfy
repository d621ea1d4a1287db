/**
 The invariants of message passing.  Each is a property of a single state; together
 they are kept by every operation (IpcKeeps) and hold in every reachable state.
 */
module IpcInv {
  import opened Seqs
  import opened IpcState

  predicate Live(s: State, i: int)
    requires |s.cfg.free| == |s.procs| && 0 <= i < |s.procs|
  {
    !s.cfg.free[i] && !s.procs[i].dead
  }

  // Only live processes block, and only on live processes.
  ghost predicate Blocking(s: State)
    requires Shape(s)
  {
    forall i :: 0 <= i < NR_SLOTS ==> BlockingAt(s, i)
  }

  ghost predicate BlockingAt(s: State, i: int)
    requires Shape(s) && IsSlot(i)
  {
    var p := s.procs[i];
    && (p.sending || p.receiving ==> Live(s, i))
    && (p.sending ==> OkEndpoint(s.cfg, p.sendto) && Live(s, SlotOf(p.sendto)))
    && (p.receiving && p.getfrom != ANY ==> OkEndpoint(s.cfg, p.getfrom) && Live(s, SlotOf(p.getfrom)))
    && (p.receiving && p.sending ==> p.getfrom == p.sendto)
    && (p.receiving && p.getfrom == ANY ==> !p.replyPend)
    && (p.receiving ==> p.inbox.None?)
  }

  // The queue of a live process holds exactly the processes blocked sending to it.
  ghost predicate Queues(s: State)
    requires Shape(s)
  {
    forall i :: 0 <= i < NR_SLOTS && Live(s, i) ==> QueueAt(s, i)
  }

  ghost predicate SendsTo(s: State, x: int, i: int)
    requires Shape(s)
  {
    IsSlot(x) && s.procs[x].sending && SlotOf(s.procs[x].sendto) == i
  }

  ghost predicate QueueAt(s: State, i: int)
    requires Shape(s) && IsSlot(i)
  {
    && NoDup(s.callq[i])
    && (forall x: nat :: x in s.callq[i] <==> SendsTo(s, x, i))
  }

  // No receiver waits for a message that a blocked sender holds for it.
  ghost predicate Rendezvous(s: State)
    requires Shape(s)
  {
    forall p, x {:trigger SendsTo(s, x, p)} :: 0 <= p < NR_SLOTS && 0 <= x < NR_SLOTS && SendsTo(s, x, p) ==>
      !WillReceive(s.procs[p], s.cfg.ep[x])
  }

  function Tag(p: Proc): (t: int) {
    if p.sendmsg.kind.Direct? then p.sendmsg.kind.tag else -1
  }

  // Callers are queued in the order their sends were accepted.
  ghost predicate Arrival(s: State)
    requires Shape(s) && Refs(s)
  {
    forall i :: 0 <= i < NR_SLOTS && Live(s, i) ==> ArrivalAt(s, i)
  }

  ghost predicate ArrivalAt(s: State, i: int)
    requires Shape(s) && Refs(s) && IsSlot(i)
  {
    forall a, b :: 0 <= a < b < |s.callq[i]| ==>
      Tag(s.procs[s.callq[i][a]]) < Tag(s.procs[s.callq[i][b]])
  }

  // Where each accepted message is: with its blocked sender, with its receiver, copied
  // out, or withdrawn because one of the two died.
  ghost predicate Delivery(s: State)
    requires Shape(s)
  {
    && (forall x :: 0 <= x < NR_SLOTS ==> SenderHolds(s, x) && ReceiverHolds(s, x))
    && (forall t :: 0 <= t < |s.log| ==> PlaceHeld(s, t))
  }

  ghost predicate SenderHolds(s: State, x: int)
    requires Shape(s) && IsSlot(x)
  {
    var p := s.procs[x];
    p.sending ==>
      && 0 <= Tag(p) < |s.log|
      && s.log[Tag(p)] == Transfer(x, s.cfg.ep[x], SlotOf(p.sendto), p.sendmsg.body, AtSender)
  }

  ghost predicate ReceiverHolds(s: State, x: int)
    requires Shape(s) && IsSlot(x)
  {
    var m := s.procs[x].inbox;
    m.Some? && m.value.payload.kind.Direct? ==>
      var t := m.value.payload.kind.tag;
      && t < |s.log|
      && s.log[t].place == AtReceiver && s.log[t].dst == x
      && s.log[t].srcEp == m.value.source && s.log[t].body == m.value.payload.body
  }

  ghost predicate PlaceHeld(s: State, t: int)
    requires Shape(s) && 0 <= t < |s.log|
  {
    && (s.log[t].place == AtSender ==>
          IsSlot(s.log[t].src) && s.procs[s.log[t].src].sending && Tag(s.procs[s.log[t].src]) == t)
    && (s.log[t].place == AtReceiver ==>
          IsSlot(s.log[t].dst) && s.procs[s.log[t].dst].inbox.Some?
          && s.procs[s.log[t].dst].inbox.value.payload.kind == Direct(t))
  }

  // A process with a privilege structure of its own.
  ghost predicate OwnPriv(g: Config, i: int)
    requires ConfigOk(g) && IsSlot(i)
  {
    forall k :: 0 <= k < NR_SLOTS && !g.free[k] && g.priv[k] == g.priv[i] ==> k == i
  }

  // A process blocked in RECEIVE from ANY has no notification pending.
  ghost predicate Notified(s: State)
    requires Shape(s)
  {
    forall i :: 0 <= i < NR_SLOTS && OwnPriv(s.cfg, i) && s.procs[i].receiving && s.procs[i].getfrom == ANY ==>
      s.privs[s.cfg.priv[i]].notify == {}
  }

  // Pending kernel signals are announced: the SYSTEM bit is set.
  ghost predicate Signals(s: State)
    requires Shape(s)
  {
    forall j :: 0 <= j < NR_SYS_PROCS && s.privs[j].sigPending != {} ==> s.cfg.priv[SYSTEM] in s.privs[j].notify
  }

  // Who is blocked, and on which queue.
  ghost predicate Core(s: State) {
    Shape(s) && Refs(s) && Blocking(s) && Queues(s) && Rendezvous(s)
  }

  // Where the messages are.
  ghost predicate Mail(s: State)
    requires Shape(s) && Refs(s)
  {
    Arrival(s) && Delivery(s)
  }

  ghost predicate Base(s: State) {
    Core(s) && Mail(s) && Notified(s) && !s.procs[PM].sigDelay
  }

  // A process that can trap into the kernel.
  predicate Running(s: State, c: int)
    requires |s.cfg.free| == |s.procs|
  {
    0 <= c < |s.procs| && Live(s, c) && !s.procs[c].sending && !s.procs[c].receiving && s.procs[c].inbox.None?
  }
}
