/**
 Runs of the message-passing kernel: any sequence of traps, interrupts, signals, message
 deliveries and deaths, from boot or from any state that satisfies the invariant.
 */
module IpcRuns {
  import opened Options
  import opened Seqs
  import opened WaitGraph
  import opened IpcState
  import opened IpcSteps
  import opened IpcInv
  import opened IpcKeeps
  import opened IpcCalls
  import opened IpcDeath
  import opened IpcDeadlock
  import opened IpcHistory
  import opened IpcTraps
  import opened IpcSendRec
  import opened IpcSignals
  import opened IpcAsync

  datatype Event =
    | Trap(caller: int, call: Call)       // sys_call
    | Notify(src: int, dstE: int)         // mini_notify by an interrupt handler or task
    | Signal(proc: int, sig: int)         // cause_sig
    | TakeSignal(proc: int)               // do_getksig
    | Deliver(proc: int)                  // delivermsg
    | Die(proc: int)                      // clear_endpoint

  ghost predicate Enabled(s: State, ev: Event)
    requires Base(s)
  {
    match ev
    case Trap(c, _) => Running(s, c)
    case Notify(src, _) => IsSlot(src) && !s.cfg.free[src]
    case Signal(p, _) => IsSlot(p) && p != PM
    case TakeSignal(p) => IsSlot(p)
    case Deliver(p) => IsSlot(p) && s.procs[p].inbox.Some?
    case Die(rc) => IsSlot(rc) && !s.cfg.free[rc] && rc !in {PM, VFS, VM}
  }

  ghost function Apply(s: State, ev: Event): (r: State)
    requires Base(s) && Enabled(s, ev)
    ensures Shape(r)
  {
    match ev
    case Trap(c, call) => SysCall(s, c, call).state
    case Notify(src, dstE) => MiniNotify(s, src, dstE).state
    case Signal(p, sig) => CauseSig(s, p, sig)
    case TakeSignal(p) => TakeSignals(s, p)
    case Deliver(p) => CopyOut(s, p)
    case Die(rc) => ClearEndpoint(s, rc)
  }

  ghost predicate Inv(s: State) {
    Base(s) && Acyclic(Waits(s)) && Signals(s) && AsyncInv(s)
  }

  // Left out of the guarantees: a process that blocks on itself, and the death of a
  // process that uses the privilege structure of SYSTEM while signals are pending.
  ghost predicate Proper(s: State, ev: Event)
    requires Base(s) && Enabled(s, ev)
  {
    match ev
    case Trap(c, call) => !BlocksOnSelf(s, c, call)
    case Die(rc) =>
      s.cfg.priv[rc] != s.cfg.priv[SYSTEM] || forall j :: 0 <= j < NR_SYS_PROCS && InUse(s, j) ==> s.privs[j].sigPending == {}
    case _ => true
  }

  lemma StepKeepsBase(s: State, ev: Event)
    requires Base(s) && Enabled(s, ev)
    ensures Base(Apply(s, ev))
  {
    match ev
    case Trap(c, call) => SysCallKeeps(s, c, call);
    case Notify(src, dstE) => MiniNotifyKeeps(s, src, dstE);
    case Signal(p, sig) => CauseSigKeeps(s, p, sig);
    case TakeSignal(p) => BaseFrame(s, TakeSignals(s, p));
    case Deliver(p) => CopyOutKeeps(s, p);
    case Die(rc) => ClearEndpointKeeps(s, rc);
  }

  // The process a step runs for; the others are bystanders.
  function Actor(ev: Event): (a: int) {
    match ev
    case Trap(c, _) => c
    case Deliver(p) => p
    case _ => NOBODY
  }

  lemma DeathEvolves(s: State, rc: int)
    requires Base(s) && IsSlot(rc)
    ensures Evolves(s, ClearEndpoint(s, rc), NOBODY)
  {
    var r := ClearEndpoint(s, rc);
    forall i | 0 <= i < NR_SLOTS ensures Bystander(s.procs[i], r.procs[i]) && LetGo(s, r, i) {
      DeathSeen(s, rc, i);
    }
  }

  lemma DeathSeen(s: State, rc: int, i: int)
    requires Base(s) && IsSlot(rc) && IsSlot(i)
    ensures var r := ClearEndpoint(s, rc); Bystander(s.procs[i], r.procs[i]) && LetGo(s, r, i)
  {
    ReleasedSends(s, rc, i);
  }

  lemma StepEvolves(s: State, ev: Event)
    requires Base(s) && Enabled(s, ev)
    ensures Evolves(s, Apply(s, ev), Actor(ev))
  {
    match ev
    case Trap(c, call) => SysCallEvolves(s, c, call);
    case Notify(src, dstE) => MiniNotifyEvolves(s, src, dstE, NOBODY);
    case Signal(p, sig) => CauseSigEvolves(s, p, sig, NOBODY);
    case TakeSignal(p) =>
    case Deliver(p) => CopyOutEvolves(s, p);
    case Die(rc) => DeathEvolves(s, rc);
  }

  lemma CopyOutEvolves(s: State, p: int)
    requires Base(s) && IsSlot(p)
    ensures Evolves(s, CopyOut(s, p), p)
  {
    assert ReceiverHolds(s, p);
    TakenOut(s, p);
  }

  lemma TakenOut(s: State, p: int)
    requires Shape(s) && IsSlot(p) && ReceiverHolds(s, p)
    ensures Evolves(s, CopyOut(s, p), p)
  {
  }

  /** One step keeps the graph of waits free of cycles, if and only if it is not a
      process blocking on itself. */
  lemma StepAcyclic(s: State, ev: Event)
    requires Base(s) && Enabled(s, ev) && Acyclic(Waits(s))
    ensures Acyclic(Waits(Apply(s, ev))) <==> !(ev.Trap? && BlocksOnSelf(s, ev.caller, ev.call))
  {
    if ev.Trap? {
      SysCallAcyclic(s, ev.caller, ev.call);
    } else {
      StepEvolves(s, ev);
      EvolvesAcyclic(s, Apply(s, ev), Actor(ev));
    }
  }

  lemma StepKeepsSignals(s: State, ev: Event)
    requires Base(s) && Enabled(s, ev) && Signals(s)
    ensures Signals(Apply(s, ev)) <==> (ev.Die? ==> Proper(s, ev))
  {
    match ev
    case Trap(c, call) => SysCallSignals(s, c, call);
    case Notify(src, dstE) => NotifySignals(s, src, dstE);
    case Signal(p, sig) => CauseSigSignals(s, p, sig);
    case TakeSignal(p) => SignalsFrame(s, TakeSignals(s, p));
    case Deliver(p) => SignalsFrame(s, CopyOut(s, p));
    case Die(rc) => ClearEndpointSignals(s, rc);
  }

  lemma StepKeepsAsync(s: State, ev: Event)
    requires Base(s) && Enabled(s, ev) && AsyncInv(s)
    ensures AsyncInv(Apply(s, ev))
  {
    match ev
    case Trap(c, call) => SysCallAsync(s, c, call);
    case Notify(src, dstE) => MiniNotifyAsync(s, src, dstE);
    case Signal(p, sig) => CauseSigAsync(s, p, sig);
    case TakeSignal(p) => AsyncFrame(s, TakeSignals(s, p));
    case Deliver(p) => AsyncFrame(s, CopyOut(s, p));
    case Die(rc) => ClearEndpointAsync(s, rc);
  }

  /** One step keeps the whole invariant if and only if it is a proper one. */
  lemma StepKeepsInv(s: State, ev: Event)
    requires Inv(s) && Enabled(s, ev)
    ensures Inv(Apply(s, ev)) <==> Proper(s, ev)
  {
    StepKeepsBase(s, ev);
    StepAcyclic(s, ev);
    StepKeepsSignals(s, ev);
    StepKeepsAsync(s, ev);
  }

  // --------------------------------------------------------------------- runs

  ghost predicate Legal(s: State, evs: seq<Event>)
    requires Inv(s)
    decreases |evs|
  {
    evs == [] ||
    (&& Enabled(s, evs[0]) && Proper(s, evs[0])
     && (StepKeepsInv(s, evs[0]); Legal(Apply(s, evs[0]), evs[1..])))
  }

  ghost function After(s: State, evs: seq<Event>): (r: State)
    requires Inv(s) && Legal(s, evs)
    ensures Inv(r)
    decreases |evs|
  {
    if evs == [] then s else
      StepKeepsInv(s, evs[0]);
      After(Apply(s, evs[0]), evs[1..])
  }

  // Nothing has happened yet.
  ghost predicate Boot(s: State) {
    && Shape(s) && s.log == [] && s.asyncLog == []
    && (forall i :: 0 <= i < NR_SLOTS ==>
          !s.procs[i].sending && !s.procs[i].receiving && s.procs[i].inbox.None? && s.callq[i] == [])
    && (forall j :: 0 <= j < NR_SYS_PROCS ==>
          s.privs[j].notify == {} && s.privs[j].sigPending == {} && !s.privs[j].active)
    && !s.procs[PM].sigDelay
  }

  lemma BootInv(s: State)
    requires Boot(s)
    ensures Inv(s)
  {
    forall i | 0 <= i < NR_SLOTS ensures BlockingAt(s, i) && QueueAt(s, i) {
    }
    assert Refs(s);
    forall i | 0 <= i < NR_SLOTS ensures ArrivalAt(s, i) && SenderHolds(s, i) && ReceiverHolds(s, i) {
    }
    NobodyWaits(Waits(s));
  }

  // A kernel of 32 processes with a privilege structure each, and two more that share the one
  // of user processes.  All may send to PM, VFS and VM; user processes trap as they are told.
  ghost function SomeConfig(users: set<int>): (g: Config) {
    Config(seq(NR_SLOTS, i => i - NR_TASKS), seq(NR_SLOTS, i => i >= NR_SYS_PROCS + 2),
           seq(NR_SLOTS, i requires 0 <= i < NR_SLOTS => if i < NR_SYS_PROCS then i else USER_PRIV),
           seq(NR_SYS_PROCS, i => i), seq(NR_SYS_PROCS, i => i != USER_PRIV),
           seq(NR_SYS_PROCS, i => if i == USER_PRIV then users else {SEND, RECEIVE, SENDREC, NOTIFY, SENDNB, SENDA}),
           seq(NR_SYS_PROCS, _ => {PM, VFS, VM}))
  }

  /** There is a kernel to start from, with processes that can trap. */
  lemma BootPossible(users: set<int>) returns (s: State)
    ensures Boot(s) && Inv(s) && s.cfg == SomeConfig(users)
    ensures forall c :: NR_TASKS <= c < NR_SYS_PROCS + 2 ==> Running(s, c)
  {
    var m := Payload(Direct(0), 0);
    var p := Proc(false, false, false, 0, 0, m, None, false, false, false, false, {}, OK);
    s := State(SomeConfig(users), seq(NR_SLOTS, _ => p), seq(NR_SLOTS, _ => []),
               seq(NR_SYS_PROCS, _ => Priv({}, {}, {}, false, [], 0)), [], []);
    BootInv(s);
  }

  /** In every reachable state the processes that wait for each other form no cycle. */
  lemma NoDeadlockEver(s: State, evs: seq<Event>)
    requires Inv(s) && Legal(s, evs)
    ensures NoCycle(Waits(After(s, evs)))
  {
    AcyclicIffNoCycle(Waits(After(s, evs)));
  }

  /** In every reachable state no process waits in RECEIVE for a sender that is blocked
      sending to it, and one that receives from ANY has nobody queued and, with a
      privilege structure of its own, no notification pending. */
  lemma NoMissedRendezvous(s: State, evs: seq<Event>)
    requires Inv(s) && Legal(s, evs)
    ensures var r := After(s, evs);
      && (forall p, x :: 0 <= p < NR_SLOTS && 0 <= x < NR_SLOTS && r.procs[x].sending && r.procs[x].sendto == r.cfg.ep[p]
            ==> !WillReceive(r.procs[p], r.cfg.ep[x]))
      && (forall p :: 0 <= p < NR_SLOTS && r.procs[p].receiving && r.procs[p].getfrom == ANY ==>
            r.callq[p] == [] && (OwnPriv(r.cfg, p) ==> r.privs[r.cfg.priv[p]].notify == {}))
  {
    var r := After(s, evs);
    forall p, x | 0 <= p < NR_SLOTS && 0 <= x < NR_SLOTS && r.procs[x].sending && r.procs[x].sendto == r.cfg.ep[p]
      ensures !WillReceive(r.procs[p], r.cfg.ep[x])
    {
      assert SendsTo(r, x, p);
    }
    forall p | 0 <= p < NR_SLOTS && r.procs[p].receiving && r.procs[p].getfrom == ANY ensures r.callq[p] == [] {
      NobodyQueued(r, p);
    }
  }

  lemma NobodyQueued(s: State, p: int)
    requires Core(s) && IsSlot(p) && s.procs[p].receiving && s.procs[p].getfrom == ANY
    ensures s.callq[p] == []
  {
    assert BlockingAt(s, p) && QueueAt(s, p);
    assert SlotOf(ANY) >= NR_SLOTS;
    forall x: nat ensures x !in s.callq[p] {
      assert x in s.callq[p] <==> SendsTo(s, x, p);
    }
    SomeMember(s.callq[p]);
  }

  /** The caller queue of a live process: exactly the processes blocked sending to it,
      each once, in the order their sends were accepted, and none on two queues. */
  lemma CallerQueuesExact(s: State, evs: seq<Event>)
    requires Inv(s) && Legal(s, evs)
    ensures var r := After(s, evs);
      && (forall i :: 0 <= i < NR_SLOTS && Live(r, i) ==>
            && NoDup(r.callq[i])
            && (forall x: nat :: x in r.callq[i] <==>
                  x < NR_SLOTS && r.procs[x].sending && r.procs[x].sendto == r.cfg.ep[i]))
      && (forall i, a, b :: 0 <= i < NR_SLOTS && Live(r, i) && 0 <= a < b < |r.callq[i]| ==>
            Tag(r.procs[r.callq[i][a]]) < Tag(r.procs[r.callq[i][b]]))
      && (forall i, k, x: nat ::
            (0 <= i < NR_SLOTS && 0 <= k < NR_SLOTS && Live(r, i) && Live(r, k)
             && x in r.callq[i] && x in r.callq[k]) ==> i == k)
  {
    var r := After(s, evs);
    forall i | 0 <= i < NR_SLOTS && Live(r, i)
      ensures NoDup(r.callq[i]) && ArrivalAt(r, i)
      ensures forall x: nat :: x in r.callq[i] <==>
        x < NR_SLOTS && r.procs[x].sending && r.procs[x].sendto == r.cfg.ep[i]
    {
      assert QueueAt(r, i) && ArrivalAt(r, i);
      forall x: nat ensures x in r.callq[i] <==>
        x < NR_SLOTS && r.procs[x].sending && r.procs[x].sendto == r.cfg.ep[i]
      {
        assert x in r.callq[i] <==> SendsTo(r, x, i);
        if x < NR_SLOTS && r.procs[x].sending {
          assert BlockingAt(r, x);
        }
      }
    }
  }

  // ------------------------------------------------------------------ delivery

  lemma LogTrans(a: seq<Transfer>, b: seq<Transfer>, c: seq<Transfer>)
    requires LogAdvances(a, b) && LogAdvances(b, c)
    ensures LogAdvances(a, c)
  {
    forall t | 0 <= t < |a| ensures MovesOn(a[t].place, c[t].place) && c[t] == a[t].(place := c[t].place) {
      assert MovesOn(a[t].place, b[t].place) && MovesOn(b[t].place, c[t].place);
    }
  }

  lemma {:induction false} RunAdvances(s: State, evs: seq<Event>)
    requires Inv(s) && Legal(s, evs)
    ensures LogAdvances(s.log, After(s, evs).log)
    ensures forall i :: 0 <= i < NR_SLOTS && s.procs[i].dead ==> After(s, evs).procs[i].dead
    ensures After(s, evs).cfg == s.cfg
    decreases |evs|
  {
    if evs != [] {
      StepKeepsInv(s, evs[0]);
      StepEvolves(s, evs[0]);
      var m := Apply(s, evs[0]);
      RunAdvances(m, evs[1..]);
      LogTrans(s.log, m.log, After(s, evs).log);
      forall i | 0 <= i < NR_SLOTS && s.procs[i].dead ensures m.procs[i].dead {
        assert i != Actor(evs[0]) ==> Bystander(s.procs[i], m.procs[i]);
      }
    }
  }

  // Where the kernel holds message t of the log.
  ghost predicate HeldBySender(s: State, t: nat, x: int)
    requires Shape(s)
  {
    IsSlot(x) && s.procs[x].sending && s.procs[x].sendmsg.kind == Direct(t)
  }

  ghost predicate HeldByReceiver(s: State, t: nat, x: int)
    requires Shape(s)
  {
    IsSlot(x) && s.procs[x].inbox.Some? && s.procs[x].inbox.value.payload.kind == Direct(t)
  }

  /** Exactly once.  Over any run a message that was accepted is held in exactly one
      place, by its blocked sender or by its receiver, until it is copied out or one of
      the two dies; what the receiver holds carries the sender's endpoint and body; it
      never moves back, so it is never delivered twice and never overwritten. */
  lemma ExactlyOnce(s: State, evs: seq<Event>, t: nat)
    requires Inv(s) && Legal(s, evs) && t < |s.log|
    ensures var r := After(s, evs);
      && t < |r.log| && MovesOn(s.log[t].place, r.log[t].place) && r.log[t] == s.log[t].(place := r.log[t].place)
      && (forall x :: HeldBySender(r, t, x) <==> r.log[t].place == AtSender && x == r.log[t].src)
      && (forall x :: HeldByReceiver(r, t, x) <==> r.log[t].place == AtReceiver && x == r.log[t].dst)
      && (forall x :: HeldBySender(r, t, x) ==> r.procs[x].sendmsg.body == s.log[t].body)
      && (forall x :: HeldByReceiver(r, t, x) ==>
            r.procs[x].inbox.value == Msg(s.log[t].srcEp, Payload(Direct(t), s.log[t].body)))
  {
    RunAdvances(s, evs);
    var r := After(s, evs);
    assert PlaceHeld(r, t);
    forall x
      ensures HeldBySender(r, t, x) <==> r.log[t].place == AtSender && x == r.log[t].src
      ensures HeldByReceiver(r, t, x) <==> r.log[t].place == AtReceiver && x == r.log[t].dst
      ensures HeldBySender(r, t, x) ==> r.procs[x].sendmsg.body == s.log[t].body
      ensures HeldByReceiver(r, t, x) ==>
        r.procs[x].inbox.value == Msg(s.log[t].srcEp, Payload(Direct(t), s.log[t].body))
    {
      if IsSlot(x) {
        assert SenderHolds(r, x) && ReceiverHolds(r, x);
      }
    }
  }

  /** Asynchronous sends over any run: of one table no entry is delivered twice, entries
      without AMF_NOREPLY reach a destination in table order, and a live destination of an
      undone entry of an active table has MF_ASYNMSG set. */
  lemma AsyncAtMostOnceInOrder(s: State, evs: seq<Event>)
    requires Inv(s) && Legal(s, evs)
    ensures var r := After(s, evs);
      && (forall x, y :: 0 <= x < y < |r.asyncLog| && SameTable(r.asyncLog[x], r.asyncLog[y]) ==>
            && r.asyncLog[x].index != r.asyncLog[y].index
            && (r.asyncLog[x].dst == r.asyncLog[y].dst && !r.asyncLog[x].noreply && !r.asyncLog[y].noreply ==>
                  r.asyncLog[x].index < r.asyncLog[y].index))
      && (forall v, i, d ::
            (0 <= v < NR_SYS_PROCS && r.privs[v].active && 0 <= d < NR_SLOTS && Live(r, d) && Pending(r, v, i, d)) ==>
              r.procs[d].asynMsg)
  {
    var r := After(s, evs);
    forall v, i, d | 0 <= v < NR_SYS_PROCS && r.privs[v].active && 0 <= d < NR_SLOTS && Live(r, d) && Pending(r, v, i, d)
      ensures r.procs[d].asynMsg
    {
      assert Announced(r, v, |r.privs[v].table|);
    }
  }

  /** Kernel signals are never stranded: over any run, where signals are pending the bit of
      SYSTEM is set. */
  lemma SignalsNeverStranded(s: State, evs: seq<Event>, p: int)
    requires Inv(s) && Legal(s, evs) && IsSlot(p)
    ensures var r := After(s, evs);
      r.privs[r.cfg.priv[p]].sigPending != {} ==> r.cfg.priv[SYSTEM] in r.privs[r.cfg.priv[p]].notify
  {
    var r := After(s, evs);
    assert 0 <= r.cfg.priv[p] < NR_SYS_PROCS;
  }

  /** Once an endpoint is cleared no run makes anybody wait for it again. */
  lemma NobodyBlocksOnDead(s: State, evs: seq<Event>, rc: int)
    requires Inv(s) && Legal(s, evs) && IsSlot(rc) && s.procs[rc].dead
    ensures forall x :: 0 <= x < NR_SLOTS ==> WaitOf(After(s, evs).procs[x], NR_SLOTS) != rc
    ensures WaitOf(After(s, evs).procs[rc], NR_SLOTS) == NOBODY
  {
    RunAdvances(s, evs);
    var r := After(s, evs);
    assert BlockingAt(r, rc);
    forall x | 0 <= x < NR_SLOTS ensures WaitOf(r.procs[x], NR_SLOTS) != rc {
      assert BlockingAt(r, x);
    }
  }

  // Waiting for the reply of e.
  predicate AwaitsReply(p: Proc, e: int) {
    p.receiving && p.replyPend && p.getfrom == e
  }

  // The reply has come, or the process itself or its partner has died, of which it is told.
  ghost predicate Replied(s: State, c: int, e: int)
    requires Shape(s) && IsSlot(c) && IsSlot(SlotOf(e))
  {
    var p := s.procs[c];
    && !p.receiving
    && if p.inbox.Some? then Got(p, e, true) else p.dead || (s.procs[SlotOf(e)].dead && ToldOfDeath(p))
  }

  // One step of a process that waits for a reply.
  lemma ReplyStep(s: State, ev: Event, p: int, e: int)
    requires Inv(s) && Enabled(s, ev) && IsSlot(p) && AwaitsReply(s.procs[p], e)
    ensures IsSlot(SlotOf(e)) && (AwaitsReply(Apply(s, ev).procs[p], e) || Replied(Apply(s, ev), p, e))
  {
    StepEvolves(s, ev);
    assert BlockingAt(s, p);
    assert Actor(ev) != p;
    assert Bystander(s.procs[p], Apply(s, ev).procs[p]) && LetGo(s, Apply(s, ev), p);
  }

  // p receives in every state of a run before the last.
  ghost predicate ReceivesThroughout(s: State, evs: seq<Event>, p: int)
    requires Inv(s) && Legal(s, evs) && IsSlot(p)
    decreases |evs|
  {
    evs == [] ||
    (s.procs[p].receiving && (StepKeepsInv(s, evs[0]); ReceivesThroughout(Apply(s, evs[0]), evs[1..], p)))
  }

  lemma {:induction false} ReplyOverRun(s: State, evs: seq<Event>, p: int, e: int)
    requires Inv(s) && Legal(s, evs) && IsSlot(p) && AwaitsReply(s.procs[p], e) && ReceivesThroughout(s, evs, p)
    ensures AwaitsReply(After(s, evs).procs[p], e) || (IsSlot(SlotOf(e)) && Replied(After(s, evs), p, e))
    decreases |evs|
  {
    if evs != [] {
      StepKeepsInv(s, evs[0]);
      ReplyStep(s, evs[0], p, e);
      if AwaitsReply(Apply(s, evs[0]).procs[p], e) {
        ReplyOverRun(Apply(s, evs[0]), evs[1..], p, e);
      } else {
        assert evs[1..] == [];
      }
    }
  }

  /** From a SENDREC to the first state in which its caller no longer receives: until then
      the caller waits for its partner, and then it has a direct message of the partner or
      an async message that may be a reply, unless one of the two has died. */
  lemma ReplyComesFromPartner(s: State, c: int, call: Call, evs: seq<Event>)
    requires Inv(s) && Running(s, c) && call.nr == SENDREC && SysCall(s, c, call).status == OK
    requires Inv(SysCall(s, c, call).state) && Legal(SysCall(s, c, call).state, evs)
    requires ReceivesThroughout(SysCall(s, c, call).state, evs, c)
    ensures var r := After(SysCall(s, c, call).state, evs);
      AwaitsReply(r.procs[c], call.ep) || (IsSlot(SlotOf(call.ep)) && Replied(r, c, call.ep))
  {
    SendRecOutcome(s, c, call.ep, call.buf);
    var r := SysCall(s, c, call).state;
    if r.procs[c].receiving {
      ReplyOverRun(r, evs, c, call.ep);
    }
  }

  /** SENDREC as a trap: it fails before anything was sent or not at all, and a message
      that completes it at once comes from the partner. */
  lemma SendRecTrap(s: State, c: int, call: Call)
    requires Inv(s) && Running(s, c) && call.nr == SENDREC && CallCheck(s, c, call) == OK
    ensures var r := SysCall(s, c, call);
      var m := MiniSend(WithReplyPend(s, c, true), c, call.ep, call.buf, false);
      && r.status == m.status
      && (r.status != OK ==> r.state == WithReplyPend(s, c, true))
      && (r.state.procs[c].inbox.Some? ==> Got(r.state.procs[c], call.ep, true))
  {
    SendRecTrapEvolves(s, c, call.ep, call.buf);
    SendRecPending(s, c, call.ep, call.buf);
  }

  lemma SendRecPending(s: State, c: int, ep: int, buf: Buf)
    requires Base(s) && Acyclic(Waits(s)) && Running(s, c) && OkEndpoint(s.cfg, ep)
    ensures var s1 := WithReplyPend(s, c, true);
      var r, m := SendRec(s1, c, ep, buf), MiniSend(s1, c, ep, buf, false);
      r.status == m.status && (r.status != OK ==> r.state == s1)
  {
    var s1 := WithReplyPend(s, c, true);
    ReplyPendKeeps(s, c, true);
    WaitsFrame(s, s1);
    SendRecAllOrNothing(s1, c, ep, buf);
    SendIsLogged(s1, c, ep, buf, false);
  }

  /** A blocking trap on oneself is what the guarantee leaves out: it is not refused,
      and it leaves the caller waiting for itself. */
  lemma SelfBlockIsNotRefused(s: State, c: int, call: Call)
    requires Inv(s) && Running(s, c) && BlocksOnSelf(s, c, call)
    ensures !NoCycle(Waits(SysCall(s, c, call).state))
  {
    SysCallKeeps(s, c, call);
    SysCallAcyclic(s, c, call);
    AcyclicIffNoCycle(Waits(SysCall(s, c, call).state));
  }

  /** It happens right after boot: RECEIVE from one's own endpoint. */
  lemma SelfReceiveAfterBoot(s: State, c: int, buf: Buf)
    requires Boot(s) && Running(s, c) && buf.mapped
    requires RECEIVE in s.cfg.traps[s.cfg.priv[c]]
    ensures Inv(s) && BlocksOnSelf(s, c, Call(RECEIVE, s.cfg.ep[c], buf, []))
    ensures var r := SysCall(s, c, Call(RECEIVE, s.cfg.ep[c], buf, []));
      r.status == OK && r.state == SetProc(s, c, r.state.procs[c])
      && r.state.procs[c].receiving && !r.state.procs[c].sending && r.state.procs[c].getfrom == s.cfg.ep[c]
      && Base(r.state)
  {
    BootInv(s);
    OkIsNotAny(s.cfg, s.cfg.ep[c]);
    var call := Call(RECEIVE, s.cfg.ep[c], buf, []);
    SysCallKeeps(s, c, call);
    SelfServedIff(s, c);
    var s1 := WithReplyPend(s, c, false);
    var t := ReceiveNow(s1, c, s.cfg.ep[c]);
    assert !t.delivered;
    assert TryOne(s1, c, c).state == s1;
    assert t.state == s1;
    IdleNotDeadlocked(s1, Receive, c, c);
  }

  /** From then on a SEND to that process does not come back: the walk of deadlock() goes
      round and round there. */
  lemma EndlessAfterBoot(s: State, p: int, q: int, buf: Buf)
    requires Boot(s) && Running(s, p) && Running(s, q) && p != q && p >= NR_TASKS && buf.mapped
    requires RECEIVE in s.cfg.traps[s.cfg.priv[p]] && SEND in s.cfg.traps[s.cfg.priv[q]] && MaySend(s.cfg, q, p)
    ensures var r := SysCall(s, p, Call(RECEIVE, s.cfg.ep[p], buf, [])).state;
      && Base(r) && Running(r, q) && CallCheck(r, q, Call(SEND, s.cfg.ep[p], buf, [])) == OK
      && (forall k: nat :: Follow(Waits(r), p, k) == p && StillWalking(Waits(r), p, q, k))
      && !Returns(r, q, Call(SEND, s.cfg.ep[p], buf, []))
  {
    SelfReceiveAfterBoot(s, p, buf);
    OkIsNotAny(s.cfg, s.cfg.ep[p]);
    var r := SysCall(s, p, Call(RECEIVE, s.cfg.ep[p], buf, [])).state;
    var g := Waits(r);
    assert g[p] == p && g[q] == NOBODY;
    forall k: nat ensures Follow(g, p, k) == p {
      LoopStays(g, p, k);
    }
    assert !WalkEnds(g, p, q);
  }

  /** After a process has blocked on itself the walk for another caller ends if and only if
      its chain does not lead to that process. */
  lemma WalkAfterSelfBlock(s: State, p: int, call: Call, c: int, d: int)
    requires Inv(s) && Running(s, p) && BlocksOnSelf(s, p, call) && Running(s, c) && c != p && IsSlot(d)
    ensures var r := SysCall(s, p, call).state;
      Shape(r) && (WalkEnds(Waits(r), d, c) <==> !Reaches(Waits(r), d, p))
  {
    var r := SysCall(s, p, call).state;
    SelfBlockWaits(s, p, call);
    var g := Waits(r);
    assert WithoutLoops(g) == Waits(s) by {
      AcyclicIffNoCycle(Waits(s));
      forall i | 0 <= i < NR_SLOTS ensures Waits(s)[i] != i {
        assert Follow(Waits(s), i, 1) == Follow(Waits(s), Waits(s)[i], 0);
      }
    }
    WalkEndsWithLoops(g, d, c);
    LoopIsThere(g, d, p);
  }

  lemma LoopIsThere(g: Graph, d: int, p: int)
    requires IsNode(g, d) && IsNode(g, p) && g[p] == p && forall i :: 0 <= i < |g| && g[i] == i ==> i == p
    ensures ReachesLoop(g, d) <==> Reaches(g, d, p)
  {
  }

  // Blocking on oneself changes one wait.
  lemma SelfBlockWaits(s: State, p: int, call: Call)
    requires Inv(s) && Running(s, p) && BlocksOnSelf(s, p, call)
    ensures Waits(SysCall(s, p, call).state) == Waits(s)[p := p]
  {
    if call.nr == SEND {
      SelfSendWaits(s, p, call.buf);
    } else if call.nr == SENDREC {
      var s1 := WithReplyPend(s, p, true);
      ReplyPendKeeps(s, p, true);
      assert Waits(s1) == Waits(s);
      SelfSendRecWaits(s1, p, call.buf);
    } else {
      SelfReceiveWaits(s, p, call.buf.mapped);
    }
  }

  lemma SelfSendRecWaits(s: State, p: int, buf: Buf)
    requires Base(s) && Running(s, p) && buf.mapped && buf.readable
    ensures Waits(SendRec(s, p, s.cfg.ep[p], buf).state) == Waits(s)[p := p]
  {
    var e := s.cfg.ep[p];
    SelfSendWaits(s, p, buf);
    MiniSendKeeps(s, p, e, buf, false);
    AfterSend(s, p, e, buf);
    SecondHalfQueued(MiniSend(s, p, e, buf, false).state, p, e);
  }

  lemma SelfSendWaits(s: State, p: int, buf: Buf)
    requires Base(s) && Running(s, p) && buf.mapped && buf.readable
    ensures var r := MiniSend(s, p, s.cfg.ep[p], buf, false);
      r.status == OK && r.state.procs[p].sending && Waits(r.state) == Waits(s)[p := p]
  {
    SelfSend(s, p, buf);
    var r := MiniSend(s, p, s.cfg.ep[p], buf, false).state;
    assert r == BlockSender(s, p, s.cfg.ep[p], buf.body);
    forall i | 0 <= i < NR_SLOTS ensures Waits(r)[i] == Waits(s)[p := p][i] {
    }
  }

  // A search that found nothing, and then the caller waits for itself.
  lemma SelfBlocked(s: State, t: State, p: int)
    requires Shape(s) && Shape(t) && OnlyAsync(s, t) && IsSlot(p) && !s.procs[p].sending && !s.procs[p].receiving
    requires OkEndpoint(s.cfg, s.cfg.ep[p])
    ensures s.cfg.ep[p] != ANY && !Deadlocked(t, Receive, p, p)
    ensures Waits(BlockReceiver(t, p, s.cfg.ep[p])) == Waits(s)[p := p]
  {
    OkIsNotAny(s.cfg, s.cfg.ep[p]);
    assert t.procs[p] == s.procs[p].(asynMsg := t.procs[p].asynMsg);
    IdleNotDeadlocked(t, Receive, p, p);
    var r := BlockReceiver(t, p, s.cfg.ep[p]);
    forall i | 0 <= i < NR_SLOTS ensures Waits(r)[i] == Waits(s)[p := p][i] {
      assert t.procs[i] == s.procs[i].(asynMsg := t.procs[i].asynMsg);
    }
  }

  lemma SelfReceiveWaits(s: State, p: int, mapped: bool)
    requires Base(s) && Running(s, p) && mapped && !OwnBit(s, p) && !OwnEntry(s, p)
    ensures var r := MiniReceive(WithReplyPend(s, p, false), p, s.cfg.ep[p], mapped, false);
      Waits(r.state) == Waits(s)[p := p]
  {
    var s1, e := WithReplyPend(s, p, false), s.cfg.ep[p];
    ReplyPendKeeps(s, p, false);
    SelfServedIff(s, p);
    SelfSearchWaits(s1, p, mapped);
    assert Waits(s1) == Waits(s);
  }

  lemma SelfSearchWaits(s: State, p: int, mapped: bool)
    requires Base(s) && Running(s, p) && mapped && !ReceiveNow(s, p, s.cfg.ep[p]).delivered
    ensures Waits(MiniReceive(s, p, s.cfg.ep[p], mapped, false).state) == Waits(s)[p := p]
  {
    ReceiveNowKeeps(s, p, s.cfg.ep[p]);
    SelfBlocked(s, ReceiveNow(s, p, s.cfg.ep[p]).state, p);
  }
}
