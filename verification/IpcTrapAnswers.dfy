/** What a trap answers: which calls sys_call lets through, and what becomes of those. */
module IpcTrapAnswers {
  import opened Options
  import opened WaitGraph
  import opened IpcState
  import opened IpcSteps
  import opened IpcInv
  import opened IpcKeeps
  import opened IpcCalls
  import opened IpcDeadlock
  import opened IpcHistory
  import opened IpcTraps
  import opened IpcAnswers
  import opened IpcRuns

  // The call is one that sys_call lets through.
  ghost predicate Allowed(s: State, c: int, call: Call)
    requires Shape(s) && IsSlot(c)
  {
    && call.nr in {SEND, RECEIVE, SENDREC, NOTIFY, SENDNB, SENDA} && call.nr in s.cfg.traps[s.cfg.priv[c]]
    && (call.nr == SENDA ==> |call.table| <= 4160)
    && (call.nr == RECEIVE ==> call.ep == ANY || OkEndpoint(s.cfg, call.ep))
    && (call.nr in {SEND, SENDREC, NOTIFY, SENDNB} ==> OkEndpoint(s.cfg, call.ep) && MaySend(s.cfg, c, SlotOf(call.ep)))
    && (call.nr in {SEND, NOTIFY, SENDNB} ==> SlotOf(call.ep) >= 4)
  }

  // A message call that names a process: one to it needs the send mask, too.
  ghost predicate Addressed(s: State, c: int, call: Call)
    requires Shape(s) && IsSlot(c)
  {
    call.nr == SENDA || (call.nr == RECEIVE && call.ep == ANY)
    || (OkEndpoint(s.cfg, call.ep) && (call.nr == RECEIVE || MaySend(s.cfg, c, SlotOf(call.ep))))
  }

  /** What the checks of sys_call answer: a wrong or forbidden partner is reported before a
      forbidden trap, and exactly the calls that are allowed pass. */
  lemma CheckAnswers(s: State, c: int, call: Call)
    requires Shape(s) && IsSlot(c)
    ensures var r := CallCheck(s, c, call);
      && (r == OK <==> Allowed(s, c, call))
      && (r == EINVAL <==> call.nr !in {SENDA, RECEIVE} && call.ep == ANY)
      && (r == EDEADSRCDST <==> call.nr != SENDA && call.ep != ANY && !OkEndpoint(s.cfg, call.ep))
      && (r == ECALLDENIED <==>
            call.nr !in {SENDA, RECEIVE} && OkEndpoint(s.cfg, call.ep) && !MaySend(s.cfg, c, SlotOf(call.ep)))
      && (r == EDOM <==> call.nr == SENDA && SENDA in s.cfg.traps[s.cfg.priv[c]] && |call.table| > 4160)
      && r in {OK, EINVAL, EDEADSRCDST, ECALLDENIED, ETRAPDENIED, EDOM, EBADCALL}
      && (Addressed(s, c, call) && call.nr !in s.cfg.traps[s.cfg.priv[c]] ==> r == ETRAPDENIED)
  {
    if OkEndpoint(s.cfg, call.ep) {
      OkIsNotAny(s.cfg, call.ep);
    }
  }

  lemma SameWaitsPending(s: State, c: int, b: bool)
    requires Shape(s) && IsSlot(c)
    ensures Waits(WithReplyPend(s, c, b)) == Waits(s)
  {
    var r := WithReplyPend(s, c, b);
    assert forall i :: 0 <= i < NR_SLOTS ==> WaitOf(r.procs[i], NR_SLOTS) == WaitOf(s.procs[i], NR_SLOTS);
  }

  // The send of c to d is on record.
  ghost predicate OnRecord(s: State, r: State, c: int, d: int, body: int)
    requires Shape(s) && IsSlot(c)
  {
    |s.log| < |r.log| && r.log[|s.log|] == Transfer(c, s.cfg.ep[c], d, body, r.log[|s.log|].place)
  }

  /** SENDREC is answered as its send would be, the reply half never adds an error, and a
      caller whose SENDREC is accepted awaits the reply or has it. */
  lemma SendRecAnswers(s: State, c: int, call: Call)
    requires Inv(s) && Running(s, c) && call.nr == SENDREC && Allowed(s, c, call)
    ensures var r, ready := SysCall(s, c, call), Awaits(s.procs[SlotOf(call.ep)], s.cfg.ep[c]);
      var p := r.state.procs[c];
      && SendAnswer(s, c, call.ep, call.buf, false, r.status)
      && (r.status != OK ==> r.state == WithReplyPend(s, c, true))
      && (r.status == OK ==>
            && (if p.receiving then p.getfrom == call.ep && p.replyPend else Got(p, call.ep, true))
            && OnRecord(s, r.state, c, SlotOf(call.ep), call.buf.body)
            && (!ready ==> p.sending && p.receiving))
  {
    SendRecCall(s, c, call);
    var s1 := WithReplyPend(s, c, true);
    SendRecStatus(s, c, call.ep, call.buf);
    SendRecOutcome(s, c, call.ep, call.buf);
    ReplyPendKeeps(s, c, true);
    if SendRec(s1, c, call.ep, call.buf).status == OK {
      SendRecLogged(s1, c, call.ep, call.buf);
    }
  }

  lemma SendRecCall(s: State, c: int, call: Call)
    requires Base(s) && Running(s, c) && call.nr == SENDREC && Allowed(s, c, call)
    ensures SysCall(s, c, call) == SendRec(WithReplyPend(s, c, true), c, call.ep, call.buf)
  {
    CheckAnswers(s, c, call);
  }

  lemma SendRecStatus(s: State, c: int, ep: int, buf: Buf)
    requires Base(s) && Acyclic(Waits(s)) && Running(s, c) && OkEndpoint(s.cfg, ep)
    ensures var s1 := WithReplyPend(s, c, true);
      var r := SendRec(s1, c, ep, buf);
      SendAnswer(s, c, ep, buf, false, r.status) && (r.status != OK ==> r.state == s1)
  {
    var s1 := WithReplyPend(s, c, true);
    ReplyPendKeeps(s, c, true);
    SameWaitsPending(s, c, true);
    SendRecPending(s, c, ep, buf);
    SendAnswers(s1, c, ep, buf, false);
  }

  // The reply half leaves the record of the send, and a blocked sender blocked.
  lemma SendRecLogged(s: State, c: int, ep: int, buf: Buf)
    requires Base(s) && Running(s, c) && OkEndpoint(s.cfg, ep) && SendRec(s, c, ep, buf).status == OK
    ensures var r := SendRec(s, c, ep, buf).state;
      && OnRecord(s, r, c, SlotOf(ep), buf.body)
      && (!Awaits(s.procs[SlotOf(ep)], s.cfg.ep[c]) ==> r.procs[c].sending && r.procs[c].receiving)
  {
    var m := MiniSend(s, c, ep, buf, false);
    SendAnswers(s, c, ep, buf, false);
    MiniSendKeeps(s, c, ep, buf, false);
    AfterSend(s, c, ep, buf);
    MiniReceiveEvolves(m.state, c, ep, buf.mapped, false);
    var r := MiniReceive(m.state, c, ep, buf.mapped, false).state;
    assert r.log[|s.log|] == m.state.log[|s.log|].(place := r.log[|s.log|].place);
  }

  lemma ReceiveCall(s: State, c: int, call: Call)
    requires Base(s) && Running(s, c) && call.nr == RECEIVE && Allowed(s, c, call)
    ensures SysCall(s, c, call) == MiniReceive(WithReplyPend(s, c, false), c, call.ep, call.buf.mapped, false)
  {
    CheckAnswers(s, c, call);
  }

  // What mini_receive does to its caller besides the message.
  lemma ReceiveLeaves(s: State, c: int, srcE: int, mapped: bool)
    requires Base(s) && Running(s, c) && (srcE == ANY || OkEndpoint(s.cfg, srcE))
    ensures var r := MiniReceive(s, c, srcE, mapped, false);
      var p := r.state.procs[c];
      && p.replyPend == s.procs[c].replyPend
      && (r.status == OK && !HasMessage(s, c, srcE) ==> p.receiving && p.getfrom == srcE)
      && (r.status == OK && HasMessage(s, c, srcE) ==> Taken(s, r.state, c, srcE) && p.inbox.Some? && !p.receiving)
  {
    var r := MiniReceive(s, c, srcE, mapped, false);
    ReceiveAnswers(s, c, srcE, mapped, false);
    if r.status == OK && HasMessage(s, c, srcE) {
      TakenSpares(s, r.state, c, srcE);
    }
  }

  /** RECEIVE as a trap: the caller awaits no reply, and is answered as mini_receive says. */
  lemma ReceiveTrapAnswers(s: State, c: int, call: Call)
    requires Base(s) && Running(s, c) && call.nr == RECEIVE && Allowed(s, c, call)
    ensures var r, s1 := SysCall(s, c, call), WithReplyPend(s, c, false);
      var p := r.state.procs[c];
      && ReceiveAnswer(s1, c, call.ep, call.buf.mapped, false, r.status) && !p.replyPend
      && (r.status == OK && !HasMessage(s1, c, call.ep) ==> p.receiving && p.getfrom == call.ep)
      && (r.status == OK && HasMessage(s1, c, call.ep) ==>
            Shape(s1) && Delivery(s1) && Taken(s1, r.state, c, call.ep) && p.inbox.Some? && !p.receiving)
  {
    ReceiveCall(s, c, call);
    ReplyPendKeeps(s, c, false);
    ReceiveAnswers(WithReplyPend(s, c, false), c, call.ep, call.buf.mapped, false);
    ReceiveLeaves(WithReplyPend(s, c, false), c, call.ep, call.buf.mapped);
  }

  lemma OldestByTrap(s: State, c: int, call: Call, t: nat)
    requires Base(s) && Running(s, c) && call.nr == RECEIVE && call.ep == ANY && Allowed(s, c, call)
    requires var m := SysCall(s, c, call).state.procs[c].inbox; m.Some? && m.value.payload.kind == Direct(t)
    ensures s.privs[s.cfg.priv[c]].notify == {} && Undelivered(s, c, ANY, t)
    ensures forall u {:trigger Undelivered(s, c, ANY, u)} :: Undelivered(s, c, ANY, u) ==> t <= u
  {
    var s1 := WithReplyPend(s, c, false);
    ReceiveCall(s, c, call);
    ReplyPendKeeps(s, c, false);
    OldestFirst(s1, c, ANY, call.buf.mapped, false, t);
    forall u | Undelivered(s, c, ANY, u) ensures t <= u {
      assert Undelivered(s1, c, ANY, u);
    }
  }

  lemma RefusedHasNothing(s: State, c: int, call: Call)
    requires Base(s) && Running(s, c) && !Allowed(s, c, call)
    ensures SysCall(s, c, call).state == s
  {
    CheckAnswers(s, c, call);
  }

  /** From boot on, over every run: a direct message that RECEIVE from ANY returns was accepted
      before every other that still waits for the caller, and no notification was pending. */
  lemma FirstComeFirstServed(s: State, evs: seq<Event>, c: int, call: Call, t: nat)
    requires Inv(s) && Legal(s, evs) && Running(After(s, evs), c)
    requires call.nr == RECEIVE && call.ep == ANY
    requires var m := SysCall(After(s, evs), c, call).state.procs[c].inbox; m.Some? && m.value.payload.kind == Direct(t)
    ensures var r := After(s, evs);
      && r.privs[r.cfg.priv[c]].notify == {}
      && t < |r.log| && r.log[t].place == AtSender && r.log[t].dst == c
      && forall u {:trigger r.log[u]} :: 0 <= u < |r.log| && r.log[u].place == AtSender && r.log[u].dst == c ==> t <= u
  {
    var r := After(s, evs);
    if Allowed(r, c, call) {
      OldestByTrap(r, c, call, t);
    } else {
      RefusedHasNothing(r, c, call);
    }
    forall u | 0 <= u < |r.log| && r.log[u].place == AtSender && r.log[u].dst == c ensures t <= u {
      assert Undelivered(r, c, ANY, u);
    }
  }
}
