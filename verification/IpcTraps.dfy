/** Whole traps: history, deadlock freedom and the two halves of SENDREC. */
module IpcTraps {
  import opened WaitGraph
  import opened IpcState
  import opened IpcSteps
  import opened IpcInv
  import opened IpcKeeps
  import opened IpcCalls
  import opened IpcDeadlock
  import opened IpcHistory

  // ------------------------------------------------------------------ history

  // c keeps its own state, up to the flag for pending async messages.
  predicate ActorStays(p: Proc, q: Proc) {
    q == p.(asynMsg := q.asynMsg)
  }

  lemma EntryHandedOverEvolves(s: State, v: nat, c: int, i: nat, d: int)
    requires Base(s) && Running(s, c) && IsSlot(d) && v < NR_SYS_PROCS && i < |s.privs[v].table|
    requires WillReceive(s.procs[d], s.cfg.ep[c]) && (!s.privs[v].table[i].noreply || !s.procs[d].replyPend)
    ensures var s1 := DeliverEntry(s, v, c, i, d);
      var r := SetProc(s1, d, s1.procs[d].(receiving := false));
      Evolves(s, r, c) && ActorStays(s.procs[c], r.procs[c])
  {
    assert BlockingAt(s, d);
  }

  lemma FlaggedEvolves(s: State, c: int, d: int)
    requires Shape(s) && IsSlot(c) && IsSlot(d)
    ensures ActorIdle(s, SetProc(s, d, s.procs[d].(asynMsg := true)), c)
  {
  }

  lemma RefusedEvolves(s: State, r: State, c: int)
    requires Shape(s) && Shape(r) && IsSlot(c) && r.cfg == s.cfg && r.procs == s.procs && r.log == s.log
    ensures ActorIdle(s, r, c)
  {
  }

  lemma SendaEntryEvolves(s: State, c: int, i: nat)
    requires Base(s) && Running(s, c) && i < |s.privs[s.cfg.priv[c]].table|
    ensures var r := SendaEntry(s, c, i).state;
      Base(r) && ActorIdle(s, r, c) && Running(r, c)
  {
    SendaEntryKeeps(s, c, i);
    var v := s.cfg.priv[c];
    var e := s.privs[v].table[i];
    var d := SlotOf(e.dst);
    if OkEndpoint(s.cfg, e.dst) && d >= NR_TASKS && MaySend(s.cfg, c, d) && !s.procs[d].dead {
      if WillReceive(s.procs[d], s.cfg.ep[c]) && (!e.noreply || !s.procs[d].replyPend) {
        EntryHandedOverEvolves(s, v, c, i, d);
      } else {
        FlaggedEvolves(s, c, d);
      }
    } else {
      RefusedEvolves(s, SendaEntry(s, c, i).state, c);
    }
  }

  // A step of c that leaves c itself alone.
  ghost predicate ActorIdle(s: State, r: State, c: int)
    requires Shape(s) && IsSlot(c)
  {
    Evolves(s, r, c) && ActorStays(s.procs[c], r.procs[c])
  }

  lemma ActorIdleRefl(s: State, c: int)
    requires Shape(s) && IsSlot(c)
    ensures ActorIdle(s, s, c)
  {
  }

  lemma ActorIdleTrans(s: State, m: State, r: State, c: int)
    requires Shape(s) && IsSlot(c) && ActorIdle(s, m, c) && ActorIdle(m, r, c)
    ensures ActorIdle(s, r, c)
  {
    EvolvesTrans(s, m, r, c);
  }

  // One entry of the scan.
  lemma ScanNext(s: State, c: int, i: nat, done: bool) returns (m: State, d: bool)
    requires Shape(s) && IsSlot(c) && i < |s.privs[s.cfg.priv[c]].table| && !s.privs[s.cfg.priv[c]].table[i].Malformed()
    ensures var e := s.privs[s.cfg.priv[c]].table[i];
      m == if e.Empty() || e.done then s else SendaEntry(s, c, i).state
    ensures Shape(m) && m.cfg == s.cfg && |m.privs[s.cfg.priv[c]].table| == |s.privs[s.cfg.priv[c]].table|
    ensures SendaScan(s, c, i, done) == SendaScan(m, c, i + 1, d)
  {
    var e := s.privs[s.cfg.priv[c]].table[i];
    if e.Empty() || e.done {
      m, d := s, done;
    } else {
      m, d := SendaEntry(s, c, i).state, done && SendaEntry(s, c, i).done;
    }
  }

  lemma {:induction false} SendaScanEvolves(s: State, c: int, i: nat, done: bool)
    requires Base(s) && Running(s, c) && i <= |s.privs[s.cfg.priv[c]].table|
    ensures ActorIdle(s, SendaScan(s, c, i, done).state, c)
    decreases |s.privs[s.cfg.priv[c]].table| - i
  {
    var t := s.privs[s.cfg.priv[c]].table;
    ActorIdleRefl(s, c);
    if i < |t| && !t[i].Malformed() {
      var m, d := ScanNext(s, c, i, done);
      if m != s {
        SendaEntryEvolves(s, c, i);
      }
      SendaScanEvolves(m, c, i + 1, d);
      ActorIdleTrans(s, m, SendaScan(m, c, i + 1, d).state, c);
    }
  }

  lemma MiniSendaEvolves(s: State, c: int, table: seq<Entry>, mapped: bool)
    requires Base(s) && Running(s, c)
    ensures ActorIdle(s, MiniSenda(s, c, table, mapped).state, c)
  {
    var v := s.cfg.priv[c];
    if !s.cfg.sysProc[v] || table == [] || !mapped || |table| > 16 * NR_SLOTS {
      RefusedEvolves(s, MiniSenda(s, c, table, mapped).state, c);
    } else {
      SubmitEvolves(s, c, table);
    }
  }

  lemma SubmitEvolves(s: State, c: int, table: seq<Entry>)
    requires Base(s) && Running(s, c)
    ensures var v, t := s.cfg.priv[c], SendaScan(SendaStart(s, c, table), c, 0, true).state;
      ActorIdle(s, t, c) && ActorIdle(s, SetPriv(t, v, t.privs[v].(active := true)), c)
  {
    var s1, v := SendaStart(s, c, table), s.cfg.priv[c];
    var t := SendaScan(s1, c, 0, true).state;
    StartKeeps(s, c, table);
    RefusedEvolves(s, s1, c);
    SendaScanEvolves(s1, c, 0, true);
    ActivatedEvolves(s, s1, t, v, c);
  }

  lemma ActivatedEvolves(s: State, s1: State, t: State, v: nat, c: int)
    requires Shape(s) && Shape(s1) && IsSlot(c) && v < NR_SYS_PROCS && ActorIdle(s, s1, c) && ActorIdle(s1, t, c)
    ensures ActorIdle(s, t, c) && ActorIdle(s, SetPriv(t, v, t.privs[v].(active := true)), c)
  {
    var u := SetPriv(t, v, t.privs[v].(active := true));
    ActorIdleTrans(s, s1, t, c);
    RefusedEvolves(t, u, c);
    ActorIdleTrans(s, t, u, c);
  }

  lemma ReplyPendEvolves(s: State, c: int, b: bool)
    requires Shape(s) && IsSlot(c)
    ensures Evolves(s, WithReplyPend(s, c, b), c)
  {
  }

  lemma SendRecEvolves(s: State, c: int, ep: int, buf: Buf)
    requires Base(s) && Running(s, c) && OkEndpoint(s.cfg, ep)
    ensures var r := SendRec(s, c, ep, buf).state;
      && Evolves(s, r, c)
      && (r.procs[c].inbox.Some? ==> Got(r.procs[c], ep, s.procs[c].replyPend))
  {
    var m := MiniSend(s, c, ep, buf, false);
    MiniSendEvolves(s, c, ep, buf, false);
    if m.status == OK {
      MiniSendKeeps(s, c, ep, buf, false);
      AfterSend(s, c, ep, buf);
      SendLeaves(s, c, ep, buf, false);
      SecondHalfEvolves(s, m.state, c, ep, buf.mapped);
    } else {
      SendFails(s, c, ep, buf);
    }
  }

  lemma SendFails(s: State, c: int, ep: int, buf: Buf)
    requires Shape(s) && IsSlot(c) && IsSlot(SlotOf(ep)) && MiniSend(s, c, ep, buf, false).status != OK
    ensures MiniSend(s, c, ep, buf, false).state == s
  {
  }

  // The receive half of SENDREC.
  lemma SecondHalfEvolves(s: State, m: State, c: int, ep: int, mapped: bool)
    requires Shape(s) && Base(m) && Running(Unsent(m, c), c) && OkEndpoint(m.cfg, ep) && Evolves(s, m, c)
    requires m.procs[c].replyPend == s.procs[c].replyPend
    ensures var r := MiniReceive(m, c, ep, mapped, false).state;
      && Evolves(s, r, c)
      && (r.procs[c].inbox.Some? ==> Got(r.procs[c], ep, s.procs[c].replyPend))
  {
    MiniReceiveEvolves(m, c, ep, mapped, false);
    EvolvesTrans(s, m, MiniReceive(m, c, ep, mapped, false).state, c);
  }

  lemma ReceiveTrapEvolves(s: State, c: int, ep: int, mapped: bool)
    requires Base(s) && Running(s, c) && (ep == ANY || OkEndpoint(s.cfg, ep))
    ensures var r := MiniReceive(WithReplyPend(s, c, false), c, ep, mapped, false).state;
      Evolves(s, r, c)
  {
    var s1 := WithReplyPend(s, c, false);
    ReplyPendKeeps(s, c, false);
    ReplyPendEvolves(s, c, false);
    MiniReceiveEvolves(s1, c, ep, mapped, false);
    EvolvesTrans(s, s1, MiniReceive(s1, c, ep, mapped, false).state, c);
  }

  /** SENDREC: whatever message completes it comes from the partner, and is neither a
      notification nor an async message marked as no reply. */
  lemma SendRecTrapEvolves(s: State, c: int, ep: int, buf: Buf)
    requires Base(s) && Running(s, c) && OkEndpoint(s.cfg, ep)
    ensures var r := SendRec(WithReplyPend(s, c, true), c, ep, buf).state;
      Evolves(s, r, c) && (r.procs[c].inbox.Some? ==> Got(r.procs[c], ep, true))
  {
    var s1 := WithReplyPend(s, c, true);
    ReplyPendKeeps(s, c, true);
    ReplyPendEvolves(s, c, true);
    SendRecEvolves(s1, c, ep, buf);
    EvolvesTrans(s, s1, SendRec(s1, c, ep, buf).state, c);
  }

  /** SENDREC that returns OK has its reply or waits for it. */
  lemma SendRecOutcome(s: State, c: int, ep: int, buf: Buf)
    requires Base(s) && Running(s, c) && OkEndpoint(s.cfg, ep)
    ensures var r := SendRec(WithReplyPend(s, c, true), c, ep, buf);
      var p := r.state.procs[c];
      && (p.receiving ==> r.status == OK && p.getfrom == ep && p.replyPend)
      && (r.status == OK && !p.receiving ==> Got(p, ep, true))
  {
    var s1 := WithReplyPend(s, c, true);
    ReplyPendKeeps(s, c, true);
    MiniSendKeeps(s1, c, ep, buf, false);
    var m := MiniSend(s1, c, ep, buf, false);
    SendLeaves(s1, c, ep, buf, false);
    SendRecTrapEvolves(s, c, ep, buf);
    if m.status == OK {
      AfterSend(s1, c, ep, buf);
      ReceiveOutcome(m.state, c, ep, buf.mapped);
    }
  }

  // mini_send does not make its caller receive.
  lemma SendLeaves(s: State, c: int, ep: int, buf: Buf, nonblocking: bool)
    requires Base(s) && Running(s, c) && OkEndpoint(s.cfg, ep)
    ensures var p := MiniSend(s, c, ep, buf, nonblocking).state.procs[c];
      !p.receiving && p.replyPend == s.procs[c].replyPend
  {
  }

  lemma SysCallEvolves(s: State, c: int, call: Call)
    requires Base(s) && Running(s, c)
    ensures Evolves(s, SysCall(s, c, call).state, c)
  {
    if CallCheck(s, c, call) == OK {
      if call.nr == SEND {
        MiniSendEvolves(s, c, call.ep, call.buf, false);
      } else if call.nr == SENDNB {
        MiniSendEvolves(s, c, call.ep, call.buf, true);
      } else if call.nr == RECEIVE {
        ReceiveTrapEvolves(s, c, call.ep, call.buf.mapped);
      } else if call.nr == SENDREC {
        SendRecTrapEvolves(s, c, call.ep, call.buf);
      } else if call.nr == NOTIFY {
        MiniNotifyEvolves(s, c, call.ep, c);
      } else {
        MiniSendaEvolves(s, c, call.table, call.buf.mapped);
      }
    }
  }

  // ----------------------------------------------------------------- deadlock

  lemma EvolvesAcyclic(s: State, r: State, actor: int)
    requires Base(s) && Acyclic(Waits(s)) && Evolves(s, r, actor)
    requires IsSlot(actor) ==> WaitOf(r.procs[actor], NR_SLOTS) in {NOBODY, WaitOf(s.procs[actor], NR_SLOTS)}
    ensures Acyclic(Waits(r))
  {
    forall i | 0 <= i < NR_SLOTS
      ensures WaitOf(r.procs[i], NR_SLOTS) == NOBODY || WaitOf(r.procs[i], NR_SLOTS) == WaitOf(s.procs[i], NR_SLOTS)
    {
      if i != actor {
        assert Bystander(s.procs[i], r.procs[i]) && BlockingAt(s, i);
      }
    }
    WaitsFrame(s, r);
  }

  lemma MiniSendAcyclic(s: State, c: int, dstE: int, buf: Buf, nonblocking: bool)
    requires Base(s) && Acyclic(Waits(s)) && Running(s, c) && OkEndpoint(s.cfg, dstE)
    ensures var r := MiniSend(s, c, dstE, buf, nonblocking).state;
      Acyclic(Waits(r)) <==> !(r.procs[c].sending && c == SlotOf(dstE))
  {
    var r := MiniSend(s, c, dstE, buf, nonblocking);
    assert BlockingAt(s, SlotOf(dstE));
    if r.state.procs[c].sending {
      BlockSenderAcyclic(s, c, dstE, buf.body);
    } else {
      MiniSendEvolves(s, c, dstE, buf, nonblocking);
      assert !r.state.procs[c].receiving;
      EvolvesAcyclic(s, r.state, c);
    }
  }

  lemma BlockAnyAcyclic(s: State, c: int)
    requires Base(s) && Acyclic(Waits(s)) && IsSlot(c)
    ensures Acyclic(Waits(BlockReceiver(s, c, ANY)))
  {
    WaitsFrame(s, BlockReceiver(s, c, ANY));
  }

  lemma BlockOneAcyclic(s: State, c: int, srcE: int)
    requires Base(s) && Acyclic(Waits(s)) && Running(s, c) && OkEndpoint(s.cfg, srcE)
    requires QueuePick(s, c, srcE) == |s.callq[c]| && !Deadlocked(s, Receive, c, SlotOf(srcE))
    ensures Acyclic(Waits(BlockReceiver(s, c, srcE))) <==> srcE != s.cfg.ep[c]
  {
    BlockReceiverAcyclic(s, c, srcE);
  }

  // Before blocking: the search found nothing and changed nothing that matters here.
  lemma ReceiveSearch(s: State, c: int, srcE: int)
    requires Base(s) && Acyclic(Waits(s)) && Running(s, c)
    requires srcE == ANY || OkEndpoint(s.cfg, srcE)
    ensures var t := ReceiveNow(s, c, srcE);
      && Base(t.state) && Acyclic(Waits(t.state)) && !t.state.procs[c].receiving
      && (!t.delivered ==> Running(t.state, c) && QueuePick(t.state, c, srcE) == |t.state.callq[c]|)
  {
    var t := ReceiveNow(s, c, srcE);
    ReceiveNowKeeps(s, c, srcE);
    ReceiveNowEvolves(s, c, srcE);
    ReceiverStays(s, c, srcE);
    EvolvesAcyclic(s, t.state, c);
    if !t.delivered {
      assert OnlyAsync(s, t.state);
      assert t.state.procs[c] == s.procs[c].(asynMsg := t.state.procs[c].asynMsg);
    }
  }

  lemma MiniReceiveAcyclic(s: State, c: int, srcE: int, mapped: bool)
    requires Base(s) && Acyclic(Waits(s)) && Running(s, c)
    requires srcE == ANY || OkEndpoint(s.cfg, srcE)
    ensures var r := MiniReceive(s, c, srcE, mapped, false).state;
      Acyclic(Waits(r)) <==> !(r.procs[c].receiving && srcE == s.cfg.ep[c])
  {
    ReceiveSearch(s, c, srcE);
    var t := ReceiveNow(s, c, srcE);
    if !t.delivered && !(srcE != ANY && Deadlocked(t.state, Receive, c, SlotOf(srcE))) {
      SearchedAcyclic(t.state, c, srcE);
    }
  }

  lemma SearchedAcyclic(s: State, c: int, srcE: int)
    requires Base(s) && Acyclic(Waits(s)) && Running(s, c) && (srcE == ANY || OkEndpoint(s.cfg, srcE))
    requires QueuePick(s, c, srcE) == |s.callq[c]| && !(srcE != ANY && Deadlocked(s, Receive, c, SlotOf(srcE)))
    ensures Acyclic(Waits(BlockReceiver(s, c, srcE))) <==> srcE != s.cfg.ep[c]
  {
    if srcE == ANY {
      BlockAnyAcyclic(s, c);
      assert SlotOf(ANY) != c;
    } else {
      BlockOneAcyclic(s, c, srcE);
    }
  }

  // The search for a message does not block the receiver.
  lemma ReceiverStays(s: State, c: int, srcE: int)
    requires Base(s) && Running(s, c)
    requires srcE == ANY || OkEndpoint(s.cfg, srcE)
    ensures var t := ReceiveNow(s, c, srcE);
      !t.state.procs[c].sending && !t.state.procs[c].receiving
  {
    PickedOwner(s, c, srcE);
    if !s.procs[c].replyPend && NotifyPick(s, c, srcE) != NOBODY {
    } else if QueuePick(s, c, srcE) < |s.callq[c]| {
      TakeCallerStays(s, c, QueuePick(s, c, srcE));
    } else if s.procs[c].asynMsg {
      if srcE == ANY {
        TryAsyncStays(s, c);
      } else {
        TryOneStays(s, SlotOf(srcE), c);
      }
    }
  }

  lemma TakeCallerStays(s: State, c: int, k: nat)
    requires Base(s) && Running(s, c) && k < |s.callq[c]|
    ensures IsSlot(s.callq[c][k])
    ensures var x, s1 := s.callq[c][k], TakeQueued(s, c, k);
      var r := if s.procs[x].sigDelay then SigDelayDone(s1, x) else s1;
      !r.procs[c].sending && !r.procs[c].receiving
  {
    CallerFacts(s, c, k);
    var x, s1 := s.callq[c][k], TakeQueued(s, c, k);
    assert !s1.procs[c].sending && !s1.procs[c].receiving;
    SigDelayDoneStays(s1, x, c);
  }

  lemma SigDelayDoneStays(s: State, p: int, c: int)
    requires Shape(s) && IsSlot(p) && IsSlot(c) && !s.procs[c].sending && !s.procs[c].receiving
    ensures !SigDelayDone(s, p).procs[c].sending && !SigDelayDone(s, p).procs[c].receiving
  {
  }

  lemma TryOneStays(s: State, src: int, d: int)
    requires Shape(s) && IsSlot(src) && IsSlot(d)
    ensures var q := TryOne(s, src, d).state.procs[d];
      q.sending == s.procs[d].sending && q.receiving == s.procs[d].receiving
  {
  }

  lemma TryAsyncStays(s: State, d: int)
    requires Shape(s) && IsSlot(d)
    ensures SameBlocking(s, TryAsync(s, d, 0, false).state, d)
  {
    var keep := (t: State, j: nat, b: bool) => SameBlocking(s, t, d);
    var done := (r: TryResult) => SameBlocking(s, r.state, d);
    forall t, j: nat, b | Shape(t) && j <= NR_SYS_PROCS && keep(t, j, b) ensures KeptByTry(d, j, t, b, keep, done) {
      if j < NR_SYS_PROCS && t.cfg.owner[j] != NOBODY {
        TryOneStays(t, t.cfg.owner[j], d);
      }
    }
    TryAsyncInduction(s, d, 0, false, keep, done);
  }

  ghost predicate SameBlocking(s: State, t: State, d: int)
    requires Shape(s) && IsSlot(d)
  {
    && Shape(t)
    && t.procs[d].sending == s.procs[d].sending && t.procs[d].receiving == s.procs[d].receiving
  }
}
