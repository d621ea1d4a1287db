/**
 Kernel signals are never stranded: as long as a privilege structure has signals
 pending, the notification bit of SYSTEM is set in it, so that the next RECEIVE from ANY
 that finds no earlier bit hands them over.
 */
module IpcSignals {
  import opened WaitGraph
  import opened IpcState
  import opened IpcSteps
  import opened IpcInv
  import opened IpcCalls

  // Every structure other than `but` is announced.
  ghost predicate SignalsBut(s: State, but: int)
    requires Shape(s)
  {
    forall j :: 0 <= j < NR_SYS_PROCS && j != but && s.privs[j].sigPending != {} ==>
      s.cfg.priv[SYSTEM] in s.privs[j].notify
  }

  lemma SignalsFrame(s: State, r: State)
    requires Shape(s) && Shape(r) && r.cfg == s.cfg && Signals(s)
    requires forall j :: 0 <= j < NR_SYS_PROCS ==>
      r.privs[j].notify == s.privs[j].notify && r.privs[j].sigPending == s.privs[j].sigPending
    ensures Signals(r)
  {
  }

  lemma NotifySignals(s: State, src: int, dstE: int)
    requires Shape(s) && IsSlot(src) && Signals(s)
    ensures Signals(MiniNotify(s, src, dstE).state)
  {
  }

  // A notification from SYSTEM announces or hands over what was just added.
  lemma SendSigSignals(s: State, p: int, sig: int)
    requires Shape(s) && IsSlot(p) && Signals(s) && !s.cfg.free[p]
    ensures Signals(SendSig(s, p, sig))
  {
    var s1 := AddSignal(s, p, sig);
    assert SignalsBut(s1, s.cfg.priv[p]);
    assert OkEndpoint(s1.cfg, s1.cfg.ep[p]);
  }

  lemma CauseSigSignals(s: State, p: int, sig: int)
    requires Shape(s) && IsSlot(p) && Signals(s)
    ensures Signals(CauseSig(s, p, sig))
  {
    var x := s.procs[p];
    if sig !in x.pending && !x.signaled {
      var s1 := SetProc(s, p, x.(pending := x.pending + {sig}, signaled := true));
      SignalsFrame(s, s1);
      SendSigSignals(s1, PM, SIGKSIG);
    }
  }

  lemma SigDelayDoneSignals(s: State, p: int)
    requires Shape(s) && IsSlot(p) && Signals(s)
    ensures Signals(SigDelayDone(s, p))
  {
    var s1 := SetProc(s, p, s.procs[p].(sigDelay := false));
    SignalsFrame(s, s1);
    CauseSigSignals(s1, p, SIGNDELAY);
  }

  // The bit of SYSTEM is only cleared together with the signals it announces.
  lemma TakeNotifySignals(s: State, c: int, id: int)
    requires Shape(s) && IsSlot(c) && Signals(s) && 0 <= id < NR_SYS_PROCS && s.cfg.owner[id] != NOBODY
    ensures Signals(TakeNotify(s, c, id))
  {
  }

  lemma TryAsyncSignals(s: State, d: int)
    requires Shape(s) && IsSlot(d) && Signals(s)
    ensures Signals(TryAsync(s, d, 0, false).state)
  {
    var keep := (t: State, j: nat, b: bool) => Shape(t) && Signals(t);
    var done := (r: TryResult) => Shape(r.state) && Signals(r.state);
    forall t, j: nat, b | Shape(t) && j <= NR_SYS_PROCS && keep(t, j, b) ensures KeptByTry(d, j, t, b, keep, done) {
      if j < NR_SYS_PROCS && t.cfg.owner[j] != NOBODY {
        TryOneSignals(t, t.cfg.owner[j], d);
      }
    }
    TryAsyncInduction(s, d, 0, false, keep, done);
  }

  lemma TryOneSignals(s: State, src: int, d: int)
    requires Shape(s) && IsSlot(src) && IsSlot(d) && Signals(s)
    ensures Signals(TryOne(s, src, d).state)
  {
    SignalsFrame(s, TryOne(s, src, d).state);
  }

  lemma ReceiveNowSignals(s: State, c: int, srcE: int)
    requires Shape(s) && Refs(s) && IsSlot(c) && Signals(s)
    requires srcE == ANY || IsSlot(SlotOf(srcE))
    ensures Signals(ReceiveNow(s, c, srcE).state)
  {
    PickedOwner(s, c, srcE);
    var id := if s.procs[c].replyPend then NOBODY else NotifyPick(s, c, srcE);
    var k := QueuePick(s, c, srcE);
    if s.procs[c].sending {
    } else if id != NOBODY {
      TakeNotifySignals(s, c, id);
    } else if k < |s.callq[c]| {
      SignalsFrame(s, TakeQueued(s, c, k));
      if s.procs[s.callq[c][k]].sigDelay {
        SigDelayDoneSignals(TakeQueued(s, c, k), s.callq[c][k]);
      }
    } else if s.procs[c].asynMsg {
      if srcE != ANY {
        TryOneSignals(s, SlotOf(srcE), c);
      } else {
        TryAsyncSignals(s, c);
      }
    }
  }

  lemma MiniReceiveSignals(s: State, c: int, srcE: int, mapped: bool, nonblocking: bool)
    requires Shape(s) && Refs(s) && IsSlot(c) && Signals(s)
    requires srcE == ANY || IsSlot(SlotOf(srcE))
    ensures Signals(MiniReceive(s, c, srcE, mapped, nonblocking).state)
  {
    ReceiveNowSignals(s, c, srcE);
  }

  lemma {:induction false} SendaScanSignals(s: State, c: int, i: nat, done: bool)
    requires Shape(s) && IsSlot(c) && Signals(s) && i <= |s.privs[s.cfg.priv[c]].table|
    ensures Signals(SendaScan(s, c, i, done).state)
    decreases |s.privs[s.cfg.priv[c]].table| - i
  {
    var t := s.privs[s.cfg.priv[c]].table;
    if i < |t| && !t[i].Malformed() {
      if t[i].Empty() || t[i].done {
        SendaScanSignals(s, c, i + 1, done);
      } else {
        var r := SendaEntry(s, c, i);
        SignalsFrame(s, r.state);
        SendaScanSignals(r.state, c, i + 1, done && r.done);
      }
    }
  }

  lemma MiniSendaSignals(s: State, c: int, table: seq<Entry>, mapped: bool)
    requires Shape(s) && IsSlot(c) && Signals(s)
    ensures Signals(MiniSenda(s, c, table, mapped).state)
  {
    SignalsFrame(s, SendaStart(s, c, table));
    SendaScanSignals(SendaStart(s, c, table), c, 0, true);
  }

  lemma MiniSendSignals(s: State, c: int, dstE: int, buf: Buf, nonblocking: bool)
    requires Shape(s) && IsSlot(c) && IsSlot(SlotOf(dstE)) && Signals(s)
    ensures Signals(MiniSend(s, c, dstE, buf, nonblocking).state)
  {
    SignalsFrame(s, MiniSend(s, c, dstE, buf, nonblocking).state);
  }

  lemma SendRecSignals(s: State, c: int, ep: int, buf: Buf)
    requires Shape(s) && Refs(s) && IsSlot(c) && IsSlot(SlotOf(ep)) && Signals(s)
    ensures Signals(SendRec(s, c, ep, buf).state)
  {
    MiniSendShape(s, c, ep, buf, false);
    MiniSendSignals(s, c, ep, buf, false);
    MiniReceiveSignals(MiniSend(s, c, ep, buf, false).state, c, ep, buf.mapped, false);
  }

  lemma SysCallSignals(s: State, c: int, call: Call)
    requires Shape(s) && Refs(s) && IsSlot(c) && Signals(s)
    ensures Signals(SysCall(s, c, call).state)
  {
    if CallCheck(s, c, call) == OK {
      if call.nr == RECEIVE {
        SignalsFrame(s, WithReplyPend(s, c, false));
        MiniReceiveSignals(WithReplyPend(s, c, false), c, call.ep, call.buf.mapped, false);
      } else if call.nr == SENDREC {
        SignalsFrame(s, WithReplyPend(s, c, true));
        SendRecSignals(WithReplyPend(s, c, true), c, call.ep, call.buf);
      } else if call.nr == NOTIFY {
        NotifySignals(s, c, call.ep);
      } else if call.nr == SENDA {
        MiniSendaSignals(s, c, call.table, call.buf.mapped);
      } else if call.nr == SEND {
        MiniSendSignals(s, c, call.ep, call.buf, false);
      } else {
        MiniSendSignals(s, c, call.ep, call.buf, true);
      }
    }
  }

  /** Clearing an endpoint strands a signal exactly when the dying process uses the
      privilege structure of SYSTEM and some structure in use has signals pending. */
  lemma ClearEndpointSignals(s: State, rc: int)
    requires Shape(s) && IsSlot(rc) && Signals(s)
    ensures Signals(ClearEndpoint(s, rc)) <==>
      s.cfg.priv[rc] != s.cfg.priv[SYSTEM]
      || forall j :: 0 <= j < NR_SYS_PROCS && InUse(s, j) ==> s.privs[j].sigPending == {}
  {
    var r := ClearEndpoint(s, rc);
    forall j | 0 <= j < NR_SYS_PROCS
      ensures r.privs[j].sigPending == s.privs[j].sigPending
      ensures r.privs[j].notify ==
        if InUse(s, j) then s.privs[j].notify - {s.cfg.priv[rc]} else s.privs[j].notify
    {
    }
  }
}
