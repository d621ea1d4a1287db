/**
 No kernel signal is lost on its way: what was added to the pending signals of a structure
 is still there, or was the argument of a notification that SYSTEM has since delivered; and
 a signal for a process stays with it until do_getksig takes it.
 */
module IpcCarried {
  import opened Options
  import opened WaitGraph
  import opened IpcState
  import opened IpcSteps
  import opened IpcInv
  import opened IpcKeeps
  import opened IpcCalls
  import opened IpcHistory
  import opened IpcTraps
  import opened IpcRuns

  // Between s and r, somebody who uses structure v was given a notification of SYSTEM that
  // carries sig.
  ghost predicate Carried(s: State, r: State, v: int, sig: int)
    requires Shape(s) && Shape(r)
  {
    exists i :: CarriedTo(s, r, v, sig, i)
  }

  ghost predicate CarriedTo(s: State, r: State, v: int, sig: int, i: int)
    requires Shape(s) && Shape(r)
  {
    && IsSlot(i) && s.cfg.priv[i] == v && s.procs[i].inbox.None?
    && var m := r.procs[i].inbox;
       && m.Some? && m.value.source == s.cfg.ep[SYSTEM]
       && m.value.payload.kind.Notification? && sig in m.value.payload.kind.arg
  }

  ghost predicate Accounted(s: State, r: State, v: int, sig: int)
    requires Shape(s) && Shape(r) && 0 <= v < NR_SYS_PROCS
  {
    sig in r.privs[v].sigPending || Carried(s, r, v, sig)
  }

  // Messages, the signals of structures and those of processes, none of them lost.
  ghost predicate Lossless(s: State, r: State)
    requires Shape(s)
  {
    && Shape(r) && r.cfg == s.cfg
    && (forall i :: 0 <= i < NR_SLOTS && s.procs[i].inbox.Some? ==> r.procs[i].inbox == s.procs[i].inbox)
    && (forall i :: 0 <= i < NR_SLOTS ==> s.procs[i].pending <= r.procs[i].pending)
    && (forall v, sig {:trigger Accounted(s, r, v, sig)} ::
          0 <= v < NR_SYS_PROCS && sig in s.privs[v].sigPending ==> Accounted(s, r, v, sig))
  }

  lemma LosslessTrans(s: State, m: State, r: State)
    requires Shape(s) && Lossless(s, m) && Lossless(m, r)
    ensures Lossless(s, r)
  {
    forall v, sig | 0 <= v < NR_SYS_PROCS && sig in s.privs[v].sigPending ensures Accounted(s, r, v, sig) {
      assert Accounted(s, m, v, sig);
      AccountedTrans(s, m, r, v, sig);
    }
  }

  lemma AccountedTrans(s: State, m: State, r: State, v: int, sig: int)
    requires Shape(s) && Lossless(s, m) && Lossless(m, r) && 0 <= v < NR_SYS_PROCS && Accounted(s, m, v, sig)
    ensures Accounted(s, r, v, sig)
  {
    if sig in m.privs[v].sigPending {
      assert Accounted(m, r, v, sig);
      AccountedBefore(s, m, r, v, sig);
    } else {
      var i :| CarriedTo(s, m, v, sig, i);
      assert CarriedTo(s, r, v, sig, i);
    }
  }

  lemma AccountedBefore(s: State, m: State, r: State, v: int, sig: int)
    requires Shape(s) && Lossless(s, m) && Shape(r) && 0 <= v < NR_SYS_PROCS && Accounted(m, r, v, sig)
    ensures Accounted(s, r, v, sig)
  {
    if Carried(m, r, v, sig) {
      var i :| CarriedTo(m, r, v, sig, i);
      assert CarriedTo(s, r, v, sig, i);
    }
  }

  // Nothing that matters here has changed.
  lemma LosslessFrame(s: State, r: State)
    requires Shape(s) && Shape(r) && r.cfg == s.cfg
    requires forall i :: 0 <= i < NR_SLOTS ==> s.procs[i].inbox.Some? ==> r.procs[i].inbox == s.procs[i].inbox
    requires forall i :: 0 <= i < NR_SLOTS ==> s.procs[i].pending <= r.procs[i].pending
    requires forall v :: 0 <= v < NR_SYS_PROCS ==> s.privs[v].sigPending <= r.privs[v].sigPending
    ensures Lossless(s, r)
  {
  }

  // -------------------------------------------------------------------- notifications

  // Whoever gets a notification from SYSTEM gets all its signals with it.
  lemma QueueNotifyLossless(s: State, src: int, d: int)
    requires Shape(s) && IsSlot(src) && IsSlot(d) && s.procs[d].inbox.None?
    ensures Lossless(s, QueueNotify(s, src, d))
  {
    var r := QueueNotify(s, src, d);
    forall v, sig | 0 <= v < NR_SYS_PROCS && sig in s.privs[v].sigPending ensures Accounted(s, r, v, sig) {
      if v == s.cfg.priv[d] && src == SYSTEM {
        assert CarriedTo(s, r, v, sig, d);
      }
    }
  }

  lemma NotifyLossless(s: State, src: int, dstE: int)
    requires Shape(s) && Blocking(s) && IsSlot(src)
    ensures Lossless(s, MiniNotify(s, src, dstE).state)
  {
    if OkEndpoint(s.cfg, dstE) {
      var d := SlotOf(dstE);
      assert BlockingAt(s, d);
      if WillReceive(s.procs[d], s.cfg.ep[src]) && !s.procs[d].replyPend {
        QueueNotifyLossless(s, src, d);
        LosslessFrame(QueueNotify(s, src, d), NotifyNow(s, src, d));
        LosslessTrans(s, QueueNotify(s, src, d), NotifyNow(s, src, d));
      }
    }
  }

  /** send_sig: the signal is pending afterwards, or has been given to the process. */
  lemma SendSigReaches(s: State, p: int, sig: int)
    requires Shape(s) && Blocking(s) && IsSlot(p)
    ensures Lossless(s, SendSig(s, p, sig)) && Accounted(s, SendSig(s, p, sig), s.cfg.priv[p], sig)
  {
    var s1 := AddSignal(s, p, sig);
    LosslessFrame(s, s1);
    assert Blocking(s1) by {
      forall i | 0 <= i < NR_SLOTS ensures BlockingAt(s1, i) {
        assert BlockingAt(s, i);
      }
    }
    NotifyLossless(s1, SYSTEM, s.cfg.ep[p]);
    LosslessTrans(s, s1, SendSig(s, p, sig));
    AccountedTrans(s, s1, SendSig(s, p, sig), s.cfg.priv[p], sig);
  }

  lemma BlockingUnseen(s: State, p: int, x: Proc)
    requires Shape(s) && Blocking(s) && IsSlot(p) && Unseen(s.procs[p], x)
    ensures Blocking(SetProc(s, p, x))
  {
    forall i | 0 <= i < NR_SLOTS ensures BlockingAt(SetProc(s, p, x), i) {
      assert BlockingAt(s, i);
    }
  }

  // A change of p, then the announcement to PM.
  lemma AnnouncementReaches(s: State, p: int, y: Proc)
    requires Shape(s) && Blocking(s) && IsSlot(p) && Unseen(s.procs[p], y) && s.procs[p].pending <= y.pending
    ensures var r := SendSig(SetProc(s, p, y), PM, SIGKSIG);
      && Lossless(s, r) && y.pending <= r.procs[p].pending && r.procs[p].signaled == y.signaled
      && Accounted(s, r, s.cfg.priv[PM], SIGKSIG)
  {
    var s1 := SetProc(s, p, y);
    LosslessFrame(s, s1);
    BlockingUnseen(s, p, y);
    SendSigReaches(s1, PM, SIGKSIG);
    LosslessTrans(s, s1, SendSig(s1, PM, SIGKSIG));
    AccountedBefore(s, s1, SendSig(s1, PM, SIGKSIG), s.cfg.priv[PM], SIGKSIG);
    assert y.pending <= SendSig(s1, PM, SIGKSIG).procs[p].pending;
  }

  /** cause_sig: the signal is pending for the process, and PM has been or will be told. */
  lemma CauseSigReaches(s: State, p: int, sig: int)
    requires Shape(s) && Blocking(s) && IsSlot(p)
    ensures var r, x := CauseSig(s, p, sig), s.procs[p];
      && Lossless(s, r) && sig in r.procs[p].pending
      && (sig !in x.pending && !x.signaled ==> r.procs[p].signaled && Accounted(s, r, s.cfg.priv[PM], SIGKSIG))
  {
    var x := s.procs[p];
    if sig in x.pending || x.signaled {
      LosslessFrame(s, CauseSig(s, p, sig));
    } else {
      AnnouncementReaches(s, p, x.(pending := x.pending + {sig}, signaled := true));
    }
  }

  lemma SigDelayLossless(s: State, p: int)
    requires Shape(s) && Blocking(s) && IsSlot(p)
    ensures Lossless(s, SigDelayDone(s, p))
  {
    var x := s.procs[p].(sigDelay := false);
    LosslessFrame(s, SetProc(s, p, x));
    BlockingUnseen(s, p, x);
    CauseSigReaches(SetProc(s, p, x), p, SIGNDELAY);
    LosslessTrans(s, SetProc(s, p, x), SigDelayDone(s, p));
  }

  // -------------------------------------------------------------------------- receive

  lemma TakeNotifyLossless(s: State, c: int, id: int)
    requires Shape(s) && IsSlot(c) && 0 <= id < NR_SYS_PROCS && s.cfg.owner[id] != NOBODY && s.procs[c].inbox.None?
    ensures Lossless(s, TakeNotify(s, c, id))
  {
    var v := s.cfg.priv[c];
    var s1 := SetPriv(s, v, s.privs[v].(notify := s.privs[v].notify - {id}));
    LosslessFrame(s, s1);
    QueueNotifyLossless(s1, s.cfg.owner[id], c);
    LosslessTrans(s, s1, TakeNotify(s, c, id));
  }

  lemma TakeQueuedLossless(s: State, c: int, k: nat)
    requires Shape(s) && IsSlot(c) && s.procs[c].inbox.None? && k < |s.callq[c]| && IsSlot(s.callq[c][k])
    ensures Lossless(s, TakeQueued(s, c, k))
  {
    LosslessFrame(s, TakeQueued(s, c, k));
  }

  lemma TakeCallerLossless(s: State, c: int, k: nat)
    requires Base(s) && Running(s, c) && k < |s.callq[c]| && IsSlot(s.callq[c][k])
    ensures var x, s1 := s.callq[c][k], TakeQueued(s, c, k);
      Lossless(s, if s.procs[x].sigDelay then SigDelayDone(s1, x) else s1)
  {
    var x, s1 := s.callq[c][k], TakeQueued(s, c, k);
    TakeQueuedLossless(s, c, k);
    if s.procs[x].sigDelay {
      assert Blocking(s1) by { TakeQueuedKeeps(s, c, k); }
      SigDelayLossless(s1, x);
      LosslessTrans(s, s1, SigDelayDone(s1, x));
    }
  }

  lemma TryOneLossless(s: State, src: int, d: int)
    requires Shape(s) && IsSlot(src) && IsSlot(d) && s.procs[d].inbox.None?
    ensures var r := TryOne(s, src, d); Lossless(s, r.state) && (!r.delivered ==> r.state.procs == s.procs)
  {
    LosslessFrame(s, TryOne(s, src, d).state);
  }

  // The loop of try_async has lost nothing and given d nothing yet.
  ghost predicate Unspent(s: State, t: State, d: int)
    requires Shape(s) && IsSlot(d)
  {
    Lossless(s, t) && t.procs[d].inbox.None?
  }

  lemma TryAsyncLossless(s: State, d: int)
    requires Shape(s) && IsSlot(d) && s.procs[d].inbox.None?
    ensures Lossless(s, TryAsync(s, d, 0, false).state)
  {
    var keep := (t: State, j: nat, b: bool) => Unspent(s, t, d);
    var done := (r: TryResult) => Lossless(s, r.state);
    LosslessFrame(s, s);
    forall t, j: nat, b | Shape(t) && j <= NR_SYS_PROCS && keep(t, j, b) ensures KeptByTry(d, j, t, b, keep, done) {
      TryStep(s, t, d, j, b);
    }
    TryAsyncInduction(s, d, 0, false, keep, done);
  }

  lemma TryStep(s: State, t: State, d: int, j: nat, postponed: bool)
    requires Shape(s) && IsSlot(d) && Unspent(s, t, d) && j <= NR_SYS_PROCS
    ensures j == NR_SYS_PROCS ==> Lossless(s, TryEnd(t, d, postponed).state)
    ensures j < NR_SYS_PROCS ==>
      var r := TryNext(t, d, j); Lossless(s, r.state) && (!r.delivered ==> Unspent(s, r.state, d))
  {
    if j == NR_SYS_PROCS {
      LosslessFrame(t, TryEnd(t, d, postponed).state);
      LosslessTrans(s, t, TryEnd(t, d, postponed).state);
    } else if t.cfg.owner[j] != NOBODY {
      TryOneLossless(t, t.cfg.owner[j], d);
      LosslessTrans(s, t, TryNext(t, d, j).state);
    }
  }

  lemma TablesLossless(s: State, c: int, srcE: int)
    requires Shape(s) && IsSlot(c) && s.procs[c].inbox.None? && (srcE == ANY || IsSlot(SlotOf(srcE)))
    ensures Lossless(s, if srcE != ANY then TryOne(s, SlotOf(srcE), c).state else TryAsync(s, c, 0, false).state)
  {
    if srcE != ANY {
      TryOneLossless(s, SlotOf(srcE), c);
    } else {
      TryAsyncLossless(s, c);
    }
  }

  lemma ReceiveNowLossless(s: State, c: int, srcE: int)
    requires Base(s) && Running(Unsent(s, c), c) && (srcE == ANY || IsSlot(SlotOf(srcE)))
    ensures Lossless(s, ReceiveNow(s, c, srcE).state)
  {
    PickedOwner(s, c, srcE);
    var id := if s.procs[c].replyPend then NOBODY else NotifyPick(s, c, srcE);
    var k, t := QueuePick(s, c, srcE), ReceiveNow(s, c, srcE).state;
    if s.procs[c].sending || (id == NOBODY && k == |s.callq[c]| && !s.procs[c].asynMsg) {
      assert t == s;
      LosslessFrame(s, s);
    } else if id != NOBODY {
      assert t == TakeNotify(s, c, id);
      TakeNotifyLossless(s, c, id);
    } else if k < |s.callq[c]| {
      TakeCallerLossless(s, c, k);
    } else {
      assert t == if srcE != ANY then TryOne(s, SlotOf(srcE), c).state else TryAsync(s, c, 0, false).state;
      TablesLossless(s, c, srcE);
    }
  }

  lemma MiniReceiveLossless(s: State, c: int, srcE: int, mapped: bool, nonblocking: bool)
    requires Base(s) && Running(Unsent(s, c), c) && (srcE == ANY || IsSlot(SlotOf(srcE)))
    ensures Lossless(s, MiniReceive(s, c, srcE, mapped, nonblocking).state)
  {
    ReceiveNowLossless(s, c, srcE);
    LosslessFrame(s, s);
    var t := ReceiveNow(s, c, srcE).state;
    LosslessFrame(t, BlockReceiver(t, c, srcE));
    LosslessTrans(s, t, BlockReceiver(t, c, srcE));
    ReceiveCases(s, c, srcE, mapped, nonblocking);
  }

  // ------------------------------------------------------------------ send and senda

  lemma MiniSendLossless(s: State, c: int, dstE: int, buf: Buf, nonblocking: bool)
    requires Shape(s) && Blocking(s) && IsSlot(c) && IsSlot(SlotOf(dstE))
    ensures Lossless(s, MiniSend(s, c, dstE, buf, nonblocking).state)
  {
    assert BlockingAt(s, SlotOf(dstE));
    LosslessFrame(s, MiniSend(s, c, dstE, buf, nonblocking).state);
  }

  lemma EntryLossless(s: State, v: nat, c: int, i: nat, d: int)
    requires Shape(s) && IsSlot(c) && IsSlot(d) && v < NR_SYS_PROCS && i < |s.privs[v].table| && s.procs[d].inbox.None?
    ensures var s1 := DeliverEntry(s, v, c, i, d); Lossless(s, SetProc(s1, d, s1.procs[d].(receiving := false)))
  {
    var s1 := DeliverEntry(s, v, c, i, d);
    LosslessFrame(s, SetProc(s1, d, s1.procs[d].(receiving := false)));
  }

  lemma RefuseLossless(s: State, v: nat, i: nat, result: Status)
    requires Shape(s) && v < NR_SYS_PROCS && i < |s.privs[v].table|
    ensures Lossless(s, RefuseEntry(s, v, i, result))
  {
    LosslessFrame(s, RefuseEntry(s, v, i, result));
  }

  lemma SendaEntryLossless(s: State, c: int, i: nat)
    requires Base(s) && IsSlot(c) && i < |s.privs[s.cfg.priv[c]].table|
    ensures Lossless(s, SendaEntry(s, c, i).state)
  {
    var v := s.cfg.priv[c];
    var e := s.privs[v].table[i];
    var d := SlotOf(e.dst);
    if !OkEndpoint(s.cfg, e.dst) {
      RefuseLossless(s, v, i, EDEADSRCDST);
    } else if d < NR_TASKS || !MaySend(s.cfg, c, d) {
      RefuseLossless(s, v, i, ECALLDENIED);
    } else if s.procs[d].dead {
      RefuseLossless(s, v, i, EDSTDIED);
    } else if WillReceive(s.procs[d], s.cfg.ep[c]) && (!e.noreply || !s.procs[d].replyPend) {
      assert BlockingAt(s, d);
      EntryLossless(s, v, c, i, d);
    } else {
      LosslessFrame(s, SetProc(s, d, s.procs[d].(asynMsg := true)));
    }
  }

  lemma {:induction false} SendaScanLossless(s: State, c: int, i: nat, done: bool)
    requires Base(s) && IsSlot(c) && i <= |s.privs[s.cfg.priv[c]].table|
    ensures Lossless(s, SendaScan(s, c, i, done).state)
    decreases |s.privs[s.cfg.priv[c]].table| - i
  {
    var t := s.privs[s.cfg.priv[c]].table;
    LosslessFrame(s, s);
    if i < |t| && !t[i].Malformed() {
      if t[i].Empty() || t[i].done {
        SendaScanLossless(s, c, i + 1, done);
      } else {
        var r := SendaEntry(s, c, i);
        SendaEntryKeeps(s, c, i);
        SendaEntryLossless(s, c, i);
        SendaScanLossless(r.state, c, i + 1, done && r.done);
        LosslessTrans(s, r.state, SendaScan(r.state, c, i + 1, done && r.done).state);
      }
    }
  }

  lemma MiniSendaLossless(s: State, c: int, table: seq<Entry>, mapped: bool)
    requires Base(s) && IsSlot(c)
    ensures Lossless(s, MiniSenda(s, c, table, mapped).state)
  {
    var v, r := s.cfg.priv[c], MiniSenda(s, c, table, mapped).state;
    if !s.cfg.sysProc[v] || table == [] || !mapped || |table| > 16 * NR_SLOTS {
      LosslessFrame(s, r);
    } else {
      var s1 := SendaStart(s, c, table);
      StartKeeps(s, c, table);
      LosslessFrame(s, s1);
      SendaScanLossless(s1, c, 0, true);
      var t := SendaScan(s1, c, 0, true).state;
      LosslessTrans(s, s1, t);
      LosslessFrame(t, r);
      LosslessTrans(s, t, r);
    }
  }

  // ---------------------------------------------------------------------------- traps

  lemma SendRecLossless(s: State, c: int, ep: int, buf: Buf)
    requires Base(s) && Running(s, c) && OkEndpoint(s.cfg, ep)
    ensures Lossless(s, SendRec(s, c, ep, buf).state)
  {
    var m := MiniSend(s, c, ep, buf, false);
    MiniSendLossless(s, c, ep, buf, false);
    if m.status == OK {
      MiniSendKeeps(s, c, ep, buf, false);
      AfterSend(s, c, ep, buf);
      MiniReceiveLossless(m.state, c, ep, buf.mapped, false);
      LosslessTrans(s, m.state, SendRec(s, c, ep, buf).state);
    }
  }

  lemma SysCallLossless(s: State, c: int, call: Call)
    requires Base(s) && Running(s, c)
    ensures Lossless(s, SysCall(s, c, call).state)
  {
    if CallCheck(s, c, call) != OK {
      LosslessFrame(s, s);
    } else if call.nr == RECEIVE {
      ReceiveTrapLossless(s, c, call.ep, call.buf.mapped);
    } else if call.nr == SENDREC {
      SendRecTrapLossless(s, c, call.ep, call.buf);
    } else if call.nr == NOTIFY {
      NotifyLossless(s, c, call.ep);
    } else if call.nr == SENDA {
      MiniSendaLossless(s, c, call.table, call.buf.mapped);
    } else {
      MiniSendLossless(s, c, call.ep, call.buf, call.nr == SENDNB);
    }
  }

  lemma ReceiveTrapLossless(s: State, c: int, ep: int, mapped: bool)
    requires Base(s) && Running(s, c) && (ep == ANY || IsSlot(SlotOf(ep)))
    ensures Lossless(s, MiniReceive(WithReplyPend(s, c, false), c, ep, mapped, false).state)
  {
    var s1 := WithReplyPend(s, c, false);
    ReplyPendKeeps(s, c, false);
    LosslessFrame(s, s1);
    MiniReceiveLossless(s1, c, ep, mapped, false);
    LosslessTrans(s, s1, MiniReceive(s1, c, ep, mapped, false).state);
  }

  lemma SendRecTrapLossless(s: State, c: int, ep: int, buf: Buf)
    requires Base(s) && Running(s, c) && OkEndpoint(s.cfg, ep)
    ensures Lossless(s, SendRec(WithReplyPend(s, c, true), c, ep, buf).state)
  {
    var s1 := WithReplyPend(s, c, true);
    ReplyPendKeeps(s, c, true);
    LosslessFrame(s, s1);
    SendRecLossless(s1, c, ep, buf);
    LosslessTrans(s, s1, SendRec(s1, c, ep, buf).state);
  }

  // ------------------------------------------------------------------------- over runs

  // Pending signals stay or are given out with a notification, and those of a process other
  // than `but` stay.
  ghost predicate NothingLost(s: State, r: State, but: int)
    requires Shape(s)
  {
    && Shape(r)
    && (forall v, sig {:trigger Accounted(s, r, v, sig)} ::
          0 <= v < NR_SYS_PROCS && sig in s.privs[v].sigPending ==> Accounted(s, r, v, sig))
    && (forall i :: 0 <= i < NR_SLOTS && i != but ==> s.procs[i].pending <= r.procs[i].pending)
  }

  lemma NothingLostFrame(s: State, r: State, but: int)
    requires Shape(s) && Shape(r)
    requires forall v :: 0 <= v < NR_SYS_PROCS ==> r.privs[v].sigPending == s.privs[v].sigPending
    requires forall i :: 0 <= i < NR_SLOTS && i != but ==> s.procs[i].pending <= r.procs[i].pending
    ensures NothingLost(s, r, but)
  {
  }

  lemma DeathLosesNothing(s: State, rc: int)
    requires Shape(s) && IsSlot(rc)
    ensures NothingLost(s, ClearEndpoint(s, rc), NOBODY)
  {
    forall v | 0 <= v < NR_SYS_PROCS ensures ClearEndpoint(s, rc).privs[v].sigPending == s.privs[v].sigPending {
      assert ClearedPrivs(s, rc)[v].sigPending == s.privs[v].sigPending;
    }
    forall i | 0 <= i < NR_SLOTS ensures ClearEndpoint(s, rc).procs[i].pending == s.procs[i].pending {
      assert ClearedProcs(s, rc)[i].pending == s.procs[i].pending;
    }
    NothingLostFrame(s, ClearEndpoint(s, rc), NOBODY);
  }

  lemma LosslessStep(s: State, r: State)
    requires Shape(s) && Lossless(s, r)
    ensures NothingLost(s, r, NOBODY)
  {
  }

  // The process whose signals a step takes.
  function Takes(ev: Event): (p: int) {
    if ev.TakeSignal? then ev.proc else NOBODY
  }

  lemma StepLosesNothing(s: State, ev: Event)
    requires Base(s) && Enabled(s, ev)
    ensures NothingLost(s, Apply(s, ev), Takes(ev))
  {
    var r := Apply(s, ev);
    match ev
    case Trap(c, call) =>
      SysCallLossless(s, c, call);
      LosslessStep(s, r);
    case Notify(src, dstE) =>
      NotifyLossless(s, src, dstE);
      LosslessStep(s, r);
    case Signal(p, sig) =>
      CauseSigReaches(s, p, sig);
      LosslessStep(s, r);
    case TakeSignal(p) => NothingLostFrame(s, r, p);
    case Deliver(p) => NothingLostFrame(s, r, NOBODY);
    case Die(rc) => DeathLosesNothing(s, rc);
  }

  // Some step of the run gives sig to a process that uses structure v.
  ghost predicate CarriedIn(s: State, evs: seq<Event>, v: int, sig: int)
    requires Inv(s) && Legal(s, evs)
    decreases |evs|
  {
    evs != [] && (
      || Carried(s, Apply(s, evs[0]), v, sig)
      || (StepKeepsInv(s, evs[0]); CarriedIn(Apply(s, evs[0]), evs[1..], v, sig)))
  }

  /** Over every run: a signal pending in a structure is still pending at the end, or SYSTEM
      has delivered a notification that carries it. */
  lemma {:induction false} SignalsAccountedFor(s: State, evs: seq<Event>, v: int, sig: int)
    requires Inv(s) && Legal(s, evs) && 0 <= v < NR_SYS_PROCS && sig in s.privs[v].sigPending
    ensures sig in After(s, evs).privs[v].sigPending || CarriedIn(s, evs, v, sig)
    decreases |evs|
  {
    if evs != [] {
      var r := Apply(s, evs[0]);
      StepKeepsInv(s, evs[0]);
      StepLosesNothing(s, evs[0]);
      assert Accounted(s, r, v, sig);
      if sig in r.privs[v].sigPending {
        SignalsAccountedFor(r, evs[1..], v, sig);
      }
    }
  }

  lemma StepLeavesPending(s: State, ev: Event, p: int, sig: int)
    requires Base(s) && Enabled(s, ev) && IsSlot(p) && sig in s.procs[p].pending && ev != TakeSignal(p)
    ensures sig in Apply(s, ev).procs[p].pending
  {
    StepLosesNothing(s, ev);
    assert s.procs[p].pending <= Apply(s, ev).procs[p].pending;
  }

  lemma {:induction false} PendingUntilTaken(s: State, evs: seq<Event>, p: int, sig: int)
    requires Inv(s) && Legal(s, evs) && IsSlot(p) && sig in s.procs[p].pending && TakeSignal(p) !in evs
    ensures sig in After(s, evs).procs[p].pending
    decreases |evs|
  {
    if evs != [] {
      StepKeepsInv(s, evs[0]);
      StepLeavesPending(s, evs[0], p, sig);
      PendingUntilTaken(Apply(s, evs[0]), evs[1..], p, sig);
    }
  }

  /** A kernel signal on its way to PM, over every run that follows cause_sig: it is pending
      for the process until do_getksig takes it, and PM has been given the announcement or
      still has it pending. */
  lemma SignalReachesManager(s: State, p: int, sig: int, evs: seq<Event>)
    requires Inv(s) && Legal(s, [Signal(p, sig)] + evs) && !s.procs[p].signaled && sig !in s.procs[p].pending
    ensures TakeSignal(p) !in evs ==> sig in After(s, [Signal(p, sig)] + evs).procs[p].pending
    ensures var v, all := s.cfg.priv[PM], [Signal(p, sig)] + evs;
      SIGKSIG in After(s, all).privs[v].sigPending || CarriedIn(s, all, v, SIGKSIG)
  {
    var ev, v := Signal(p, sig), s.cfg.priv[PM];
    var all := [ev] + evs;
    assert all[0] == ev && all[1..] == evs;
    StepKeepsInv(s, ev);
    CauseSigReaches(s, p, sig);
    var r := Apply(s, ev);
    if TakeSignal(p) !in evs {
      PendingUntilTaken(r, evs, p, sig);
    }
    if SIGKSIG in r.privs[v].sigPending {
      SignalsAccountedFor(r, evs, v, SIGKSIG);
    }
  }

  /** do_getksig takes all signals of a process, so that the next one is announced again. */
  lemma TakenIsAnnouncedAgain(s: State, p: int, sig: int)
    requires Shape(s) && Blocking(s) && IsSlot(p)
    ensures var t := TakeSignals(s, p);
      var r := CauseSig(t, p, sig);
      && t.procs[p].pending == {} && r.procs[p].signaled && {sig} <= r.procs[p].pending
      && Accounted(t, r, s.cfg.priv[PM], SIGKSIG)
  {
    var x := s.procs[p].(pending := {}, signaled := false);
    BlockingUnseen(s, p, x);
    CauseSigReaches(SetProc(s, p, x), p, sig);
  }
}
