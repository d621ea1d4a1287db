/** The composed operations, from mini_send to sys_call, keep the invariants. */
module IpcCalls {
  import opened WaitGraph
  import opened IpcState
  import opened IpcSteps
  import opened IpcInv
  import opened IpcKeeps

  // r differs from s only in async bookkeeping.
  ghost predicate OnlyAsync(s: State, r: State)
    requires Shape(s) && Shape(r)
  {
    && r.cfg == s.cfg && r.callq == s.callq && r.log == s.log
    && (forall i :: 0 <= i < NR_SLOTS ==> r.procs[i] == s.procs[i].(asynMsg := r.procs[i].asynMsg))
    && (forall j :: 0 <= j < NR_SYS_PROCS ==>
          r.privs[j].notify == s.privs[j].notify && r.privs[j].sigPending == s.privs[j].sigPending)
  }

  lemma DeliverEntryKeeps(s: State, v: nat, src: int, i: nat, d: int)
    requires Base(s) && IsSlot(src) && Running(s, d) && v < NR_SYS_PROCS && i < |s.privs[v].table|
    ensures Base(DeliverEntry(s, v, src, i, d))
  {
    BaseFrame(s, DeliverEntry(s, v, src, i, d));
  }

  lemma SetActiveKeeps(s: State, v: nat, active: bool)
    requires Base(s) && v < NR_SYS_PROCS
    ensures var r := SetPriv(s, v, s.privs[v].(active := active)); Base(r) && OnlyAsync(s, r)
  {
    BaseFrame(s, SetPriv(s, v, s.privs[v].(active := active)));
  }

  lemma TryOneKeeps(s: State, src: int, d: int)
    requires Base(s) && IsSlot(src) && Running(s, d)
    ensures var r := TryOne(s, src, d);
      Base(r.state) && (!r.delivered ==> OnlyAsync(s, r.state) && r.state.procs == s.procs)
  {
    var v := s.cfg.priv[src];
    if v != USER_PRIV && s.privs[v].active && MaySend(s.cfg, src, d) {
      ScanIndex(s.privs[v].table, 0, s.cfg.ep[d], s.procs[d].replyPend);
      match ScanTable(s.privs[v].table, 0, s.cfg.ep[d], s.procs[d].replyPend).scan
      case Found(i) => DeliverEntryKeeps(s, v, src, i, d);
      case BadBits => SetActiveKeeps(s, v, false);
      case Nothing(allDone) => SetActiveKeeps(s, v, s.privs[v].active && !allDone);
    }
  }

  lemma TryNextKeeps(s: State, d: int, j: nat)
    requires Base(s) && Running(s, d) && j < NR_SYS_PROCS
    ensures var r := TryNext(s, d, j);
      Base(r.state) && (!r.delivered ==> OnlyAsync(s, r.state) && r.state.procs == s.procs)
  {
    if s.cfg.owner[j] != NOBODY {
      TryOneKeeps(s, s.cfg.owner[j], d);
    }
  }

  // Where the loop of try_async is: nothing but async bookkeeping has changed.
  ghost predicate Searching(s: State, t: State, d: int)
    requires Shape(s)
  {
    Base(t) && OnlyAsync(s, t) && Running(t, d)
  }

  ghost predicate Searched(s: State, r: TryResult)
    requires Shape(s)
  {
    Base(r.state) && (!r.delivered ==> OnlyAsync(s, r.state))
  }

  lemma TryAsyncKeeps(s: State, d: int)
    requires Base(s) && Running(s, d)
    ensures Searched(s, TryAsync(s, d, 0, false))
  {
    var keep := (t: State, j: nat, b: bool) => Searching(s, t, d);
    var done := (r: TryResult) => Searched(s, r);
    forall t, j: nat, b | Shape(t) && j <= NR_SYS_PROCS && keep(t, j, b) ensures KeptByTry(d, j, t, b, keep, done) {
      SearchStep(s, t, d, j, b);
    }
    TryAsyncInduction(s, d, 0, false, keep, done);
  }

  lemma SearchStep(s: State, t: State, d: int, j: nat, postponed: bool)
    requires Shape(s) && Searching(s, t, d) && j <= NR_SYS_PROCS
    ensures j == NR_SYS_PROCS ==> Searched(s, TryEnd(t, d, postponed))
    ensures j < NR_SYS_PROCS ==>
      var r := TryNext(t, d, j); if r.delivered then Searched(s, r) else Searching(s, r.state, d)
  {
    if j == NR_SYS_PROCS {
      AsynMsgKeeps(t, d, t.procs[d].asynMsg && postponed);
      OnlyAsyncTrans(s, t, TryEnd(t, d, postponed).state);
    } else {
      TryNextKeeps(t, d, j);
      var r := TryNext(t, d, j);
      if !r.delivered {
        OnlyAsyncTrans(s, t, r.state);
      }
    }
  }

  lemma AsynMsgKeeps(s: State, d: int, b: bool)
    requires Base(s) && IsSlot(d)
    ensures var r := SetProc(s, d, s.procs[d].(asynMsg := b)); Base(r) && OnlyAsync(s, r)
  {
    BaseFrame(s, SetProc(s, d, s.procs[d].(asynMsg := b)));
  }

  lemma OnlyAsyncTrans(s: State, m: State, r: State)
    requires Shape(s) && Shape(m) && Shape(r) && OnlyAsync(s, m) && OnlyAsync(m, r)
    ensures OnlyAsync(s, r)
  {
    forall i | 0 <= i < NR_SLOTS ensures r.procs[i] == s.procs[i].(asynMsg := r.procs[i].asynMsg) {
      assert m.procs[i] == s.procs[i].(asynMsg := m.procs[i].asynMsg);
    }
  }

  lemma NoBits(bits: set<nat>)
    requires Lowest(bits, 0, CHUNK_BITS) == CHUNK_BITS && Lowest(bits, CHUNK_BITS, NR_SYS_PROCS) == NR_SYS_PROCS
    requires forall b :: b in bits ==> b < NR_SYS_PROCS
    ensures bits == {}
  {
    if b :| b in bits {
      assert false;
    }
  }

  lemma PickedOwner(s: State, c: int, srcE: int)
    requires Shape(s) && Refs(s) && IsSlot(c)
    ensures var id := NotifyPick(s, c, srcE); id != NOBODY ==> s.cfg.owner[id] != NOBODY
    ensures NotifyPick(s, c, ANY) == NOBODY ==> s.privs[s.cfg.priv[c]].notify == {}
  {
    var bits := s.privs[s.cfg.priv[c]].notify;
    assert bits <= Owned(s.cfg);
    if NotifyPick(s, c, ANY) == NOBODY {
      NoBits(bits);
    }
  }

  lemma TakeCallerKeeps(s: State, c: int, k: nat)
    requires Base(s) && Running(s, c) && k < |s.callq[c]|
    ensures IsSlot(s.callq[c][k])
    ensures var x, s1 := s.callq[c][k], TakeQueued(s, c, k);
      Base(if s.procs[x].sigDelay then SigDelayDone(s1, x) else s1)
  {
    TakeQueuedKeeps(s, c, k);
    CallerFacts(s, c, k);
    SigDelayDoneKeeps(TakeQueued(s, c, k), s.callq[c][k]);
  }

  lemma ReceiveNowKeeps(s: State, c: int, srcE: int)
    requires Base(s) && (Running(s, c) || (Running(Unsent(s, c), c) && s.procs[c].sending))
    requires srcE == ANY || IsSlot(SlotOf(srcE))
    ensures var r := ReceiveNow(s, c, srcE);
      Base(r.state) && (!r.delivered ==> OnlyAsync(s, r.state))
  {
    PickedOwner(s, c, srcE);
    var id := if s.procs[c].replyPend then NOBODY else NotifyPick(s, c, srcE);
    var k := QueuePick(s, c, srcE);
    if s.procs[c].sending {
    } else if id != NOBODY {
      TakeNotifyKeeps(s, c, id);
    } else if k < |s.callq[c]| {
      TakeCallerKeeps(s, c, k);
    } else if s.procs[c].asynMsg {
      if srcE != ANY {
        TryOneKeeps(s, SlotOf(srcE), c);
      } else {
        TryAsyncKeeps(s, c);
      }
    }
  }

  // s with the send of c undone: c may still be blocked in the first half of SENDREC.
  ghost function Unsent(s: State, c: int): (r: State)
    requires Shape(s)
  {
    if IsSlot(c) then SetProc(s, c, s.procs[c].(sending := false)) else s
  }

  lemma MiniReceiveKeeps(s: State, c: int, srcE: int, mapped: bool, nonblocking: bool)
    requires Base(s) && Running(Unsent(s, c), c)
    requires srcE == ANY || OkEndpoint(s.cfg, srcE)
    requires s.procs[c].sending ==> srcE == s.procs[c].sendto
    requires srcE == ANY ==> !s.procs[c].sending && !s.procs[c].replyPend
    ensures Base(MiniReceive(s, c, srcE, mapped, nonblocking).state)
  {
    ReceiveNowKeeps(s, c, srcE);
    var t := ReceiveNow(s, c, srcE);
    var r := MiniReceive(s, c, srcE, mapped, nonblocking).state;
    ReceiveCases(s, c, srcE, mapped, nonblocking);
    if r == s {
    } else if r == t.state {
    } else {
      SearchedKeeps(s, t.state, c, srcE);
    }
  }

  // What mini_receive does besides searching.
  lemma ReceiveCases(s: State, c: int, srcE: int, mapped: bool, nonblocking: bool)
    requires Shape(s) && Refs(s) && IsSlot(c) && (srcE == ANY || IsSlot(SlotOf(srcE)))
    ensures var r, t := MiniReceive(s, c, srcE, mapped, nonblocking).state, ReceiveNow(s, c, srcE);
      || r == s || r == t.state
      || (r == BlockReceiver(t.state, c, srcE) && !t.delivered && (srcE == ANY || !s.procs[SlotOf(srcE)].dead))
  {
  }

  lemma SearchedKeeps(s: State, t: State, c: int, srcE: int)
    requires Base(s) && Base(t) && OnlyAsync(s, t) && Running(Unsent(s, c), c)
    requires srcE == ANY || (OkEndpoint(s.cfg, srcE) && !s.procs[SlotOf(srcE)].dead)
    requires s.procs[c].sending ==> srcE == s.procs[c].sendto
    requires srcE == ANY ==> !s.procs[c].sending && !s.procs[c].replyPend
    requires !ReceiveNow(s, c, srcE).delivered
    ensures Base(BlockReceiver(t, c, srcE))
  {
    if !s.procs[c].sending {
      NothingFound(s, c, srcE);
    }
    BlockSearchedKeeps(s, t, c, srcE);
  }

  // What a search that found nothing has seen.
  lemma NothingFound(s: State, c: int, srcE: int)
    requires Shape(s) && Refs(s) && IsSlot(c) && (srcE == ANY || IsSlot(SlotOf(srcE)))
    requires !ReceiveNow(s, c, srcE).delivered && !s.procs[c].sending
    ensures QueuePick(s, c, srcE) == |s.callq[c]|
    ensures srcE == ANY && !s.procs[c].replyPend ==> s.privs[s.cfg.priv[c]].notify == {}
  {
    PickedOwner(s, c, srcE);
  }

  // Blocking after a search that found nothing.
  lemma BlockSearchedKeeps(s: State, t: State, c: int, srcE: int)
    requires Base(s) && Base(t) && OnlyAsync(s, t) && Running(Unsent(s, c), c)
    requires srcE == ANY || (OkEndpoint(s.cfg, srcE) && !s.procs[SlotOf(srcE)].dead)
    requires s.procs[c].sending ==> srcE == s.procs[c].sendto
    requires !s.procs[c].sending ==> QueuePick(s, c, srcE) == |s.callq[c]|
    requires srcE == ANY ==> !s.procs[c].sending && !s.procs[c].replyPend && s.privs[s.cfg.priv[c]].notify == {}
    ensures Base(BlockReceiver(t, c, srcE))
  {
    assert t.procs[c] == s.procs[c].(asynMsg := t.procs[c].asynMsg);
    if srcE != ANY {
      assert t.procs[SlotOf(srcE)] == s.procs[SlotOf(srcE)].(asynMsg := t.procs[SlotOf(srcE)].asynMsg);
    }
    BlockReceiverKeeps(t, c, srcE);
  }

  lemma MiniSendKeeps(s: State, c: int, dstE: int, buf: Buf, nonblocking: bool)
    requires Base(s) && Running(s, c) && OkEndpoint(s.cfg, dstE)
    ensures Base(MiniSend(s, c, dstE, buf, nonblocking).state)
  {
    var d := SlotOf(dstE);
    var r := MiniSend(s, c, dstE, buf, nonblocking);
    if r.status == OK {
      if WillReceive(s.procs[d], s.cfg.ep[c]) {
        HandOverKeeps(s, c, d, buf.body);
      } else {
        BlockSenderKeeps(s, c, dstE, buf.body);
      }
    }
  }

  // After a successful first half of SENDREC the caller either runs on or is queued.
  lemma AfterSend(s: State, c: int, dstE: int, buf: Buf)
    requires Base(s) && Running(s, c) && OkEndpoint(s.cfg, dstE)
    requires MiniSend(s, c, dstE, buf, false).status == OK
    ensures var r := MiniSend(s, c, dstE, buf, false).state;
      Shape(r) && Running(Unsent(r, c), c) && (r.procs[c].sending ==> r.procs[c].sendto == dstE)
  {
    var d, r := SlotOf(dstE), MiniSend(s, c, dstE, buf, false).state;
    if WillReceive(s.procs[d], s.cfg.ep[c]) {
      assert r == HandOver(s, c, d, buf.body);
    } else {
      assert r == BlockSender(s, c, dstE, buf.body);
    }
  }

  lemma OkIsNotAny(g: Config, e: int)
    requires ConfigOk(g) && OkEndpoint(g, e)
    ensures e != ANY
  {
    assert SlotOf(ANY) >= NR_SLOTS;
  }

  lemma SendRecKeeps(s: State, c: int, ep: int, buf: Buf)
    requires Base(s) && Running(s, c) && OkEndpoint(s.cfg, ep)
    ensures Base(SendRec(s, c, ep, buf).state)
  {
    MiniSendKeeps(s, c, ep, buf, false);
    var r := MiniSend(s, c, ep, buf, false);
    if r.status == OK {
      AfterSend(s, c, ep, buf);
      OkIsNotAny(s.cfg, ep);
      SecondHalfKeeps(r.state, c, ep, buf.mapped);
    }
  }

  lemma SecondHalfKeeps(s: State, c: int, ep: int, mapped: bool)
    requires Base(s) && Running(Unsent(s, c), c) && OkEndpoint(s.cfg, ep) && ep != ANY
    requires s.procs[c].sending ==> s.procs[c].sendto == ep
    ensures Base(MiniReceive(s, c, ep, mapped, false).state)
  {
    MiniReceiveKeeps(s, c, ep, mapped, false);
  }

  // ---------------------------------------------------------------- mini_senda

  // A receiver that waits for this entry gets it and is released.
  lemma EntryHandedOver(s: State, v: nat, c: int, i: nat, d: int)
    requires Base(s) && IsSlot(c) && IsSlot(d) && v < NR_SYS_PROCS && i < |s.privs[v].table|
    requires s.procs[d].receiving
    ensures var s1 := DeliverEntry(s, v, c, i, d);
      Base(SetProc(s1, d, s1.procs[d].(receiving := false)))
  {
    assert BlockingAt(s, d);
    var s1 := DeliverEntry(s, v, c, i, d);
    BaseFrame(s, SetProc(s1, d, s1.procs[d].(receiving := false)));
  }

  lemma RefuseEntryKeeps(s: State, v: nat, i: nat, result: Status)
    requires Base(s) && v < NR_SYS_PROCS && i < |s.privs[v].table|
    ensures Base(RefuseEntry(s, v, i, result))
  {
    BaseFrame(s, RefuseEntry(s, v, i, result));
  }

  lemma FlagKeeps(s: State, d: int)
    requires Base(s) && IsSlot(d)
    ensures Base(SetProc(s, d, s.procs[d].(asynMsg := true)))
  {
    BaseFrame(s, SetProc(s, d, s.procs[d].(asynMsg := true)));
  }

  lemma SendaEntryKeeps(s: State, c: int, i: nat)
    requires Base(s) && IsSlot(c) && i < |s.privs[s.cfg.priv[c]].table|
    ensures Base(SendaEntry(s, c, i).state)
  {
    var v := s.cfg.priv[c];
    var e := s.privs[v].table[i];
    var d := SlotOf(e.dst);
    if !OkEndpoint(s.cfg, e.dst) {
      RefuseEntryKeeps(s, v, i, EDEADSRCDST);
    } else if d < NR_TASKS || !MaySend(s.cfg, c, d) {
      RefuseEntryKeeps(s, v, i, ECALLDENIED);
    } else if s.procs[d].dead {
      RefuseEntryKeeps(s, v, i, EDSTDIED);
    } else if WillReceive(s.procs[d], s.cfg.ep[c]) && (!e.noreply || !s.procs[d].replyPend) {
      EntryHandedOver(s, v, c, i, d);
    } else {
      FlagKeeps(s, d);
    }
  }

  lemma {:induction false} SendaScanKeeps(s: State, c: int, i: nat, done: bool)
    requires Base(s) && IsSlot(c) && i <= |s.privs[s.cfg.priv[c]].table|
    ensures Base(SendaScan(s, c, i, done).state)
    decreases |s.privs[s.cfg.priv[c]].table| - i
  {
    var t := s.privs[s.cfg.priv[c]].table;
    if i < |t| && !t[i].Malformed() {
      if t[i].Empty() || t[i].done {
        SendaScanKeeps(s, c, i + 1, done);
      } else {
        SendaEntryKeeps(s, c, i);
        var r := SendaEntry(s, c, i);
        SendaScanKeeps(r.state, c, i + 1, done && r.done);
      }
    }
  }

  lemma MiniSendaKeeps(s: State, c: int, table: seq<Entry>, mapped: bool)
    requires Base(s) && IsSlot(c)
    ensures Base(MiniSenda(s, c, table, mapped).state)
  {
    var v := s.cfg.priv[c];
    if !s.cfg.sysProc[v] || table == [] || !mapped || |table| > 16 * NR_SLOTS {
      ActivityKeeps(s, v, false);
    } else {
      StartKeeps(s, c, table);
      SendaScanKeeps(SendaStart(s, c, table), c, 0, true);
      ActivityKeeps(SendaScan(SendaStart(s, c, table), c, 0, true).state, v, true);
    }
  }

  lemma StartKeeps(s: State, c: int, table: seq<Entry>)
    requires Base(s) && IsSlot(c)
    ensures Base(SendaStart(s, c, table))
  {
    BaseFrame(s, SendaStart(s, c, table));
  }

  lemma ActivityKeeps(s: State, v: nat, active: bool)
    requires Base(s) && v < NR_SYS_PROCS
    ensures Base(SetPriv(s, v, s.privs[v].(active := active)))
  {
    BaseFrame(s, SetPriv(s, v, s.privs[v].(active := active)));
  }

  lemma ReplyPendKeeps(s: State, c: int, b: bool)
    requires Base(s) && Running(s, c)
    ensures var r := WithReplyPend(s, c, b); Base(r) && Running(r, c) && Running(Unsent(r, c), c)
  {
    BaseFrame(s, WithReplyPend(s, c, b));
  }

  lemma SysCallKeeps(s: State, c: int, call: Call)
    requires Base(s) && Running(s, c)
    ensures Base(SysCall(s, c, call).state)
  {
    if CallCheck(s, c, call) == OK {
      if call.nr == SEND || call.nr == SENDNB {
        MiniSendKeeps(s, c, call.ep, call.buf, call.nr == SENDNB);
      } else if call.nr == RECEIVE {
        ReplyPendKeeps(s, c, false);
        MiniReceiveKeeps(WithReplyPend(s, c, false), c, call.ep, call.buf.mapped, false);
      } else if call.nr == SENDREC {
        ReplyPendKeeps(s, c, true);
        SendRecKeeps(WithReplyPend(s, c, true), c, call.ep, call.buf);
      } else if call.nr == NOTIFY {
        MiniNotifyKeeps(s, c, call.ep);
      } else {
        MiniSendaKeeps(s, c, call.table, call.buf.mapped);
      }
    }
  }
}
