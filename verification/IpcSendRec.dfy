/** SENDREC is all or nothing, and traps never close a cycle of waits. */
module IpcSendRec {
  import opened WaitGraph
  import opened IpcState
  import opened IpcSteps
  import opened IpcInv
  import opened IpcKeeps
  import opened IpcCalls
  import opened IpcDeadlock
  import opened IpcHistory
  import opened IpcTraps

  // Nothing leads back from a process that waits for nobody.
  lemma IdleNotDeadlocked(s: State, trap: Trap, c: int, d: int)
    requires Shape(s) && IsSlot(c) && IsSlot(d) && !s.procs[d].sending && !s.procs[d].receiving
    ensures !Deadlocked(s, trap, c, d)
  {
    var g := Waits(s);
    forall k: nat | 0 < k ensures Follow(g, d, k) == NOBODY {
      assert Follow(g, d, k) == Follow(g, g[d], k - 1);
    }
  }

  // A caller queued at d waits for d, so d's chain cannot lead back to it.
  lemma QueuedNotDeadlocked(s: State, c: int, ep: int)
    requires Base(s) && IsSlot(c) && OkEndpoint(s.cfg, ep)
    requires s.procs[c].sending && !s.procs[c].receiving && s.procs[c].sendto == ep
    requires Acyclic(Waits(s)) || c == SlotOf(ep)
    ensures !Deadlocked(s, Receive, c, SlotOf(ep))
  {
    var d, g := SlotOf(ep), Waits(s);
    assert g[c] == d;
    if c == d {
      assert Follow(g, d, 1) == Follow(g, g[d], 0);
    } else {
      AcyclicIffNoCycle(g);
      forall k: nat | 0 < k ensures Follow(g, d, k) != c {
        assert Follow(g, c, k + 1) == Follow(g, g[c], k);
      }
    }
  }

  // The second half when the first half left the caller queued: block, same graph.
  lemma SecondHalfQueued(s: State, c: int, ep: int)
    requires Base(s) && Running(Unsent(s, c), c) && OkEndpoint(s.cfg, ep)
    requires s.procs[c].sending && s.procs[c].sendto == ep
    requires Acyclic(Waits(s)) || c == SlotOf(ep)
    ensures var r := MiniReceive(s, c, ep, true, false);
      r.status == OK && r.state == BlockReceiver(s, c, ep) && Waits(r.state) == Waits(s)
  {
    OkIsNotAny(s.cfg, ep);
    assert BlockingAt(s, c);
    QueuedNotDeadlocked(s, c, ep);
    var r := BlockReceiver(s, c, ep);
    assert forall i :: 0 <= i < NR_SLOTS ==> WaitOf(r.procs[i], NR_SLOTS) == WaitOf(s.procs[i], NR_SLOTS);
  }

  // The second half when the message was handed over: the partner waits for nobody.
  lemma SecondHalfHandedOver(s: State, c: int, ep: int)
    requires Base(s) && Running(s, c) && OkEndpoint(s.cfg, ep)
    requires var d := SlotOf(ep); Live(s, d) && !s.procs[d].sending && !s.procs[d].receiving
    ensures MiniReceive(s, c, ep, true, false).status == OK
  {
    var d, t := SlotOf(ep), ReceiveNow(s, c, ep);
    OkIsNotAny(s.cfg, ep);
    ReceiveNowKeeps(s, c, ep);
    if !t.delivered {
      assert OnlyAsync(s, t.state);
      assert t.state.procs[d] == s.procs[d].(asynMsg := t.state.procs[d].asynMsg);
      IdleNotDeadlocked(t.state, Receive, c, d);
    }
  }

  /** Once the send half of SENDREC succeeds the receive half cannot fail. */
  lemma SendRecAllOrNothing(s: State, c: int, ep: int, buf: Buf)
    requires Base(s) && Acyclic(Waits(s)) && Running(s, c) && OkEndpoint(s.cfg, ep)
    ensures SendRec(s, c, ep, buf).status == MiniSend(s, c, ep, buf, false).status
  {
    var m := MiniSend(s, c, ep, buf, false);
    if m.status == OK {
      MiniSendKeeps(s, c, ep, buf, false);
      AfterSend(s, c, ep, buf);
      MiniSendAcyclic(s, c, ep, buf, false);
      if m.state.procs[c].sending {
        SecondHalfQueued(m.state, c, ep);
      } else {
        HandedOver(s, c, ep, buf);
        SecondHalfHandedOver(m.state, c, ep);
      }
    }
  }

  lemma HandedOver(s: State, c: int, ep: int, buf: Buf)
    requires Base(s) && Running(s, c) && OkEndpoint(s.cfg, ep)
    requires var m := MiniSend(s, c, ep, buf, false); m.status == OK && !m.state.procs[c].sending
    ensures var r, d := MiniSend(s, c, ep, buf, false).state, SlotOf(ep);
      c != d && Live(r, d) && !r.procs[d].sending && !r.procs[d].receiving && Running(r, c)
  {
    assert BlockingAt(s, SlotOf(ep));
  }

  lemma SendRecAcyclic(s: State, c: int, ep: int, buf: Buf)
    requires Base(s) && Acyclic(Waits(s)) && Running(s, c) && OkEndpoint(s.cfg, ep)
    ensures var r := SendRec(s, c, ep, buf);
      Acyclic(Waits(r.state)) <==> !(r.status == OK && ep == s.cfg.ep[c])
  {
    var m := MiniSend(s, c, ep, buf, false);
    MiniSendAcyclic(s, c, ep, buf, false);
    SendRecAllOrNothing(s, c, ep, buf);
    if m.status == OK {
      MiniSendKeeps(s, c, ep, buf, false);
      AfterSend(s, c, ep, buf);
      if m.state.procs[c].sending {
        SecondHalfQueued(m.state, c, ep);
      } else {
        HandedOver(s, c, ep, buf);
        MiniReceiveAcyclic(m.state, c, ep, buf.mapped);
      }
    } else {
      SendIsLogged(s, c, ep, buf, false);
    }
  }

  // The caller has a notification from itself, as the lowest pending bit of its chunk.
  ghost predicate OwnBit(s: State, c: int)
    requires Shape(s) && IsSlot(c)
  {
    var v := s.cfg.priv[c];
    && s.cfg.owner[v] == c && v in s.privs[v].notify
    && forall b: nat :: (if v < CHUNK_BITS then 0 else CHUNK_BITS) <= b < v ==> b !in s.privs[v].notify
  }

  // The caller's own active table holds an entry for itself that can be delivered.
  ghost predicate OwnEntry(s: State, c: int)
    requires Shape(s) && IsSlot(c)
  {
    var v := s.cfg.priv[c];
    && s.procs[c].asynMsg && v != USER_PRIV && s.privs[v].active && MaySend(s.cfg, c, c)
    && EntryFor(s.privs[v].table, 0, s.cfg.ep[c])
  }

  // An undone entry for dst from i on, with no malformed one in front of it.
  ghost predicate EntryFor(t: seq<Entry>, i: nat, dst: int) {
    exists k :: i <= k < |t| && t[k].Undone() && t[k].dst == dst && NoneMalformed(t, i, k)
  }

  ghost predicate NoneMalformed(t: seq<Entry>, i: nat, k: int) {
    forall j :: i <= j < k && j < |t| ==> !t[j].Malformed()
  }

  lemma {:induction false} ScanFinds(t: seq<Entry>, i: nat, dst: int)
    requires i <= |t|
    ensures ScanTable(t, i, dst, false).scan.Found? <==> EntryFor(t, i, dst)
    decreases |t| - i
  {
    if i < |t| {
      ScanFinds(t, i + 1, dst);
      if EntryFor(t, i, dst) {
        var k :| i <= k < |t| && t[k].Undone() && t[k].dst == dst && NoneMalformed(t, i, k);
        assert k > i ==> NoneMalformed(t, i + 1, k) && !t[i].Malformed();
      }
      if EntryFor(t, i + 1, dst) && !t[i].Malformed() {
        var k :| i + 1 <= k < |t| && t[k].Undone() && t[k].dst == dst && NoneMalformed(t, i + 1, k);
        assert NoneMalformed(t, i, k);
      }
      assert NoneMalformed(t, i, i);
    }
  }

  lemma OwnBitIff(s: State, c: int)
    requires Shape(s) && Refs(s) && IsSlot(c)
    ensures NotifyPick(s, c, s.cfg.ep[c]) != NOBODY <==> OwnBit(s, c)
  {
    var v, bits := s.cfg.priv[c], s.privs[s.cfg.priv[c]].notify;
    var a, b := Lowest(bits, 0, CHUNK_BITS), Lowest(bits, CHUNK_BITS, NR_SYS_PROCS);
    assert SlotOf(s.cfg.ep[c]) == c && SlotOf(ANY) >= NR_SLOTS;
    assert a < CHUNK_BITS && s.cfg.owner[a] == c ==> a == v;
    assert b < NR_SYS_PROCS && s.cfg.owner[b] == c ==> b == v;
  }

  /** A RECEIVE from oneself is served at once if and only if one of the two is there. */
  lemma SelfServedIff(s: State, c: int)
    requires Base(s) && Running(s, c)
    ensures ReceiveNow(WithReplyPend(s, c, false), c, s.cfg.ep[c]).delivered <==> OwnBit(s, c) || OwnEntry(s, c)
  {
    var s1 := WithReplyPend(s, c, false);
    ReplyPendKeeps(s, c, false);
    SelfSearch(s1, c);
  }

  lemma SelfSearch(s: State, c: int)
    requires Core(s) && Running(s, c) && !s.procs[c].replyPend
    ensures ReceiveNow(s, c, s.cfg.ep[c]).delivered <==> OwnBit(s, c) || OwnEntry(s, c)
  {
    OwnBitIff(s, c);
    NotInOwnQueue(s, c);
    ScanFinds(s.privs[s.cfg.priv[c]].table, 0, s.cfg.ep[c]);
    SelfTryOne(s, c);
    OkIsNotAny(s.cfg, s.cfg.ep[c]);
  }

  lemma NotInOwnQueue(s: State, c: int)
    requires Shape(s) && Queues(s) && Running(s, c)
    ensures QueuePick(s, c, s.cfg.ep[c]) == |s.callq[c]|
  {
    assert QueueAt(s, c) && SlotOf(s.cfg.ep[c]) == c && SlotOf(ANY) >= NR_SLOTS;
    assert c in s.callq[c] <==> SendsTo(s, c, c);
  }

  lemma SelfTryOne(s: State, c: int)
    requires Shape(s) && IsSlot(c) && !s.procs[c].replyPend
    ensures TryOne(s, c, c).delivered <==>
      var v := s.cfg.priv[c];
      && v != USER_PRIV && s.privs[v].active && MaySend(s.cfg, c, c)
      && ScanTable(s.privs[v].table, 0, s.cfg.ep[c], false).scan.Found?
  {
  }

  // A blocking call on the caller's own endpoint that would really block.
  ghost predicate BlocksOnSelf(s: State, c: int, call: Call)
    requires Shape(s) && IsSlot(c)
  {
    && CallCheck(s, c, call) == OK && call.nr in {SEND, SENDREC, RECEIVE}
    && call.ep == s.cfg.ep[c] && call.buf.mapped
    && (if call.nr == RECEIVE then !OwnBit(s, c) && !OwnEntry(s, c) else call.buf.readable)
  }

  lemma SelfSend(s: State, c: int, buf: Buf)
    requires Base(s) && Running(s, c)
    ensures MiniSend(s, c, s.cfg.ep[c], buf, false).status == OK <==> buf.mapped && buf.readable
    ensures buf.mapped && buf.readable ==> MiniSend(s, c, s.cfg.ep[c], buf, false).state.procs[c].sending
  {
    IdleNotDeadlocked(s, Send, c, c);
  }

  lemma SelfReceive(s: State, c: int, mapped: bool)
    requires Base(s) && Running(s, c)
    ensures MiniReceive(s, c, s.cfg.ep[c], mapped, false).state.procs[c].receiving <==>
      mapped && !ReceiveNow(s, c, s.cfg.ep[c]).delivered
  {
    var t := ReceiveNow(s, c, s.cfg.ep[c]);
    ReceiverStays(s, c, s.cfg.ep[c]);
    ReceiveNowKeeps(s, c, s.cfg.ep[c]);
    OkIsNotAny(s.cfg, s.cfg.ep[c]);
    IdleNotDeadlocked(t.state, Receive, c, c);
    if !t.delivered {
      assert OnlyAsync(s, t.state);
      assert t.state.procs[c] == s.procs[c].(asynMsg := t.state.procs[c].asynMsg);
    }
  }

  lemma SendTrapAcyclic(s: State, c: int, call: Call)
    requires Base(s) && Acyclic(Waits(s)) && Running(s, c)
    requires CallCheck(s, c, call) == OK && call.nr == SEND
    ensures Acyclic(Waits(SysCall(s, c, call).state)) <==> !BlocksOnSelf(s, c, call)
  {
    MiniSendAcyclic(s, c, call.ep, call.buf, false);
    if call.ep == s.cfg.ep[c] {
      SelfSend(s, c, call.buf);
      SendIsLogged(s, c, call.ep, call.buf, false);
    }
  }

  lemma SendRecTrapAcyclic(s: State, c: int, call: Call)
    requires Base(s) && Acyclic(Waits(s)) && Running(s, c)
    requires CallCheck(s, c, call) == OK && call.nr == SENDREC
    ensures Acyclic(Waits(SysCall(s, c, call).state)) <==> !BlocksOnSelf(s, c, call)
  {
    var s1 := WithReplyPend(s, c, true);
    ReplyPendKeeps(s, c, true);
    WaitsFrame(s, s1);
    SendRecAcyclic(s1, c, call.ep, call.buf);
    SendRecAllOrNothing(s1, c, call.ep, call.buf);
    if call.ep == s.cfg.ep[c] {
      SelfSend(s1, c, call.buf);
    }
  }

  lemma ReceiveTrapAcyclic(s: State, c: int, call: Call)
    requires Base(s) && Acyclic(Waits(s)) && Running(s, c)
    requires CallCheck(s, c, call) == OK && call.nr == RECEIVE
    ensures Acyclic(Waits(SysCall(s, c, call).state)) <==> !BlocksOnSelf(s, c, call)
  {
    var s1 := WithReplyPend(s, c, false);
    ReplyPendKeeps(s, c, false);
    WaitsFrame(s, s1);
    MiniReceiveAcyclic(s1, c, call.ep, call.buf.mapped);
    if call.ep == s.cfg.ep[c] {
      SelfReceive(s1, c, call.buf.mapped);
      SelfServedIff(s, c);
    }
  }

  lemma OtherTrapAcyclic(s: State, c: int, call: Call)
    requires Base(s) && Acyclic(Waits(s)) && Running(s, c)
    requires call.nr !in {SEND, SENDREC, RECEIVE} || CallCheck(s, c, call) != OK
    ensures Acyclic(Waits(SysCall(s, c, call).state))
  {
    if CallCheck(s, c, call) == OK {
      if call.nr == SENDNB {
        MiniSendAcyclic(s, c, call.ep, call.buf, true);
      } else if call.nr == NOTIFY {
        NotifyAcyclic(s, c, call.ep);
      } else {
        MiniSendaEvolves(s, c, call.table, call.buf.mapped);
        EvolvesAcyclic(s, MiniSenda(s, c, call.table, call.buf.mapped).state, c);
      }
    }
  }

  lemma NotifyAcyclic(s: State, src: int, dstE: int)
    requires Base(s) && Acyclic(Waits(s)) && IsSlot(src) && !s.cfg.free[src]
    ensures Acyclic(Waits(MiniNotify(s, src, dstE).state))
  {
    MiniNotifyEvolves(s, src, dstE, NOBODY);
    EvolvesAcyclic(s, MiniNotify(s, src, dstE).state, NOBODY);
  }

  /** A trap leaves the graph of waits free of cycles if and only if it is not a
      blocking call on the caller itself. */
  lemma SysCallAcyclic(s: State, c: int, call: Call)
    requires Base(s) && Acyclic(Waits(s)) && Running(s, c)
    ensures Acyclic(Waits(SysCall(s, c, call).state)) <==> !BlocksOnSelf(s, c, call)
  {
    if CallCheck(s, c, call) == OK && call.nr == SEND {
      SendTrapAcyclic(s, c, call);
    } else if CallCheck(s, c, call) == OK && call.nr == SENDREC {
      SendRecTrapAcyclic(s, c, call);
    } else if CallCheck(s, c, call) == OK && call.nr == RECEIVE {
      ReceiveTrapAcyclic(s, c, call);
    } else {
      OtherTrapAcyclic(s, c, call);
    }
  }

  // -------------------------------------------------------------- traps that return

  lemma AcyclicEnds(s: State, d: int, c: int)
    requires Shape(s) && IsSlot(d) && IsSlot(c)
    requires Acyclic(Waits(s)[c := NOBODY])
    ensures WalkEnds(Waits(s), d, c)
  {
    var rank: seq<nat> :| Ranked(Waits(s)[c := NOBODY], rank);
    AcyclicWalkEnds(Waits(s), rank, d, c);
  }

  // A caller that waits for nobody.
  lemma RunningEnds(s: State, d: int, c: int)
    requires Shape(s) && Acyclic(Waits(s)) && IsSlot(d) && IsSlot(c) && !s.procs[c].sending && !s.procs[c].receiving
    ensures WalkEnds(Waits(s), d, c)
  {
    assert Waits(s)[c := NOBODY] == Waits(s);
    AcyclicEnds(s, d, c);
  }

  lemma SendRecReturnsAcyclic(s: State, c: int, ep: int, buf: Buf)
    requires Base(s) && Acyclic(Waits(s)) && Running(s, c) && OkEndpoint(s.cfg, ep)
    ensures SendRecReturns(s, c, ep, buf)
  {
    var d, m := SlotOf(ep), MiniSend(s, c, ep, buf, false);
    RunningEnds(s, d, c);
    if m.status == OK {
      MiniSendShape(s, c, ep, buf, false);
      if m.state.procs[c].sending {
        assert Waits(m.state)[c := NOBODY] == Waits(s);
        AcyclicEnds(m.state, d, c);
      } else {
        MiniSendAcyclic(s, c, ep, buf, false);
        HandedOver(s, c, ep, buf);
        RunningEnds(m.state, d, c);
      }
    }
  }

  /** While the waits form no cycle every trap comes back. */
  lemma AcyclicReturns(s: State, c: int, call: Call)
    requires Base(s) && Acyclic(Waits(s)) && Running(s, c)
    ensures Returns(s, c, call)
  {
    if CallCheck(s, c, call) == OK {
      if call.nr == SEND {
        RunningEnds(s, SlotOf(call.ep), c);
      } else if call.nr == RECEIVE && call.ep != ANY {
        var s1 := WithReplyPend(s, c, false);
        WaitsFrame(s, s1);
        RunningEnds(s1, SlotOf(call.ep), c);
      } else if call.nr == SENDREC {
        var s1 := WithReplyPend(s, c, true);
        ReplyPendKeeps(s, c, true);
        WaitsFrame(s, s1);
        SendRecReturnsAcyclic(s1, c, call.ep, call.buf);
      }
    }
  }
}
