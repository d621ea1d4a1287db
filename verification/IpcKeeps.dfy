/** Every message-passing operation keeps the invariants. */
module IpcKeeps {
  import opened Options
  import opened Seqs
  import opened WaitGraph
  import opened IpcState
  import opened IpcSteps
  import opened IpcInv

  // ------------------------------------------------------------ frame lemmas

  // p became q without sending differently and without starting to receive.
  predicate Looser(p: Proc, q: Proc) {
    && q.dead == p.dead && q.sending == p.sending && q.sendto == p.sendto
    && (q.receiving ==> p.receiving && q.getfrom == p.getfrom && q.replyPend == p.replyPend && q.inbox == p.inbox)
  }

  lemma CoreFrame(s: State, r: State)
    requires Core(s) && Shape(r) && Refs(r) && r.cfg == s.cfg && r.callq == s.callq
    requires forall i :: 0 <= i < NR_SLOTS ==> Looser(s.procs[i], r.procs[i])
    ensures Core(r)
  {
    forall i | 0 <= i < NR_SLOTS ensures BlockingAt(r, i) {
      assert BlockingAt(s, i) && Looser(s.procs[i], r.procs[i]);
    }
    forall i | 0 <= i < NR_SLOTS && Live(r, i) ensures QueueAt(r, i) {
      assert QueueAt(s, i);
      forall x: nat ensures x in r.callq[i] <==> SendsTo(r, x, i) {
        assert x in s.callq[i] <==> SendsTo(s, x, i);
      }
    }
    forall p, x | 0 <= p < NR_SLOTS && 0 <= x < NR_SLOTS && SendsTo(r, x, p)
      ensures !WillReceive(r.procs[p], r.cfg.ep[x])
    {
      assert SendsTo(s, x, p);
    }
  }

  // The direct message a process is about to get, if any.
  function DirectIn(p: Proc): (m: Option<Msg>) {
    if p.inbox.Some? && p.inbox.value.payload.kind.Direct? then p.inbox else None
  }

  predicate SameMail(p: Proc, q: Proc) {
    && q.dead == p.dead && q.sending == p.sending && q.sendto == p.sendto && q.sendmsg == p.sendmsg
    && DirectIn(q) == DirectIn(p)
  }

  lemma MailFrame(s: State, r: State)
    requires Shape(s) && Refs(s) && Mail(s) && Shape(r) && Refs(r)
    requires r.cfg == s.cfg && r.callq == s.callq && r.log == s.log
    requires forall i :: 0 <= i < NR_SLOTS ==> SameMail(s.procs[i], r.procs[i])
    ensures Mail(r)
  {
    forall i | 0 <= i < NR_SLOTS && Live(r, i) ensures ArrivalAt(r, i) {
      assert ArrivalAt(s, i);
      forall a, b | 0 <= a < b < |r.callq[i]|
        ensures Tag(r.procs[r.callq[i][a]]) < Tag(r.procs[r.callq[i][b]])
      {
        assert SameMail(s.procs[s.callq[i][a]], r.procs[s.callq[i][a]]);
        assert SameMail(s.procs[s.callq[i][b]], r.procs[s.callq[i][b]]);
      }
    }
    forall x | 0 <= x < NR_SLOTS ensures SenderHolds(r, x) && ReceiverHolds(r, x) {
      assert SenderHolds(s, x) && ReceiverHolds(s, x) && SameMail(s.procs[x], r.procs[x]);
    }
    forall t | 0 <= t < |r.log| ensures PlaceHeld(r, t) {
      assert PlaceHeld(s, t);
    }
  }

  lemma HandOverKeeps(s: State, c: int, d: int, body: int)
    requires Base(s) && Running(s, c) && IsSlot(d) && WillReceive(s.procs[d], s.cfg.ep[c])
    ensures Base(HandOver(s, c, d, body))
  {
    var r := HandOver(s, c, d, body);
    CoreFrame(s, r);
    HandOverMail(s, c, d, body);
  }

  lemma HandOverMail(s: State, c: int, d: int, body: int)
    requires Base(s) && Running(s, c) && IsSlot(d) && WillReceive(s.procs[d], s.cfg.ep[c])
    ensures Refs(HandOver(s, c, d, body)) && Mail(HandOver(s, c, d, body))
  {
    var r := HandOver(s, c, d, body);
    assert BlockingAt(s, d);
    forall i | 0 <= i < NR_SLOTS && Live(r, i) ensures ArrivalAt(r, i) {
      assert ArrivalAt(s, i);
    }
    HandOverDelivery(s, c, d, body);
  }

  lemma HandOverDelivery(s: State, c: int, d: int, body: int)
    requires Shape(s) && Delivery(s) && IsSlot(c) && IsSlot(d) && s.procs[d].inbox.None?
    ensures Delivery(HandOver(s, c, d, body))
  {
    var r := HandOver(s, c, d, body);
    forall x | 0 <= x < NR_SLOTS ensures SenderHolds(r, x) && ReceiverHolds(r, x) {
      assert SenderHolds(s, x) && ReceiverHolds(s, x);
    }
    forall t | 0 <= t < |r.log| ensures PlaceHeld(r, t) {
      if t < |s.log| {
        assert PlaceHeld(s, t);
      }
    }
  }

  lemma BlockSenderKeeps(s: State, c: int, dstE: int, body: int)
    requires Base(s) && Running(s, c) && OkEndpoint(s.cfg, dstE) && Live(s, SlotOf(dstE))
    requires !WillReceive(s.procs[SlotOf(dstE)], s.cfg.ep[c])
    ensures Base(BlockSender(s, c, dstE, body))
  {
    BlockSenderCore(s, c, dstE, body);
    BlockSenderMail(s, c, dstE, body);
  }

  lemma BlockSenderCore(s: State, c: int, dstE: int, body: int)
    requires Core(s) && Running(s, c) && OkEndpoint(s.cfg, dstE) && Live(s, SlotOf(dstE))
    requires !WillReceive(s.procs[SlotOf(dstE)], s.cfg.ep[c])
    ensures Core(BlockSender(s, c, dstE, body))
  {
    var r := BlockSender(s, c, dstE, body);
    var d := SlotOf(dstE);
    forall i | 0 <= i < NR_SLOTS ensures BlockingAt(r, i) {
      assert BlockingAt(s, i);
    }
    forall i | 0 <= i < NR_SLOTS && Live(r, i) ensures QueueAt(r, i) {
      assert QueueAt(s, i);
      assert c in s.callq[i] <==> SendsTo(s, c, i);
      if i == d {
        AppendKeeps(s.callq[d], c);
      }
      forall x: nat ensures x in r.callq[i] <==> SendsTo(r, x, i) {
        assert x in s.callq[i] <==> SendsTo(s, x, i);
      }
    }
    forall p, x | 0 <= p < NR_SLOTS && 0 <= x < NR_SLOTS && SendsTo(r, x, p)
      ensures !WillReceive(r.procs[p], r.cfg.ep[x])
    {
      assert x != c ==> SendsTo(s, x, p);
    }
  }

  lemma BlockSenderMail(s: State, c: int, dstE: int, body: int)
    requires Core(s) && Mail(s) && Running(s, c) && OkEndpoint(s.cfg, dstE) && Live(s, SlotOf(dstE))
    ensures Refs(BlockSender(s, c, dstE, body)) && Mail(BlockSender(s, c, dstE, body))
  {
    var r := BlockSender(s, c, dstE, body);
    forall i | 0 <= i < NR_SLOTS && Live(r, i) ensures ArrivalAt(r, i) {
      assert ArrivalAt(s, i) && QueueAt(s, i);
      forall a, b | 0 <= a < b < |r.callq[i]|
        ensures Tag(r.procs[r.callq[i][a]]) < Tag(r.procs[r.callq[i][b]])
      {
        var x := s.callq[i][a];
        assert x in s.callq[i] && SendsTo(s, x, i) && SenderHolds(s, x);
        if b < |s.callq[i]| {
          assert s.callq[i][b] in s.callq[i] && SendsTo(s, s.callq[i][b], i);
        }
      }
    }
    forall x | 0 <= x < NR_SLOTS ensures SenderHolds(r, x) && ReceiverHolds(r, x) {
      assert SenderHolds(s, x) && ReceiverHolds(s, x);
    }
    forall t | 0 <= t < |r.log| ensures PlaceHeld(r, t) {
      if t < |s.log| {
        assert PlaceHeld(s, t);
      }
    }
  }

  // Everything but new pending bits: the shape of most small changes.
  lemma BaseFrame(s: State, r: State)
    requires Base(s) && Shape(r) && r.cfg == s.cfg && r.callq == s.callq && r.log == s.log
    requires forall i :: 0 <= i < NR_SLOTS ==> Looser(s.procs[i], r.procs[i]) && SameMail(s.procs[i], r.procs[i])
    requires forall j :: 0 <= j < NR_SYS_PROCS ==> r.privs[j].notify <= s.privs[j].notify
    requires !r.procs[PM].sigDelay
    ensures Base(r)
  {
    assert Refs(r);
    CoreFrame(s, r);
    MailFrame(s, r);
  }

  // r is s after c took the message of its k-th caller.
  ghost predicate Took(s: State, r: State, c: int, k: nat)
    requires Shape(s)
  {
    && IsSlot(c) && k < |s.callq[c]| && IsSlot(s.callq[c][k]) && s.callq[c][k] != c
    && var x := s.callq[c][k];
    && Shape(r) && r.cfg == s.cfg && r.privs == s.privs
    && (forall i :: 0 <= i < NR_SLOTS && i != c && i != x ==> r.procs[i] == s.procs[i])
    && r.procs[x] == s.procs[x].(sending := false)
    && r.procs[c] == s.procs[c].(inbox := Some(Msg(s.cfg.ep[x], s.procs[x].sendmsg)))
    && (forall i :: 0 <= i < NR_SLOTS && i != c ==> r.callq[i] == s.callq[i])
    && r.callq[c] == RemoveAt(s.callq[c], k)
    && r.log == SetPlace(s.log, s.procs[x].sendmsg.kind, AtReceiver)
  }

  lemma TakeQueuedKeeps(s: State, c: int, k: nat)
    requires Base(s) && Running(s, c) && k < |s.callq[c]|
    ensures Base(TakeQueued(s, c, k))
  {
    CallerFacts(s, c, k);
    var r := TakeQueued(s, c, k);
    assert Took(s, r, c, k);
    TookCore(s, r, c, k);
    TookRendezvous(s, r, c, k);
    TookMail(s, r, c, k);
  }

  lemma CallerFacts(s: State, c: int, k: nat)
    requires Base(s) && Running(s, c) && k < |s.callq[c]|
    ensures var x := s.callq[c][k];
      IsSlot(x) && x != c && SendsTo(s, x, c) && SenderHolds(s, x) && BlockingAt(s, x)
  {
    assert QueueAt(s, c) && s.callq[c][k] in s.callq[c];
    assert SenderHolds(s, s.callq[c][k]) && BlockingAt(s, s.callq[c][k]);
  }

  lemma TookCore(s: State, r: State, c: int, k: nat)
    requires Base(s) && Running(s, c) && Took(s, r, c, k)
    ensures Refs(r) && Blocking(r) && Queues(r)
  {
    CallerFacts(s, c, k);
    assert QueueAt(s, c);
    RemoveAtKeeps(s.callq[c], k);
    forall i | 0 <= i < NR_SLOTS ensures BlockingAt(r, i) {
      assert BlockingAt(s, i);
    }
    forall i | 0 <= i < NR_SLOTS && Live(r, i) ensures QueueAt(r, i) {
      assert QueueAt(s, i);
      forall x: nat ensures x in r.callq[i] <==> SendsTo(r, x, i) {
        assert x in s.callq[i] <==> SendsTo(s, x, i);
      }
    }
  }

  lemma TookRendezvous(s: State, r: State, c: int, k: nat)
    requires Base(s) && Running(s, c) && Took(s, r, c, k)
    ensures Rendezvous(r)
  {
    CallerFacts(s, c, k);
    forall p, x | 0 <= p < NR_SLOTS && 0 <= x < NR_SLOTS && SendsTo(r, x, p)
      ensures !WillReceive(r.procs[p], r.cfg.ep[x])
    {
      TookApart(s, r, c, k, p, x);
    }
  }

  lemma TookApart(s: State, r: State, c: int, k: nat, p: int, x: int)
    requires Shape(s) && Rendezvous(s) && Took(s, r, c, k) && !s.procs[c].receiving && !s.procs[c].sending
    requires IsSlot(p) && SendsTo(r, x, p)
    requires var x0 := s.callq[c][k]; SendsTo(s, x0, c) && BlockingAt(s, x0)
    ensures !WillReceive(r.procs[p], r.cfg.ep[x])
  {
    var x0 := s.callq[c][k];
    assert SendsTo(s, x, p);
    if p == x0 {
      // x0 can only be receiving from c, and c is not sending
      assert SlotOf(s.cfg.ep[x]) == x && SlotOf(s.procs[x0].sendto) == c;
    }
  }

  lemma TookMail(s: State, r: State, c: int, k: nat)
    requires Base(s) && Running(s, c) && Took(s, r, c, k) && Refs(r)
    ensures Mail(r)
  {
    CallerFacts(s, c, k);
    TookArrival(s, r, c, k);
    TookDelivery(s, r, c, k);
  }

  lemma TookArrival(s: State, r: State, c: int, k: nat)
    requires Shape(s) && Refs(s) && Arrival(s) && Took(s, r, c, k) && Refs(r)
    ensures Arrival(r)
  {
    forall i | 0 <= i < NR_SLOTS && Live(r, i) ensures ArrivalAt(r, i) {
      assert ArrivalAt(s, i);
      forall a, b | 0 <= a < b < |r.callq[i]|
        ensures Tag(r.procs[r.callq[i][a]]) < Tag(r.procs[r.callq[i][b]])
      {
        var up := i == c;
        assert r.callq[i][a] == s.callq[i][if up && k <= a then a + 1 else a];
        assert r.callq[i][b] == s.callq[i][if up && k <= b then b + 1 else b];
      }
    }
  }

  lemma TookDelivery(s: State, r: State, c: int, k: nat)
    requires Shape(s) && Delivery(s) && Took(s, r, c, k) && s.procs[c].inbox.None?
    requires SendsTo(s, s.callq[c][k], c) && !s.procs[c].sending
    ensures Delivery(r)
  {
    assert SenderHolds(s, s.callq[c][k]);
    forall x | 0 <= x < NR_SLOTS ensures SenderHolds(r, x) && ReceiverHolds(r, x) {
      assert SenderHolds(s, x) && ReceiverHolds(s, x);
    }
    forall t | 0 <= t < |r.log| ensures PlaceHeld(r, t) {
      assert PlaceHeld(s, t);
    }
  }

  // A RECEIVE that finds nothing blocks: no caller it would accept is queued and, for
  // ANY, no notification is pending.
  lemma BlockReceiverKeeps(s: State, c: int, srcE: int)
    requires Base(s) && IsSlot(c) && Live(s, c) && !s.procs[c].receiving && s.procs[c].inbox.None?
    requires srcE == ANY || (OkEndpoint(s.cfg, srcE) && Live(s, SlotOf(srcE)))
    requires s.procs[c].sending ==> srcE == s.procs[c].sendto
    requires !s.procs[c].sending ==> QueuePick(s, c, srcE) == |s.callq[c]|
    requires srcE == ANY ==> !s.procs[c].sending && !s.procs[c].replyPend && s.privs[s.cfg.priv[c]].notify == {}
    ensures Base(BlockReceiver(s, c, srcE))
  {
    var r := BlockReceiver(s, c, srcE);
    BlockedCore(s, c, srcE);
    BlockedApart(s, c, srcE);
    MailFrame(s, r);
    assert Notified(r);
  }

  lemma BlockedCore(s: State, c: int, srcE: int)
    requires Core(s) && IsSlot(c) && Live(s, c) && s.procs[c].inbox.None?
    requires srcE == ANY || (OkEndpoint(s.cfg, srcE) && Live(s, SlotOf(srcE)))
    requires s.procs[c].sending ==> srcE == s.procs[c].sendto
    requires srcE == ANY ==> !s.procs[c].replyPend
    ensures var r := BlockReceiver(s, c, srcE); Refs(r) && Blocking(r) && Queues(r)
  {
    var r := BlockReceiver(s, c, srcE);
    forall i | 0 <= i < NR_SLOTS ensures BlockingAt(r, i) {
      assert BlockingAt(s, i);
    }
    forall i | 0 <= i < NR_SLOTS && Live(r, i) ensures QueueAt(r, i) {
      assert QueueAt(s, i);
      forall x: nat ensures x in r.callq[i] <==> SendsTo(r, x, i) {
        assert x in s.callq[i] <==> SendsTo(s, x, i);
      }
    }
  }

  // Nobody who sends to c is what c waits for.
  lemma BlockedApart(s: State, c: int, srcE: int)
    requires Core(s) && IsSlot(c) && Live(s, c)
    requires !s.procs[c].sending ==> QueuePick(s, c, srcE) == |s.callq[c]|
    ensures Rendezvous(BlockReceiver(s, c, srcE))
  {
    var r := BlockReceiver(s, c, srcE);
    assert QueueAt(s, c);
    forall p, x | 0 <= p < NR_SLOTS && 0 <= x < NR_SLOTS && SendsTo(r, x, p)
      ensures !WillReceive(r.procs[p], r.cfg.ep[x])
    {
      assert SendsTo(s, x, p);
      if p == c && !s.procs[c].sending {
        assert x in s.callq[c];
      }
    }
  }

  lemma NotifyLaterKeeps(s: State, src: int, d: int)
    requires Base(s) && IsSlot(src) && !s.cfg.free[src] && IsSlot(d) && !s.cfg.free[d]
    requires !WillReceive(s.procs[d], s.cfg.ep[src]) || s.procs[d].replyPend
    ensures Base(NotifyLater(s, src, d))
  {
    var r := NotifyLater(s, src, d);
    assert Refs(r);
    CoreFrame(s, r);
    MailFrame(s, r);
    forall i | 0 <= i < NR_SLOTS && OwnPriv(s.cfg, i) && r.procs[i].receiving && r.procs[i].getfrom == ANY
      ensures r.privs[r.cfg.priv[i]].notify == {}
    {
      assert BlockingAt(s, i) && BlockingAt(s, d);
      assert SlotOf(ANY) >= NR_SLOTS;
    }
  }

  lemma NotifyNowKeeps(s: State, src: int, d: int)
    requires Base(s) && IsSlot(src) && IsSlot(d) && s.procs[d].receiving
    ensures Base(NotifyNow(s, src, d))
  {
    assert BlockingAt(s, d);
    BaseFrame(s, NotifyNow(s, src, d));
  }

  lemma TakeNotifyKeeps(s: State, c: int, id: int)
    requires Base(s) && Running(s, c) && 0 <= id < NR_SYS_PROCS && s.cfg.owner[id] != NOBODY
    ensures Base(TakeNotify(s, c, id))
  {
    BaseFrame(s, TakeNotify(s, c, id));
  }

  lemma MiniNotifyKeeps(s: State, src: int, dstE: int)
    requires Base(s) && IsSlot(src) && !s.cfg.free[src]
    ensures Base(MiniNotify(s, src, dstE).state)
  {
    if OkEndpoint(s.cfg, dstE) {
      var d := SlotOf(dstE);
      if WillReceive(s.procs[d], s.cfg.ep[src]) && !s.procs[d].replyPend {
        NotifyNowKeeps(s, src, d);
      } else {
        NotifyLaterKeeps(s, src, d);
      }
    }
  }

  lemma SendSigKeeps(s: State, p: int, sig: int)
    requires Base(s) && IsSlot(p)
    ensures Base(SendSig(s, p, sig))
  {
    BaseFrame(s, AddSignal(s, p, sig));
    MiniNotifyKeeps(AddSignal(s, p, sig), SYSTEM, s.cfg.ep[p]);
  }

  lemma CauseSigKeeps(s: State, p: int, sig: int)
    requires Base(s) && IsSlot(p)
    ensures Base(CauseSig(s, p, sig))
  {
    var x := s.procs[p];
    if sig !in x.pending {
      if x.signaled {
        BaseFrame(s, CauseSig(s, p, sig));
      } else {
        var s1 := SetProc(s, p, x.(pending := x.pending + {sig}, signaled := true));
        BaseFrame(s, s1);
        SendSigKeeps(s1, PM, SIGKSIG);
      }
    }
  }

  lemma SigDelayDoneKeeps(s: State, p: int)
    requires Base(s) && IsSlot(p)
    ensures Base(SigDelayDone(s, p))
  {
    var s1 := SetProc(s, p, s.procs[p].(sigDelay := false));
    BaseFrame(s, s1);
    CauseSigKeeps(s1, p, SIGNDELAY);
  }

  lemma CopyOutKeeps(s: State, p: int)
    requires Base(s) && IsSlot(p)
    ensures Base(CopyOut(s, p))
  {
    var r := CopyOut(s, p);
    assert Refs(r) && BlockingAt(s, p);
    CoreFrame(s, r);
    forall i | 0 <= i < NR_SLOTS && Live(r, i) ensures ArrivalAt(r, i) {
      assert ArrivalAt(s, i);
    }
    CopyOutDelivery(s, p);
  }

  lemma CopyOutDelivery(s: State, p: int)
    requires Shape(s) && Delivery(s) && IsSlot(p)
    ensures Delivery(CopyOut(s, p))
  {
    var r := CopyOut(s, p);
    assert ReceiverHolds(s, p);
    forall x | 0 <= x < NR_SLOTS ensures SenderHolds(r, x) && ReceiverHolds(r, x) {
      assert SenderHolds(s, x) && ReceiverHolds(s, x);
    }
    forall t | 0 <= t < |r.log| ensures PlaceHeld(r, t) {
      assert PlaceHeld(s, t);
    }
  }
}
