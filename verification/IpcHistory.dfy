/**
 What a step may do to processes other than the one it runs for, and to messages that
 were accepted earlier.
 */
module IpcHistory {
  import opened Options
  import opened WaitGraph
  import opened IpcState
  import opened IpcSteps
  import opened IpcInv
  import opened IpcKeeps
  import opened IpcCalls

  // A message that may complete a RECEIVE from e; for the reply half of SENDREC,
  // neither a notification nor an async message marked as no reply.
  predicate Answers(m: Msg, e: int, replyPend: bool) {
    && (e == ANY || m.source == e)
    && (replyPend ==> m.payload.kind.Direct? || m.payload.kind == Async(false))
  }

  // The process has just been given an answer.
  predicate Got(p: Proc, e: int, replyPend: bool) {
    p.inbox.Some? && Answers(p.inbox.value, e, replyPend)
  }

  // p became q during a step that ran for another process.
  predicate Bystander(p: Proc, q: Proc) {
    && q.replyPend == p.replyPend && (p.dead ==> q.dead) && (q.sending ==> p.sending && q.sendto == p.sendto)
    && (!p.receiving ==> !q.receiving && q.inbox == p.inbox)
    && (q.receiving ==> q.getfrom == p.getfrom && q.inbox == p.inbox)
    && (p.receiving && !q.receiving && q.inbox != p.inbox ==>
          q.inbox.Some? && Answers(q.inbox.value, p.getfrom, p.replyPend))
    && (q.retreg == p.retreg || ToldOfDeath(q))
  }

  // The process it waited for has died.
  predicate ToldOfDeath(p: Proc) {
    p.retreg == ESRCDIED || p.retreg == EDSTDIED
  }

  // Who stops receiving without a message is dead, or has lost the process it received from
  // and is told so.
  ghost predicate LetGo(s: State, r: State, i: int)
    requires |s.procs| == |r.procs| == NR_SLOTS && IsSlot(i)
  {
    var p, q := s.procs[i], r.procs[i];
    p.receiving && !q.receiving && q.inbox == p.inbox ==>
      q.dead || (ToldOfDeath(q) && IsSlot(SlotOf(p.getfrom)) && r.procs[SlotOf(p.getfrom)].dead)
  }

  // Messages only move on: from the sender to the receiver and out, or withdrawn.
  predicate MovesOn(p: Place, q: Place) {
    p == q || p == AtSender || (p == AtReceiver && q == CopiedOut)
  }

  predicate LogAdvances(a: seq<Transfer>, b: seq<Transfer>) {
    && |a| <= |b|
    && forall t :: 0 <= t < |a| ==> MovesOn(a[t].place, b[t].place) && b[t] == a[t].(place := b[t].place)
  }

  ghost predicate Evolves(s: State, r: State, actor: int)
    requires Shape(s)
  {
    && Shape(r) && r.cfg == s.cfg && LogAdvances(s.log, r.log)
    && (forall i {:trigger Bystander(s.procs[i], r.procs[i])} :: 0 <= i < NR_SLOTS && i != actor ==>
          Bystander(s.procs[i], r.procs[i]))
    && (forall i {:trigger LetGo(s, r, i)} :: 0 <= i < NR_SLOTS && i != actor ==> LetGo(s, r, i))
    && (IsSlot(actor) && s.procs[actor].dead ==> r.procs[actor].dead)
  }

  lemma EvolvesTrans(s: State, m: State, r: State, actor: int)
    requires Shape(s) && Evolves(s, m, actor) && Evolves(m, r, actor)
    ensures Evolves(s, r, actor)
  {
    forall i | 0 <= i < NR_SLOTS && i != actor ensures Bystander(s.procs[i], r.procs[i]) {
      assert Bystander(s.procs[i], m.procs[i]) && Bystander(m.procs[i], r.procs[i]);
    }
    forall i | 0 <= i < NR_SLOTS && i != actor ensures LetGo(s, r, i) {
      assert Bystander(s.procs[i], m.procs[i]) && Bystander(m.procs[i], r.procs[i]) && LetGo(s, m, i) && LetGo(m, r, i);
      DeadStays(m, r, actor, SlotOf(s.procs[i].getfrom));
    }
  }

  lemma DeadStays(s: State, r: State, actor: int, i: int)
    requires Shape(s) && Evolves(s, r, actor)
    ensures IsSlot(i) && s.procs[i].dead ==> r.procs[i].dead
  {
    assert IsSlot(i) && i != actor ==> Bystander(s.procs[i], r.procs[i]);
  }

  lemma MiniNotifyEvolves(s: State, src: int, dstE: int, actor: int)
    requires Base(s) && IsSlot(src) && !s.cfg.free[src]
    requires IsSlot(actor) ==> !s.procs[actor].receiving
    ensures Evolves(s, MiniNotify(s, src, dstE).state, actor)
  {
    if OkEndpoint(s.cfg, dstE) {
      assert BlockingAt(s, SlotOf(dstE));
    }
  }

  // A change of privilege structures only.
  lemma PrivsEvolve(s: State, r: State, actor: int)
    requires Shape(s) && Shape(r) && r.cfg == s.cfg && r.procs == s.procs && r.log == s.log
    ensures Evolves(s, r, actor)
  {
  }

  lemma SendSigEvolves(s: State, p: int, sig: int, actor: int)
    requires Base(s) && IsSlot(p)
    requires IsSlot(actor) ==> !s.procs[actor].receiving
    ensures Evolves(s, SendSig(s, p, sig), actor)
  {
    var s1 := AddSignal(s, p, sig);
    BaseFrame(s, s1);
    MiniNotifyEvolves(s1, SYSTEM, s1.cfg.ep[p], actor);
    PrivsEvolve(s, s1, actor);
    EvolvesTrans(s, s1, MiniNotify(s1, SYSTEM, s1.cfg.ep[p]).state, actor);
  }

  lemma CauseSigEvolves(s: State, p: int, sig: int, actor: int)
    requires Base(s) && IsSlot(p)
    requires IsSlot(actor) ==> !s.procs[actor].receiving
    ensures Evolves(s, CauseSig(s, p, sig), actor)
  {
    var x := s.procs[p];
    if sig !in x.pending && !x.signaled {
      StopAndTellEvolves(s, p, x.(pending := x.pending + {sig}, signaled := true), actor);
    }
  }

  // A change of p, then the signal to PM.
  lemma StopAndTellEvolves(s: State, p: int, x: Proc, actor: int)
    requires Base(s) && IsSlot(p) && Unseen(s.procs[p], x)
    requires IsSlot(actor) ==> !s.procs[actor].receiving
    ensures Evolves(s, SendSig(SetProc(s, p, x), PM, SIGKSIG), actor)
  {
    var s1 := SetProc(s, p, x);
    UnseenKeeps(s, p, x);
    UnseenEvolves(s, p, x, actor);
    SendSigEvolves(s1, PM, SIGKSIG, actor);
    EvolvesTrans(s, s1, SendSig(s1, PM, SIGKSIG), actor);
  }

  lemma SigDelayDoneEvolves(s: State, p: int, actor: int)
    requires Base(s) && IsSlot(p)
    requires IsSlot(actor) ==> !s.procs[actor].receiving
    ensures Evolves(s, SigDelayDone(s, p), actor)
  {
    var x := s.procs[p].(sigDelay := false);
    UnseenKeeps(s, p, x);
    UnseenEvolves(s, p, x, actor);
    CauseSigEvolves(SetProc(s, p, x), p, SIGNDELAY, actor);
    EvolvesTrans(s, SetProc(s, p, x), SigDelayDone(s, p), actor);
  }

  // A change of p that message passing does not see.
  ghost predicate Unseen(p: Proc, q: Proc) {
    q == p.(pending := q.pending, signaled := q.signaled, sigDelay := q.sigDelay) && (q.sigDelay ==> p.sigDelay)
  }

  lemma UnseenKeeps(s: State, p: int, x: Proc)
    requires Base(s) && IsSlot(p) && Unseen(s.procs[p], x)
    ensures Base(SetProc(s, p, x))
  {
    BaseFrame(s, SetProc(s, p, x));
  }

  lemma UnseenEvolves(s: State, p: int, x: Proc, actor: int)
    requires Shape(s) && IsSlot(p) && Unseen(s.procs[p], x)
    ensures Evolves(s, SetProc(s, p, x), actor)
  {
  }

  lemma MiniSendEvolves(s: State, c: int, dstE: int, buf: Buf, nonblocking: bool)
    requires Base(s) && Running(s, c) && OkEndpoint(s.cfg, dstE)
    ensures Evolves(s, MiniSend(s, c, dstE, buf, nonblocking).state, c)
  {
    var d, r := SlotOf(dstE), MiniSend(s, c, dstE, buf, nonblocking);
    if r.status != OK {
      assert r.state == s;
    } else if WillReceive(s.procs[d], s.cfg.ep[c]) {
      HandOverEvolves(s, c, d, buf.body);
    } else {
      BlockSenderEvolves(s, c, dstE, buf.body);
    }
  }

  lemma HandOverEvolves(s: State, c: int, d: int, body: int)
    requires Shape(s) && Blocking(s) && IsSlot(c) && IsSlot(d) && WillReceive(s.procs[d], s.cfg.ep[c])
    ensures Evolves(s, HandOver(s, c, d, body), c)
  {
    assert BlockingAt(s, d);
  }

  lemma BlockSenderEvolves(s: State, c: int, dstE: int, body: int)
    requires Shape(s) && IsSlot(c) && IsSlot(SlotOf(dstE))
    ensures Evolves(s, BlockSender(s, c, dstE, body), c)
  {
  }

  // What a successful mini_send leaves in the log: its own message, once.
  lemma SendIsLogged(s: State, c: int, dstE: int, buf: Buf, nonblocking: bool)
    requires Base(s) && Running(s, c) && OkEndpoint(s.cfg, dstE)
    ensures var r := MiniSend(s, c, dstE, buf, nonblocking);
      if r.status == OK then
        && |r.state.log| == |s.log| + 1 && r.state.log[..|s.log|] == s.log
        && var x := r.state.log[|s.log|];
           x == Transfer(c, s.cfg.ep[c], SlotOf(dstE), buf.body, x.place) && x.place in {AtSender, AtReceiver}
      else r.state == s
  {
  }

  // ------------------------------------------------------------- mini_receive

  lemma TryOneEvolves(s: State, src: int, d: int)
    requires Base(s) && IsSlot(src) && Running(s, d)
    ensures var r := TryOne(s, src, d);
      && Evolves(s, r.state, d)
      && (r.delivered ==> Got(r.state.procs[d], s.cfg.ep[src], s.procs[d].replyPend))
  {
    var v := s.cfg.priv[src];
    if v != USER_PRIV && s.privs[v].active && MaySend(s.cfg, src, d) {
      ScanIndex(s.privs[v].table, 0, s.cfg.ep[d], s.procs[d].replyPend);
      var scan := ScanTable(s.privs[v].table, 0, s.cfg.ep[d], s.procs[d].replyPend).scan;
      if scan.Found? {
        EntryEvolves(s, v, src, scan.index, d);
      } else {
        PrivsEvolve(s, TryOne(s, src, d).state, d);
      }
    } else {
      EvolvesRefl(s, d);
    }
  }

  lemma EntryEvolves(s: State, v: nat, src: int, i: nat, d: int)
    requires Shape(s) && IsSlot(src) && IsSlot(d) && v < NR_SYS_PROCS && i < |s.privs[v].table|
    ensures var r, e := DeliverEntry(s, v, src, i, d), s.privs[v].table[i];
      Evolves(s, r, d) && r.procs[d].inbox == Some(Msg(s.cfg.ep[src], Payload(Async(e.noreply), e.body)))
  {
  }

  // Where the loop of try_async is, and what comes of it.
  ghost predicate Seeking(s: State, t: State, d: int)
    requires Shape(s) && IsSlot(d)
  {
    Base(t) && Running(t, d) && Evolves(s, t, d) && t.procs[d].replyPend == s.procs[d].replyPend
  }

  ghost predicate Sought(s: State, r: TryResult, d: int)
    requires Shape(s) && IsSlot(d)
  {
    Evolves(s, r.state, d) && (r.delivered ==> Got(r.state.procs[d], ANY, s.procs[d].replyPend))
  }

  lemma TryAsyncEvolves(s: State, d: int)
    requires Base(s) && Running(s, d)
    ensures Sought(s, TryAsync(s, d, 0, false), d)
  {
    var keep := (t: State, j: nat, b: bool) => Seeking(s, t, d);
    var done := (r: TryResult) => Sought(s, r, d);
    forall t, j: nat, b | Shape(t) && j <= NR_SYS_PROCS && keep(t, j, b) ensures KeptByTry(d, j, t, b, keep, done) {
      SeekStep(s, t, d, j, b);
    }
    EvolvesRefl(s, d);
    TryAsyncInduction(s, d, 0, false, keep, done);
  }

  lemma EvolvesRefl(s: State, actor: int)
    requires Shape(s)
    ensures Evolves(s, s, actor)
  {
  }

  lemma SeekStep(s: State, t: State, d: int, j: nat, postponed: bool)
    requires Shape(s) && IsSlot(d) && Seeking(s, t, d) && j <= NR_SYS_PROCS
    ensures j == NR_SYS_PROCS ==> Sought(s, TryEnd(t, d, postponed), d)
    ensures j < NR_SYS_PROCS ==>
      var r := TryNext(t, d, j); if r.delivered then Sought(s, r, d) else Seeking(s, r.state, d)
  {
    if j == NR_SYS_PROCS {
      AsynMsgEvolves(t, d, t.procs[d].asynMsg && postponed);
      EvolvesTrans(s, t, TryEnd(t, d, postponed).state, d);
    } else {
      TryNextEvolves(t, d, j);
      EvolvesTrans(s, t, TryNext(t, d, j).state, d);
    }
  }

  lemma AsynMsgEvolves(s: State, d: int, b: bool)
    requires Shape(s) && IsSlot(d)
    ensures Evolves(s, SetProc(s, d, s.procs[d].(asynMsg := b)), d)
  {
  }

  lemma TryNextEvolves(s: State, d: int, j: nat)
    requires Base(s) && Running(s, d) && j < NR_SYS_PROCS
    ensures var r := TryNext(s, d, j);
      && Evolves(s, r.state, d) && Base(r.state)
      && (!r.delivered ==> r.state.procs == s.procs)
      && (r.delivered ==> Got(r.state.procs[d], ANY, s.procs[d].replyPend))
  {
    TryNextKeeps(s, d, j);
    if s.cfg.owner[j] == NOBODY {
      EvolvesRefl(s, d);
    } else {
      TryOneEvolves(s, s.cfg.owner[j], d);
    }
  }

  // Taking from the queue, with the end of a delayed stop reported to PM.
  lemma TakeQueuedEvolves(s: State, c: int, k: nat)
    requires Base(s) && Running(s, c) && k < |s.callq[c]|
    ensures var x := s.callq[c][k];
      IsSlot(x) && Evolves(s, TakeQueued(s, c, k), c)
      && TakeQueued(s, c, k).procs[c].inbox == Some(Msg(s.cfg.ep[x], s.procs[x].sendmsg))
      && s.procs[x].sendmsg.kind.Direct?
  {
    CallerFacts(s, c, k);
    var r := TakeQueued(s, c, k);
    assert Took(s, r, c, k);
    forall i | 0 <= i < NR_SLOTS && i != c ensures Bystander(s.procs[i], r.procs[i]) {
      assert BlockingAt(s, i);
    }
  }

  // A message that is on its way stays put while PM is told about a signal.
  lemma SigDelayDoneSparesInbox(s: State, p: int, c: int)
    requires Base(s) && IsSlot(p) && IsSlot(c) && !s.procs[c].receiving
    ensures SigDelayDone(s, p).procs[c].inbox == s.procs[c].inbox
  {
  }

  lemma TakeNotifyEvolves(s: State, c: int, srcE: int)
    requires Base(s) && Running(s, c) && (srcE == ANY || OkEndpoint(s.cfg, srcE))
    requires NotifyPick(s, c, srcE) != NOBODY && s.cfg.owner[NotifyPick(s, c, srcE)] != NOBODY
    ensures var r := TakeNotify(s, c, NotifyPick(s, c, srcE));
      Evolves(s, r, c) && Got(r.procs[c], srcE, false)
  {
    var id := NotifyPick(s, c, srcE);
    assert srcE != ANY ==> s.cfg.ep[s.cfg.owner[id]] == srcE;
  }

  lemma TakeCallerEvolves(s: State, c: int, srcE: int)
    requires Base(s) && Running(s, c) && (srcE == ANY || OkEndpoint(s.cfg, srcE))
    requires QueuePick(s, c, srcE) < |s.callq[c]|
    ensures var k := QueuePick(s, c, srcE);
      IsSlot(s.callq[c][k])
      && var x, s1 := s.callq[c][k], TakeQueued(s, c, k);
      && var r := if s.procs[x].sigDelay then SigDelayDone(s1, x) else s1;
      && Evolves(s, r, c) && Got(r.procs[c], srcE, s.procs[c].replyPend)
  {
    var k := QueuePick(s, c, srcE);
    TakeQueuedKeeps(s, c, k);
    TakeQueuedEvolves(s, c, k);
    var x, s1 := s.callq[c][k], TakeQueued(s, c, k);
    assert srcE != ANY ==> s.cfg.ep[x] == srcE;
    if s.procs[x].sigDelay {
      SigDelayDoneEvolves(s1, x, c);
      SigDelayDoneSparesInbox(s1, x, c);
      EvolvesTrans(s, s1, SigDelayDone(s1, x), c);
    }
  }

  lemma ReceiveNowEvolves(s: State, c: int, srcE: int)
    requires Base(s) && Running(Unsent(s, c), c)
    requires srcE == ANY || OkEndpoint(s.cfg, srcE)
    ensures var r := ReceiveNow(s, c, srcE);
      && Evolves(s, r.state, c)
      && (r.delivered ==> Got(r.state.procs[c], srcE, s.procs[c].replyPend))
  {
    PickedOwner(s, c, srcE);
    if s.procs[c].sending {
    } else if !s.procs[c].replyPend && NotifyPick(s, c, srcE) != NOBODY {
      TakeNotifyEvolves(s, c, srcE);
    } else if QueuePick(s, c, srcE) < |s.callq[c]| {
      TakeCallerEvolves(s, c, srcE);
    } else if s.procs[c].asynMsg {
      if srcE != ANY {
        TryOneEvolves(s, SlotOf(srcE), c);
      } else {
        TryAsyncEvolves(s, c);
      }
    }
  }

  lemma BlockReceiverEvolves(s: State, c: int, srcE: int)
    requires Shape(s) && IsSlot(c)
    ensures Evolves(s, BlockReceiver(s, c, srcE), c)
  {
  }

  /** A RECEIVE that returns with a message returns one that answers it. */
  lemma MiniReceiveEvolves(s: State, c: int, srcE: int, mapped: bool, nonblocking: bool)
    requires Base(s) && Running(Unsent(s, c), c)
    requires srcE == ANY || OkEndpoint(s.cfg, srcE)
    ensures var r := MiniReceive(s, c, srcE, mapped, nonblocking).state;
      && Evolves(s, r, c)
      && (r.procs[c].inbox.Some? ==> Got(r.procs[c], srcE, s.procs[c].replyPend))
  {
    var t := ReceiveNow(s, c, srcE);
    ReceiveNowEvolves(s, c, srcE);
    if !t.delivered {
      ReceiveNowMissed(s, c, srcE);
      BlockReceiverEvolves(t.state, c, srcE);
      EvolvesTrans(s, t.state, BlockReceiver(t.state, c, srcE), c);
    }
  }

  // A RECEIVE that returns OK has its message or waits for one.
  lemma ReceiveOutcome(s: State, c: int, srcE: int, mapped: bool)
    requires Base(s) && Running(Unsent(s, c), c) && !s.procs[c].receiving
    requires srcE == ANY || OkEndpoint(s.cfg, srcE)
    ensures var r := MiniReceive(s, c, srcE, mapped, false);
      var p := r.state.procs[c];
      && (p.receiving ==> r.status == OK && p.getfrom == srcE && p.replyPend == s.procs[c].replyPend)
      && (r.status == OK && !p.receiving ==> p.inbox.Some?)
  {
    SearchOutcome(s, c, srcE);
    ReceiveResult(s, c, srcE, mapped);
  }

  // How mini_receive goes on after its search.
  lemma ReceiveResult(s: State, c: int, srcE: int, mapped: bool)
    requires Shape(s) && Refs(s) && IsSlot(c) && (srcE == ANY || IsSlot(SlotOf(srcE)))
    ensures var r, t := MiniReceive(s, c, srcE, mapped, false), ReceiveNow(s, c, srcE);
      if r.status == OK then r.state == if t.delivered then t.state else BlockReceiver(t.state, c, srcE)
      else r.state == s || (r.state == t.state && !t.delivered)
  {
  }

  lemma SearchOutcome(s: State, c: int, srcE: int)
    requires Base(s) && Running(Unsent(s, c), c)
    requires srcE == ANY || OkEndpoint(s.cfg, srcE)
    ensures var t := ReceiveNow(s, c, srcE);
      var p := t.state.procs[c];
      if t.delivered then p.inbox.Some? && !p.receiving else p == s.procs[c].(asynMsg := p.asynMsg)
  {
    ReceiveNowKeeps(s, c, srcE);
    ReceiveNowEvolves(s, c, srcE);
    HasNoneWaiting(ReceiveNow(s, c, srcE).state, c);
  }

  lemma HasNoneWaiting(s: State, c: int)
    requires Base(s) && IsSlot(c)
    ensures s.procs[c].inbox.Some? ==> !s.procs[c].receiving
  {
    assert BlockingAt(s, c);
  }

  lemma ReceiveNowMissed(s: State, c: int, srcE: int)
    requires Base(s) && Running(Unsent(s, c), c) && (srcE == ANY || IsSlot(SlotOf(srcE)))
    requires !ReceiveNow(s, c, srcE).delivered
    ensures ReceiveNow(s, c, srcE).state.procs[c].inbox.None?
  {
    ReceiveNowKeeps(s, c, srcE);
  }
}
