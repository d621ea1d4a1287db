/**
 Notifications and kernel signals over runs: who can be left waiting although a
 notification is pending, and how a signal can be stranded.
 */
module IpcNotices {
  import opened WaitGraph
  import opened IpcState
  import opened IpcSteps
  import opened IpcInv
  import opened IpcHistory
  import opened IpcTraps
  import opened IpcRuns

  predicate FromAny(p: Proc) {
    p.receiving && p.getfrom == ANY
  }

  // Nobody who receives from ANY has a notification pending.
  ghost predicate AllNotified(s: State)
    requires Shape(s)
  {
    forall i :: 0 <= i < NR_SLOTS && FromAny(s.procs[i]) ==> s.privs[s.cfg.priv[i]].notify == {}
  }

  // A notification sets a bit that somebody else who receives from ANY could take.
  ghost predicate Misdirected(s: State, src: int, dstE: int)
    requires Shape(s) && IsSlot(src)
  {
    && OkEndpoint(s.cfg, dstE)
    && var d := SlotOf(dstE);
       && !(WillReceive(s.procs[d], s.cfg.ep[src]) && !s.procs[d].replyPend)
       && exists i :: 0 <= i < NR_SLOTS && FromAny(s.procs[i]) && s.cfg.priv[i] == s.cfg.priv[d]
  }

  /** A notification leaves somebody waiting although a bit is pending for them if and only
      if it finds its destination not ready, and another process with the same privilege
      structure receives from ANY. */
  lemma NotifyMisses(s: State, src: int, dstE: int)
    requires Base(s) && IsSlot(src) && AllNotified(s)
    ensures AllNotified(MiniNotify(s, src, dstE).state) <==> !Misdirected(s, src, dstE)
  {
    var r := MiniNotify(s, src, dstE).state;
    if OkEndpoint(s.cfg, dstE) {
      var d := SlotOf(dstE);
      assert BlockingAt(s, d);
      if Misdirected(s, src, dstE) {
        var i :| 0 <= i < NR_SLOTS && FromAny(s.procs[i]) && s.cfg.priv[i] == s.cfg.priv[d];
        assert r.procs[i] == s.procs[i] && s.cfg.priv[src] in r.privs[s.cfg.priv[i]].notify;
      }
    }
  }

  // ------------------------------------------------------------------ over runs

  // Two processes in use share a privilege structure that allows RECEIVE, and one of them
  // is alive.
  ghost predicate SharedReceiver(s: State)
    requires Shape(s)
  {
    exists i, d :: SharedBy(s, i, d)
  }

  ghost predicate SharedBy(s: State, i: int, d: int)
    requires Shape(s)
  {
    && IsSlot(i) && IsSlot(d) && i != d && Live(s, i) && !s.cfg.free[d]
    && s.cfg.priv[i] == s.cfg.priv[d] && RECEIVE in s.cfg.traps[s.cfg.priv[i]]
  }

  // Whoever receives from ANY is allowed to trap for it.
  ghost predicate Permitted(s: State)
    requires Shape(s)
  {
    forall i :: 0 <= i < NR_SLOTS && FromAny(s.procs[i]) ==> RECEIVE in s.cfg.traps[s.cfg.priv[i]]
  }

  // Only RECEIVE starts waiting for ANY.
  lemma TrapPermitted(s: State, c: int, call: Call)
    requires Base(s) && Running(s, c)
    ensures FromAny(SysCall(s, c, call).state.procs[c]) ==> RECEIVE in s.cfg.traps[s.cfg.priv[c]]
  {
    if CallCheck(s, c, call) == OK && call.nr != RECEIVE {
      if call.nr == SEND || call.nr == SENDNB {
        SendLeaves(s, c, call.ep, call.buf, call.nr == SENDNB);
      } else if call.nr == NOTIFY {
        MiniNotifyEvolves(s, c, call.ep, NOBODY);
        assert Bystander(s.procs[c], MiniNotify(s, c, call.ep).state.procs[c]);
      } else if call.nr == SENDREC {
        SendRecOutcome(s, c, call.ep, call.buf);
        AnyIsNoEndpoint(s.cfg, SlotOf(call.ep));
      } else if call.nr == SENDA {
        MiniSendaEvolves(s, c, call.table, call.buf.mapped);
      }
    }
  }

  lemma StepPermitted(s: State, ev: Event)
    requires Base(s) && Enabled(s, ev) && Permitted(s)
    ensures Permitted(Apply(s, ev))
  {
    StepEvolves(s, ev);
    var r := Apply(s, ev);
    forall i | 0 <= i < NR_SLOTS && FromAny(r.procs[i]) ensures RECEIVE in r.cfg.traps[r.cfg.priv[i]] {
      if i != Actor(ev) {
        assert Bystander(s.procs[i], r.procs[i]);
      } else if ev.Trap? {
        TrapPermitted(s, i, ev.call);
      }
    }
  }

  lemma {:induction false} RunPermitted(s: State, evs: seq<Event>)
    requires Inv(s) && Legal(s, evs) && Permitted(s)
    ensures Permitted(After(s, evs))
    decreases |evs|
  {
    if evs != [] {
      StepKeepsInv(s, evs[0]);
      StepPermitted(s, evs[0]);
      RunPermitted(Apply(s, evs[0]), evs[1..]);
    }
  }

  /** Without a shared structure that allows RECEIVE, nobody ever waits for ANY with a
      notification pending. */
  lemma NoticesTaken(s: State, evs: seq<Event>)
    requires Inv(s) && Legal(s, evs) && Permitted(s) && !SharedReceiver(s)
    ensures AllNotified(After(s, evs))
  {
    RunPermitted(s, evs);
    RunAdvances(s, evs);
    var r := After(s, evs);
    forall i | 0 <= i < NR_SLOTS && FromAny(r.procs[i]) ensures r.privs[r.cfg.priv[i]].notify == {} {
      assert BlockingAt(r, i);
      NotShared(s, i);
    }
  }

  lemma NotShared(s: State, i: int)
    requires Shape(s) && IsSlot(i) && Live(s, i) && RECEIVE in s.cfg.traps[s.cfg.priv[i]] && !SharedReceiver(s)
    ensures OwnPriv(s.cfg, i)
  {
    forall k | 0 <= k < NR_SLOTS && !s.cfg.free[k] && s.cfg.priv[k] == s.cfg.priv[i] ensures k == i {
      assert !SharedBy(s, i, k);
    }
  }

  // A search that has found nothing, with no table active.
  ghost predicate Barren(s: State, t: State, d: int)
    requires Shape(s) && IsSlot(d)
  {
    && Shape(t) && t.privs == s.privs && t.procs[d].receiving == s.procs[d].receiving
    && t.procs == s.procs[d := t.procs[d]]
  }

  lemma NothingActive(s: State, d: int)
    requires Shape(s) && IsSlot(d) && forall v :: 0 <= v < NR_SYS_PROCS ==> !s.privs[v].active
    ensures var r := TryAsync(s, d, 0, false); !r.delivered && Barren(s, r.state, d)
  {
    var keep := (t: State, j: nat, b: bool) => Barren(s, t, d);
    var done := (r: TryResult) => !r.delivered && Barren(s, r.state, d);
    forall t, j: nat, b | Shape(t) && j <= NR_SYS_PROCS && keep(t, j, b) ensures KeptByTry(d, j, t, b, keep, done) {
    }
    TryAsyncInduction(s, d, 0, false, keep, done);
  }

  // The first RECEIVE from ANY after boot blocks.
  lemma ReceiveAfterBoot(s: State, i: int)
    requires Boot(s) && Running(s, i) && RECEIVE in s.cfg.traps[s.cfg.priv[i]]
    ensures var r := SysCall(s, i, Call(RECEIVE, ANY, Buf(true, true, 0), [])).state;
      && r.privs == s.privs && FromAny(r.procs[i])
      && forall d :: 0 <= d < NR_SLOTS && d != i ==> r.procs[d] == s.procs[d]
  {
    var s1 := WithReplyPend(s, i, false);
    NothingActive(s1, i);
    assert NotifyPick(s1, i, ANY) == NOBODY;
  }

  /** With one, two steps after boot are enough: a process receives from ANY, and a
      notification goes to another one with its structure. */
  lemma NoticeMissed(s: State, i: int, d: int) returns (evs: seq<Event>)
    requires Boot(s) && SharedBy(s, i, d)
    ensures Inv(s) && Legal(s, evs) && FromAny(After(s, evs).procs[i])
    ensures s.cfg.priv[SYSTEM] in After(s, evs).privs[s.cfg.priv[i]].notify && After(s, evs).cfg == s.cfg
  {
    BootInv(s);
    var e1, e2 := Trap(i, Call(RECEIVE, ANY, Buf(true, true, 0), [])), Notify(SYSTEM, s.cfg.ep[d]);
    AnyIsNoEndpoint(s.cfg, i);
    ReceiveAfterBoot(s, i);
    StepKeepsInv(s, e1);
    SharedBit(s, i, d, Apply(s, e1));
    evs := TwoSteps(s, e1, Apply(s, e1), e2);
  }

  // The bit is set in the structure that both use.
  lemma SharedBit(s: State, i: int, d: int, r: State)
    requires Boot(s) && SharedBy(s, i, d) && Shape(r) && r.cfg == s.cfg && FromAny(r.procs[i]) && r.procs[d] == s.procs[d]
    ensures var t := MiniNotify(r, SYSTEM, s.cfg.ep[d]).state;
      FromAny(t.procs[i]) && s.cfg.priv[SYSTEM] in t.privs[s.cfg.priv[i]].notify
  {
    assert SlotOf(s.cfg.ep[d]) == d;
  }

  lemma TwoSteps(s: State, e1: Event, r: State, e2: Event) returns (evs: seq<Event>)
    requires Inv(s) && Enabled(s, e1) && Proper(s, e1) && r == Apply(s, e1)
    requires Inv(r) && Enabled(r, e2) && Proper(r, e2)
    ensures Legal(s, evs) && After(s, evs) == Apply(r, e2)
  {
    StepKeepsInv(r, e2);
    OneStep(r, e2, Apply(r, e2), []);
    OneStep(s, e1, r, [e2] + []);
    evs := [e1] + ([e2] + []);
  }

  lemma OneStep(s: State, e: Event, r: State, rest: seq<Event>)
    requires Inv(s) && Enabled(s, e) && Proper(s, e) && r == Apply(s, e) && Inv(r) && Legal(r, rest)
    ensures Legal(s, [e] + rest) && After(s, [e] + rest) == After(r, rest)
  {
    assert ([e] + rest)[0] == e && ([e] + rest)[1..] == rest;
  }

  lemma AnyIsNoEndpoint(g: Config, i: int)
    requires ConfigOk(g) && IsSlot(i)
    ensures g.ep[i] != ANY
  {
    assert SlotOf(ANY) >= NR_SLOTS;
  }

  /** From boot, nobody ever waits for ANY with a notification pending if and only if no
      structure that allows RECEIVE is shared.  User processes share one, and it does not
      allow RECEIVE. */
  lemma NoticesTakenIff(s: State)
    requires Boot(s)
    ensures Inv(s)
    ensures (forall evs: seq<Event> :: Legal(s, evs) ==> AllNotified(After(s, evs))) <==> !SharedReceiver(s)
  {
    BootInv(s);
    if SharedReceiver(s) {
      var i, d :| SharedBy(s, i, d);
      var evs := NoticeMissed(s, i, d);
      assert Legal(s, evs) && !AllNotified(After(s, evs));
    } else {
      forall evs: seq<Event> | Legal(s, evs) ensures AllNotified(After(s, evs)) {
        NoticesTaken(s, evs);
      }
    }
  }

  /** User processes that can only SENDREC miss nothing; if they could RECEIVE, they might. */
  lemma UsersMissNothing(users: set<int>) returns (s: State)
    ensures Boot(s) && s.cfg == SomeConfig(users) && (SharedReceiver(s) <==> RECEIVE in users)
  {
    s := BootPossible(users);
    if RECEIVE in users {
      assert Running(s, NR_SYS_PROCS);
      assert SharedBy(s, NR_SYS_PROCS, NR_SYS_PROCS + 1);
    }
  }

  // -------------------------------------------------------------------- signals

  /** A signal is caused after boot, and then SYSTEM is made to exit: the signal stays pending
      at PM without the bit that announces it. */
  lemma SignalStranded(s: State, p: int, sig: int)
    requires Boot(s) && IsSlot(p) && p != PM && sig !in s.procs[p].pending && !s.procs[p].signaled
    ensures Inv(s) && Enabled(s, Signal(p, sig)) && Inv(Apply(s, Signal(p, sig)))
    ensures Enabled(Apply(s, Signal(p, sig)), Die(SYSTEM)) && !Proper(Apply(s, Signal(p, sig)), Die(SYSTEM))
    ensures var r := Apply(Apply(s, Signal(p, sig)), Die(SYSTEM));
      SIGKSIG in r.privs[r.cfg.priv[PM]].sigPending && r.cfg.priv[SYSTEM] !in r.privs[r.cfg.priv[PM]].notify
  {
    BootInv(s);
    StepKeepsInv(s, Signal(p, sig));
    var m, v := Apply(s, Signal(p, sig)), s.cfg.priv[PM];
    assert SlotOf(s.cfg.ep[PM]) == PM;
    assert m.privs[v].sigPending == {SIGKSIG} && InUse(m, v);
  }
}
