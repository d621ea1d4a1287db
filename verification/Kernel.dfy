/**
 The message-passing kernel as it runs, on the process table, the privilege structures,
 the linked caller queues and the scheduler's run queues.  `st` is the state of IpcState
 that the tables stand for, together with the two histories; every method is proved to
 take it where IpcSteps says.
 */
module Kernel {
  import opened Options
  import opened Seqs
  import opened WaitGraph
  import opened Links
  import opened IpcState
  import opened IpcInv
  import opened IpcKeeps
  import opened IpcCalls
  import opened KernelState
  import opened Scheduler
  import Spec = IpcSteps
  import S = SchedSpec
  import SchedInv
  import SchedPolicies
  import SchedRuns
  import IpcDeadlock
  import IpcSendRec
  import IpcRuns

  const VM_PROC_NR := 8

  type Buf = Spec.Buf
  type Call = Spec.Call

  class Kernel {
    const rq: RunQueues
    const cfg: Config
    var rec: seq<Record>
    var callerQ: seq<int>        // p_caller_q
    var qLink: seq<int>          // p_q_link
    var privs: seq<Priv>
    var vmRequest: seq<nat>      // vmrequest: processes suspended for VM, latest first
    ghost var st: State

    // A booted kernel: nobody blocked, no message under way, nothing pending.
    constructor (rq: RunQueues, cfg: Config, rec: seq<Record>, privs: seq<Priv>)
      requires rq.Valid() && ConfigOk(cfg) && |rec| == |rq.proc| == NR_SLOTS && |privs| == NR_SYS_PROCS
      requires forall i :: 0 <= i < NR_SLOTS ==> FreshSlot(rec[i], rq.proc[i].rts, cfg.free[i])
      requires forall j :: 0 <= j < NR_SYS_PROCS ==> FreshPriv(privs[j])
      requires !rec[PM].sigDelay && !cfg.free[rq.procPtr] && !cfg.free[S.IDLE] && S.ProcStop in rq.proc[S.IDLE].rts
      ensures this.rq == rq && Valid() && Alert() && IpcRuns.Boot(st)
    {
      this.rq, this.cfg, this.rec, this.privs := rq, cfg, rec, privs;
      vmRequest := [];
      callerQ, qLink := seq(NR_SLOTS, _ => NIL), seq(NR_SLOTS, _ => NIL);
      st := FreshState(cfg, rec, rq.proc, privs);
      FreshAgrees(cfg, rec, rq.proc, privs);
      FreshBoot(cfg, rec, rq.proc, privs);
      new;
    }

    // The tables stand for st, and the run queues hold exactly the runnable processes.
    ghost predicate Wired()
      reads this, rq
    {
      && rq.Valid() && Shape(st) && st.cfg == cfg
      && Agrees(rec, rq.proc, st) && PrivsAgree(privs, st) && Linked(callerQ, qLink, st)
      && !cfg.free[rq.procPtr] && !cfg.free[S.IDLE]
    }

    // While a process traps.
    ghost predicate Steady()
      reads this, rq
    {
      Wired() && Base(st) && Alert()
    }

    // The current process is not blocked in message passing, as after schedcheck; what a
    // kernel entry releases is never the process it runs for.
    ghost predicate Alert()
      reads this, rq
    {
      && 0 <= rq.procPtr < |st.procs|
      && !st.procs[rq.procPtr].sending && !st.procs[rq.procPtr].receiving
    }

    // Between kernel entries.
    ghost predicate Valid()
      reads this, rq
    {
      Wired() && IpcRuns.Inv(st)
    }

    // RTS_ISSET
    predicate IsSet(i: nat, f: S.Flag)
      requires i < |rq.proc|
      reads this, rq
    {
      f in rq.proc[i].rts
    }

    lemma Slot(i: nat)
      requires Wired() && i < NR_SLOTS
      ensures AgreesAt(rec[i], rq.proc[i].rts, cfg.free[i], st.procs[i])
    {
    }

    // RTS_UNSET
    method Release(i: nat, f: set<S.Flag>)
      requires Wired() && i < NR_SLOTS && !cfg.free[i] && f !! {S.Preempted, S.NoEndpoint, S.VmRequest, S.ProcStop}
      requires i != rq.procPtr
      modifies this`st, rq`proc, rq`nextready, rq`rdyHead, rq`rdyTail, rq`rdy
      ensures Wired() && st == Spec.SetProc(old(st), i, Without(old(st).procs[i], f))
      ensures SameVm(old(rq.proc), rq.proc)
    {
      UnsetVm(rq.Value(), i, f);
      AgreesUnset(rec, rq.Value(), st, i, f);
      rq.Unblock(i, f);
      st := Spec.SetProc(st, i, Without(st.procs[i], f));
    }

    // RTS_UNSET of RTS_RECEIVING
    method Wake(i: nat)
      requires Wired() && i < NR_SLOTS && !cfg.free[i] && i != rq.procPtr
      modifies this`st, rq`proc, rq`nextready, rq`rdyHead, rq`rdyTail, rq`rdy
      ensures Wired() && st == Spec.SetProc(old(st), i, old(st).procs[i].(receiving := false))
      ensures SameVm(old(rq.proc), rq.proc)
    {
      Release(i, {S.Receiving});
    }

    // RTS_SET
    method Hold(i: nat, f: set<S.Flag>)
      requires Wired() && i < NR_SLOTS && !cfg.free[i] && f != {} && f !! {S.SlotFree, S.Preempted, S.NoQuantum}
      requires i == S.IDLE ==> f !! {S.Sending, S.Receiving}
      modifies this`st, rq`proc, rq`nextready, rq`rdyHead, rq`rdyTail, rq`rdy
      ensures Wired() && st == Spec.SetProc(old(st), i, With(old(st).procs[i], f))
    {
      AgreesSet(rec, rq.Value(), st, i, f);
      rq.Block(i, f);
      st := Spec.SetProc(st, i, With(st.procs[i], f));
    }

    // A change to the record of slot i, as p describes it.
    method Update(i: nat, r: Record, ghost p: Proc)
      requires Wired() && i < NR_SLOTS && AgreesAt(r, rq.proc[i].rts, cfg.free[i], p)
      modifies this`st, this`rec
      ensures Wired() && st == Spec.SetProc(old(st), i, p) && rec == old(rec)[i := r]
    {
      Slot(i);
      AgreesUpdate(rec, rq.proc, st, i, r, p);
      rec := rec[i := r];
      st := Spec.SetProc(st, i, p);
    }

    method UpdatePriv(j: nat, v: Priv, ghost w: Priv)
      requires Wired() && j < NR_SYS_PROCS && v == w.(tableNo := 0)
      modifies this`st, this`privs
      ensures Wired() && st == Spec.SetPriv(old(st), j, w) && privs == old(privs)[j := v]
    {
      privs := privs[j := v];
      st := Spec.SetPriv(st, j, w);
    }

    // QueueMess
    method QueueMess(ep: int, payload: Payload, d: nat, ghost tagged: Payload)
      requires Wired() && d < NR_SLOTS && payload == Plain(tagged)
      modifies this`st, this`rec
      ensures Wired() && st == Spec.QueueMess(old(st), ep, tagged, d)
    {
      Slot(d);
      Update(d, rec[d].(inbox := Some(Msg(ep, payload))), st.procs[d].(inbox := Some(Msg(ep, tagged))));
    }

    // WILLRECEIVE
    method WillReceive(i: nat, e: int) returns (b: bool)
      requires Wired() && i < NR_SLOTS
      ensures b == IpcState.WillReceive(st.procs[i], e)
    {
      Slot(i);
      b := IsSet(i, S.Receiving) && !IsSet(i, S.Sending) && (rec[i].getfrom == ANY || rec[i].getfrom == e);
    }

    // ------------------------------------------------------------------ deadlock

    // Where the walk goes on from x, whether it ends there, and whether x sends.
    method NextInChain(x: nat) returns (next: int, ends: bool, sends: bool)
      requires Wired() && Blocking(st) && x < NR_SLOTS
      ensures sends == st.procs[x].sending
      ensures ends ==> Waits(st)[x] == NOBODY
      ensures !ends ==> next == if Waits(st)[x] == NOBODY then ANY else Waits(st)[x]
    {
      Slot(x);
      assert BlockingAt(st, x);
      next, ends, sends := ANY, false, IsSet(x, S.Sending);
      if IsSet(x, S.Receiving) {
        if rec[x].getfrom != ANY {
          next := SlotOf(rec[x].getfrom);
        }
      } else if sends {
        next := SlotOf(rec[x].sendto);
      } else {
        ends := true;
      }
    }

    // deadlock: the size of the group of processes that would wait for each other, 0 for
    // none.  It is asked for exactly where the walk ends.
    method Deadlock(trap: Trap, c: nat, target: int) returns (group: nat)
      requires Wired() && Blocking(st) && c < NR_SLOTS && (target == ANY || IsSlot(target))
      requires target != ANY ==> IpcDeadlock.WalkEnds(Waits(st), target, c)
      ensures target == ANY ==> group == 0
      ensures target != ANY ==> (group != 0 <==> Deadlocked(st, trap, c, target))
      ensures group != 0 ==> group >= 2 && BackAt(Waits(st), target, c, group - 1)
    {
      ghost var g := Waits(st);
      ghost var last: nat := 1;
      if target != ANY {
        last :| 0 < last && (Follow(g, target, last) == c || Follow(g, target, last) == NOBODY);
      }
      var x := target;
      group := 1;
      while x != ANY
        invariant x == ANY || IsSlot(x)
        invariant group >= 1 && (target == ANY ==> x == ANY)
        invariant target != ANY ==> Walked(g, target, c, group - 1, if x == ANY then NOBODY else x)
        invariant x != ANY ==> group <= last
        decreases if x == ANY then 0 else 1, last - group
      {
        var next, ends, sends := NextInChain(x);
        WalkOn(g, target, c, group - 1, x);
        group := group + 1;
        if ends {
          NeverBack(st, trap, target, c, group - 1);
          return 0;
        }
        if next == c {
          FirstBack(st, trap, target, c, group - 1);
          if group == 2 && sends != (trap == Send) {
            return 0;
          }
          return;
        }
        x := next;
      }
      if target != ANY {
        NeverBack(st, trap, target, c, group - 1);
      }
      group := 0;
    }

    // --------------------------------------------------------------- mini_notify

    // BuildNotifyMessage and QueueMess.
    method QueueNotification(src: nat, d: nat)
      requires Wired() && src < NR_SLOTS && d < NR_SLOTS
      modifies this`st, this`rec, this`privs
      ensures Wired() && st == Spec.QueueNotify(old(st), src, d)
    {
      var v := cfg.priv[d];
      var arg := {};
      ghost var s := st;
      if src == HARDWARE {
        arg := privs[v].intPending;
        UpdatePriv(v, privs[v].(intPending := {}), st.privs[v].(intPending := {}));
      } else if src == SYSTEM {
        arg := privs[v].sigPending;
        UpdatePriv(v, privs[v].(sigPending := {}), st.privs[v].(sigPending := {}));
      }
      var m := Payload(Notification(arg), 0);
      QueueMess(cfg.ep[src], m, d, m);
      assert s.privs[v := s.privs[v]] == s.privs;
    }

    method MiniNotify(src: nat, dstE: int) returns (r: Status)
      requires Wired() && src < NR_SLOTS
      requires Alert()
      modifies this`st, this`rec, this`privs, rq`proc, rq`nextready, rq`rdyHead, rq`rdyTail, rq`rdy
      ensures Wired() && Spec.Outcome(st, r) == Spec.MiniNotify(old(st), src, dstE)
      ensures SameVm(old(rq.proc), rq.proc)
      ensures Alert()
    {
      if !OkEndpoint(cfg, dstE) {
        return EDEADSRCDST;
      }
      var d := SlotOf(dstE);
      Slot(d);
      var ready := WillReceive(d, cfg.ep[src]);
      if ready && !rec[d].replyPend {
        NotifyNow(src, d);
      } else {
        NotifyLater(src, d);
      }
      return OK;
    }

    method NotifyNow(src: nat, d: nat)
      requires Wired() && src < NR_SLOTS && d < NR_SLOTS && !cfg.free[d]
      requires d != rq.procPtr
      modifies this`st, this`rec, this`privs, rq`proc, rq`nextready, rq`rdyHead, rq`rdyTail, rq`rdy
      ensures Wired() && st == Spec.NotifyNow(old(st), src, d) && SameVm(old(rq.proc), rq.proc)
    {
      QueueNotification(src, d);
      Wake(d);
    }

    method NotifyLater(src: nat, d: nat)
      requires Wired() && src < NR_SLOTS && d < NR_SLOTS
      modifies this`st, this`privs
      ensures Wired() && st == Spec.NotifyLater(old(st), src, d)
    {
      var v := cfg.priv[d];
      UpdatePriv(v, privs[v].(notify := privs[v].notify + {cfg.priv[src]}),
                 st.privs[v].(notify := st.privs[v].notify + {cfg.priv[src]}));
    }

    // -------------------------------------------------- send_sig and cause_sig

    method SendSig(p: nat, sig: int)
      requires Wired() && p < NR_SLOTS
      requires Alert()
      modifies this`st, this`rec, this`privs, rq`proc, rq`nextready, rq`rdyHead, rq`rdyTail, rq`rdy
      ensures Wired() && st == Spec.SendSig(old(st), p, sig)
      ensures Alert()
    {
      var v := cfg.priv[p];
      UpdatePriv(v, privs[v].(sigPending := privs[v].sigPending + {sig}),
                 st.privs[v].(sigPending := st.privs[v].sigPending + {sig}));
      var _ := MiniNotify(SYSTEM, cfg.ep[p]);
    }

    method CauseSig(p: nat, sig: int)
      requires Wired() && p < NR_SLOTS && !cfg.free[p]
      requires Alert()
      modifies this`st, this`rec, this`privs, rq`proc, rq`nextready, rq`rdyHead, rq`rdyTail, rq`rdy
      ensures Wired() && st == Spec.CauseSig(old(st), p, sig)
      ensures Alert()
    {
      Slot(p);
      if sig !in rec[p].pending {
        var signaled := IsSet(p, S.Signaled);
        AddPending(p, sig);
        if !signaled {
          SendSig(PM, SIGKSIG);
        }
      }
    }

    method Stop(p: nat)
      requires Wired() && p < NR_SLOTS && !cfg.free[p]
      modifies this`st, rq`proc, rq`nextready, rq`rdyHead, rq`rdyTail, rq`rdy
      ensures Wired() && st == Spec.SetProc(old(st), p, old(st).procs[p].(signaled := true))
    {
      var f := {S.Signaled, S.SigPending};
      assert S.SlotFree !in f && S.Signaled in f;
      Hold(p, f);
    }

    // The signal is noted, and the process stopped until PM has seen it.
    method AddPending(p: nat, sig: int)
      requires Wired() && p < NR_SLOTS && !cfg.free[p]
      modifies this`st, this`rec, rq`proc, rq`nextready, rq`rdyHead, rq`rdyTail, rq`rdy
      ensures Wired()
      ensures var x := old(st).procs[p];
        st == Spec.SetProc(old(st), p, x.(pending := x.pending + {sig}, signaled := true))
    {
      ghost var s, x := st, st.procs[p];
      Slot(p);
      var signaled := IsSet(p, S.Signaled);
      SetPending(p, sig);
      SetTwice(s, p, x.(pending := x.pending + {sig}), x.(pending := x.pending + {sig}, signaled := true));
      if !signaled {
        Stop(p);
      }
    }

    method SetPending(p: nat, sig: int)
      requires Wired() && p < NR_SLOTS
      modifies this`st, this`rec
      ensures Wired() && st == Spec.SetProc(old(st), p, old(st).procs[p].(pending := old(st).procs[p].pending + {sig}))
    {
      Slot(p);
      Update(p, rec[p].(pending := rec[p].pending + {sig}), st.procs[p].(pending := st.procs[p].pending + {sig}));
    }

    method SigDelayDone(p: nat)
      requires Wired() && p < NR_SLOTS && !cfg.free[p]
      requires Alert()
      modifies this`st, this`rec, this`privs, rq`proc, rq`nextready, rq`rdyHead, rq`rdyTail, rq`rdy
      ensures Wired() && st == Spec.SigDelayDone(old(st), p)
      ensures Alert()
    {
      Slot(p);
      Update(p, rec[p].(sigDelay := false), st.procs[p].(sigDelay := false));
      CauseSig(p, SIGNDELAY);
    }

    // ----------------------------------------------------------------- mini_send

    // The destination waits for this message.
    method HandOver(c: nat, d: nat, body: int)
      requires Wired() && c < NR_SLOTS && d < NR_SLOTS && !cfg.free[d]
      requires d != rq.procPtr
      modifies this`st, this`rec, rq`proc, rq`nextready, rq`rdyHead, rq`rdyTail, rq`rdy
      ensures Wired() && st == Spec.HandOver(old(st), c, d, body)
    {
      ghost var log := st.log + [Transfer(c, cfg.ep[c], d, body, AtReceiver)];
      Pass(cfg.ep[c], Payload(Direct(0), body), d, Payload(Direct(|st.log|), body));
      st := st.(log := log);
    }

    method Pass(ep: int, payload: Payload, d: nat, ghost tagged: Payload)
      requires Wired() && d < NR_SLOTS && !cfg.free[d] && payload == Plain(tagged)
      requires d != rq.procPtr
      modifies this`st, this`rec, rq`proc, rq`nextready, rq`rdyHead, rq`rdyTail, rq`rdy
      ensures Wired()
      ensures var s1 := Spec.QueueMess(old(st), ep, tagged, d);
        st == Spec.SetProc(s1, d, s1.procs[d].(receiving := false))
    {
      QueueMess(ep, payload, d, tagged);
      Wake(d);
    }

    // Walk to the end of the queue of d and add c there.
    method AppendCaller(c: nat, d: nat, ghost s: State)
      requires Shape(s) && Queues(s) && Linked(callerQ, qLink, s)
      requires c < NR_SLOTS && d < NR_SLOTS && Live(s, d) && !s.procs[c].sending
      modifies this`callerQ, this`qLink
      ensures Linked(callerQ, qLink, s.(callq := s.callq[d := s.callq[d] + [c]]))
    {
      ghost var l, k := s.callq[d], 0;
      var prev, x := NIL, callerQ[d];
      assert ListAt(qLink, callerQ[d], l);
      while x != NIL
        invariant k <= |l| && x == At(l, k) && prev == if k == 0 then NIL else l[k - 1]
        decreases |l| - k
      {
        assert qLink[l[k]] == At(l, k + 1);
        prev, x := x, qLink[x];
        k := k + 1;
      }
      assert prev == Last(l);
      CallerAppended(callerQ, qLink, s, c, d);
      if prev == NIL {
        callerQ := callerQ[d := c];
      } else {
        qLink := qLink[prev := c];
      }
      qLink := qLink[c := NIL];
    }

    // c joins the queue of d; s is the state before c was blocked.
    method AddCaller(c: nat, d: nat, ghost s: State, ghost log: seq<Transfer>)
      requires Wired() && Shape(s) && Queues(s) && SameQueues(s, st)
      requires c < NR_SLOTS && d < NR_SLOTS && Live(s, d) && !s.procs[c].sending
      modifies this`st, this`callerQ, this`qLink
      ensures Wired() && st == old(st).(callq := s.callq[d := s.callq[d] + [c]], log := log)
    {
      LinkedFrame(callerQ, qLink, st, s);
      AppendCaller(c, d, s);
      st := st.(callq := s.callq[d := s.callq[d] + [c]], log := log);
      LinkedFrame(callerQ, qLink, s.(callq := st.callq), st);
    }

    // The caller keeps its message and stops.
    method StoreMessage(c: nat, dstE: int, m: Payload, ghost tagged: Payload)
      requires Wired() && c < NR_SLOTS && !cfg.free[c] && m == Plain(tagged)
      requires c != S.IDLE
      modifies this`st, this`rec, rq`proc, rq`nextready, rq`rdyHead, rq`rdyTail, rq`rdy
      ensures Wired()
      ensures st == Spec.SetProc(old(st), c,
        old(st).procs[c].(sending := true, sendto := dstE, sendmsg := tagged))
    {
      ghost var s, p := st, st.procs[c];
      SetSendMsg(c, m, tagged);
      Hold(c, {S.Sending});
      SetTwice(s, c, p.(sendmsg := tagged), p.(sending := true, sendmsg := tagged));
      SetSendTo(c, dstE);
      SetTwice(s, c, p.(sending := true, sendmsg := tagged),
               p.(sending := true, sendto := dstE, sendmsg := tagged));
    }

    method SetSendMsg(c: nat, m: Payload, ghost tagged: Payload)
      requires Wired() && c < NR_SLOTS && m == Plain(tagged)
      modifies this`st, this`rec
      ensures Wired() && st == Spec.SetProc(old(st), c, old(st).procs[c].(sendmsg := tagged))
    {
      Slot(c);
      Update(c, rec[c].(sendmsg := m), st.procs[c].(sendmsg := tagged));
    }

    method SetSendTo(c: nat, dstE: int)
      requires Wired() && c < NR_SLOTS
      modifies this`st, this`rec
      ensures Wired() && st == Spec.SetProc(old(st), c, old(st).procs[c].(sendto := dstE))
    {
      Slot(c);
      Update(c, rec[c].(sendto := dstE), st.procs[c].(sendto := dstE));
    }

    // The destination is busy.
    method BlockSender(c: nat, dstE: int, body: int)
      requires Wired() && Queues(st) && Running(st, c) && OkEndpoint(cfg, dstE) && Live(st, SlotOf(dstE))
      requires c != S.IDLE
      modifies this`st, this`rec, this`callerQ, this`qLink, rq`proc, rq`nextready, rq`rdyHead, rq`rdyTail, rq`rdy
      ensures Wired() && st == Spec.BlockSender(old(st), c, dstE, body)
    {
      ghost var s, d := st, SlotOf(dstE);
      StoreMessage(c, dstE, Payload(Direct(0), body), Payload(Direct(|s.log|), body));
      AddCaller(c, SlotOf(dstE), s, s.log + [Transfer(c, cfg.ep[c], d, body, AtSender)]);
    }

    method MiniSend(c: nat, dstE: int, buf: Buf, nonblocking: bool) returns (r: Status)
      requires Steady() && Running(st, c) && c != S.IDLE && OkEndpoint(cfg, dstE)
      requires IpcDeadlock.SendReturns(st, c, dstE, buf, nonblocking)
      modifies this`st, this`rec, this`callerQ, this`qLink, rq`proc, rq`nextready, rq`rdyHead, rq`rdyTail, rq`rdy
      ensures Wired() && Spec.Outcome(st, r) == Spec.MiniSend(old(st), c, dstE, buf, nonblocking)
      ensures !st.procs[c].sending ==> Alert()
    {
      if !buf.mapped {
        return EFAULT;
      }
      var d := SlotOf(dstE);
      Slot(d);
      if IsSet(d, S.NoEndpoint) {
        return EDSTDIED;
      }
      var ready := WillReceive(d, cfg.ep[c]);
      if ready {
        r := SendNow(c, d, buf);
      } else {
        r := SendLater(c, dstE, buf, nonblocking);
      }
    }

    // The destination is waiting.
    method SendNow(c: nat, d: nat, buf: Buf) returns (r: Status)
      requires Wired() && Alert() && c < NR_SLOTS && d < NR_SLOTS && !cfg.free[d] && st.procs[d].receiving
      modifies this`st, this`rec, rq`proc, rq`nextready, rq`rdyHead, rq`rdyTail, rq`rdy
      ensures Wired() && Alert()
      ensures Spec.Outcome(st, r) ==
        if buf.readable then Spec.Outcome(Spec.HandOver(old(st), c, d, buf.body), OK) else Spec.Outcome(old(st), EFAULT)
    {
      if !buf.readable {
        return EFAULT;
      }
      HandOver(c, d, buf.body);
      return OK;
    }

    // The destination is not waiting: block the caller, unless that may not be.
    method SendLater(c: nat, dstE: int, buf: Buf, nonblocking: bool) returns (r: Status)
      requires Steady() && Running(st, c) && c != S.IDLE && OkEndpoint(cfg, dstE) && buf.mapped
      requires var d := SlotOf(dstE); !st.procs[d].dead && !IpcState.WillReceive(st.procs[d], cfg.ep[c])
      requires nonblocking || IpcDeadlock.WalkEnds(Waits(st), SlotOf(dstE), c)
      modifies this`st, this`rec, this`callerQ, this`qLink, rq`proc, rq`nextready, rq`rdyHead, rq`rdyTail, rq`rdy
      ensures Wired() && Spec.Outcome(st, r) == Spec.MiniSend(old(st), c, dstE, buf, nonblocking)
      ensures !st.procs[c].sending ==> Alert()
    {
      if nonblocking {
        return ENOTREADY;
      }
      var group := Deadlock(Send, c, SlotOf(dstE));
      if group != 0 {
        return ELOCKED;
      }
      if !buf.readable {
        return EFAULT;
      }
      BlockSender(c, dstE, buf.body);
      return OK;
    }

    // -------------------------------------------------------------- mini_receive

    method LowestBit(bits: set<nat>, lo: nat, hi: nat) returns (i: nat)
      requires lo <= hi
      ensures i == Spec.Lowest(bits, lo, hi)
    {
      i := lo;
      while i < hi && i !in bits
        invariant lo <= i <= hi && Spec.Lowest(bits, lo, hi) == Spec.Lowest(bits, i, hi)
      {
        i := i + 1;
      }
    }

    // The scan of the chunks of s_notify_pending.
    method FindNotification(c: nat, srcE: int) returns (id: int)
      requires Wired() && c < NR_SLOTS
      ensures id == Spec.NotifyPick(st, c, srcE)
    {
      var bits := privs[cfg.priv[c]].notify;
      var chunk := 0;
      while chunk < 2
        invariant 0 <= chunk <= 2
        invariant forall h :: 0 <= h < chunk ==> !ChunkHit(cfg, bits, srcE, h)
      {
        var i := LowestBit(bits, chunk * CHUNK_BITS, (chunk + 1) * CHUNK_BITS);
        if i < (chunk + 1) * CHUNK_BITS && (srcE == ANY || SlotOf(srcE) == cfg.owner[i]) {
          assert chunk == 0 || !ChunkHit(cfg, bits, srcE, 0);
          return i;
        }
        chunk := chunk + 1;
      }
      assert !ChunkHit(cfg, bits, srcE, 0) && !ChunkHit(cfg, bits, srcE, 1);
      id := NOBODY;
    }

    method TakeNotification(c: nat, id: nat)
      requires Wired() && c < NR_SLOTS && id < NR_SYS_PROCS && cfg.owner[id] != NOBODY
      modifies this`st, this`rec, this`privs
      ensures Wired() && st == Spec.TakeNotify(old(st), c, id)
    {
      var v := cfg.priv[c];
      UpdatePriv(v, privs[v].(notify := privs[v].notify - {id}), st.privs[v].(notify := st.privs[v].notify - {id}));
      QueueNotification(cfg.owner[id], c);
    }

    // The walk over the caller queue: the first acceptable sender and the slot before it.
    method FindCaller(c: nat, srcE: int) returns (prev: int, x: int)
      requires Wired() && c < NR_SLOTS && Live(st, c) && (srcE == ANY || IsSlot(SlotOf(srcE)))
      ensures var k := Spec.QueuePick(st, c, srcE);
        x == At(st.callq[c], k) && (x == NIL <==> k == |st.callq[c]|) && prev == if k == 0 then NIL else st.callq[c][k - 1]
    {
      ghost var l, k := st.callq[c], 0;
      prev, x := NIL, callerQ[c];
      assert ListAt(qLink, callerQ[c], l);
      while x != NIL && !(srcE == ANY || SlotOf(srcE) == x)
        invariant k <= |l| && x == At(l, k) && prev == if k == 0 then NIL else l[k - 1]
        invariant k > 0 ==> srcE != ANY
        invariant forall j :: 0 <= j < k ==> l[j] != SlotOf(srcE)
        decreases |l| - k
      {
        assert qLink[l[k]] == At(l, k + 1);
        prev, x := x, qLink[x];
        k := k + 1;
      }
      assert srcE != ANY ==> k == Find(l, SlotOf(srcE));
    }

    method UnlinkCaller(c: nat, prev: int, x: nat, ghost s: State, ghost k: nat)
      requires Shape(s) && Queues(s) && Linked(callerQ, qLink, s)
      requires c < NR_SLOTS && Live(s, c) && k < |s.callq[c]| && x == s.callq[c][k] && x < NR_SLOTS
      requires prev == if k == 0 then NIL else s.callq[c][k - 1]
      modifies this`callerQ, this`qLink
      ensures Linked(callerQ, qLink, s.(callq := s.callq[c := RemoveAt(s.callq[c], k)]))
    {
      CallerRemoved(callerQ, qLink, s, c, k);
      if prev == NIL {
        callerQ := callerQ[c := qLink[x]];
      } else {
        qLink := qLink[prev := qLink[x]];
      }
    }

    // x leaves the queue of c; s is the state before x was released.
    method DropCaller(c: nat, prev: int, x: nat, ghost s: State, ghost k: nat, ghost log: seq<Transfer>)
      requires Wired() && Shape(s) && Queues(s) && SameQueues(s, st)
      requires c < NR_SLOTS && Live(s, c) && k < |s.callq[c]| && x == s.callq[c][k] && x < NR_SLOTS
      requires prev == if k == 0 then NIL else s.callq[c][k - 1]
      modifies this`st, this`callerQ, this`qLink
      ensures Wired() && st == old(st).(callq := s.callq[c := RemoveAt(s.callq[c], k)], log := log)
    {
      LinkedFrame(callerQ, qLink, st, s);
      UnlinkCaller(c, prev, x, s, k);
      st := st.(callq := s.callq[c := RemoveAt(s.callq[c], k)], log := log);
      LinkedFrame(callerQ, qLink, s.(callq := st.callq), st);
    }

    // Copy the message of x, report the end of a delayed signal, release x.
    method TakeMessage(c: nat, x: nat)
      requires Wired() && c < NR_SLOTS && x < NR_SLOTS && !cfg.free[x] && x != c
      requires Alert() && x != rq.procPtr
      modifies this`st, this`rec, this`privs, rq`proc, rq`nextready, rq`rdyHead, rq`rdyTail, rq`rdy
      ensures Wired() && st == Relieved(old(st), c, x)
    {
      Slot(x);
      QueueMess(cfg.ep[x], rec[x].sendmsg, c, st.procs[x].sendmsg);
      Slot(x);
      if rec[x].sigDelay {
        SigDelayDone(x);
      }
      Release(x, {S.Sending});
    }

    method TakeCaller(c: nat, prev: int, x: nat, ghost k: nat)
      requires Wired() && Sound(st) && Running(st, c) && k < |st.callq[c]| && x == st.callq[c][k]
      requires prev == if k == 0 then NIL else st.callq[c][k - 1]
      requires Alert()
      modifies this`st, this`rec, this`callerQ, this`qLink, this`privs
      modifies rq`proc, rq`nextready, rq`rdyHead, rq`rdyTail, rq`rdy
      ensures Wired() && x < NR_SLOTS
      ensures st == TakenFrom(old(st), c, k)
    {
      ghost var s := st;
      SenderIsOther(s, c, k);
      SigDelayFirst(s, c, k);
      TakeMessage(c, x);
      RelievedQueues(s, c, x);
      DropCaller(c, prev, x, s, k, Spec.SetPlace(s.log, s.procs[x].sendmsg.kind, AtReceiver));
    }

    // ------------------------------------------------------ try_one and try_async

    // The scan of try_one over a table.
    method ScanEntries(t: seq<Entry>, dst: int, replyPend: bool) returns (r: Spec.ScanResult)
      ensures r == Spec.ScanTable(t, 0, dst, replyPend)
    {
      var done, postponed := true, false;
      var i := 0;
      while i < |t|
        invariant 0 <= i <= |t|
        invariant Spec.ScanTable(t, 0, dst, replyPend) == Resumed(Spec.ScanTable(t, i, dst, replyPend), done, postponed)
      {
        if t[i].Empty() {
        } else if t[i].Malformed() {
          return Spec.ScanResult(Spec.BadBits, postponed);
        } else if !t[i].done {
          if t[i].dst == dst {
            if !(t[i].noreply && replyPend) {
              return Spec.ScanResult(Spec.Found(i), postponed);
            }
            postponed := true;
          }
          done := false;
        }
        i := i + 1;
      }
      r := Spec.ScanResult(Spec.Nothing(done), postponed);
    }

    // Deliver entry i of the table of v to d and mark it.
    method DeliverEntry(v: nat, src: nat, i: nat, d: nat)
      requires Wired() && v < NR_SYS_PROCS && src < NR_SLOTS && d < NR_SLOTS && i < |privs[v].table|
      modifies this`st, this`rec, this`privs
      ensures i < |old(st).privs[v].table|
      ensures Wired() && st == Spec.DeliverEntry(old(st), v, src, i, d)
    {
      var e := privs[v].table[i];
      ghost var log := st.asyncLog + [AsyncDelivery(v, st.privs[v].tableNo, i, cfg.ep[d], e.noreply)];
      MoveEntry(v, cfg.ep[src], i, d);
      st := st.(asyncLog := log);
    }

    method MoveEntry(v: nat, ep: int, i: nat, d: nat)
      requires Wired() && v < NR_SYS_PROCS && d < NR_SLOTS && i < |privs[v].table|
      modifies this`st, this`rec, this`privs
      ensures Wired() && i < |old(st).privs[v].table|
      ensures var t := old(st).privs[v].table;
        st == Spec.SetPriv(Spec.QueueMess(old(st), ep, Payload(Async(t[i].noreply), t[i].body), d), v,
                           old(st).privs[v].(table := t[i := Spec.DoneEntry(t[i], OK)]))
    {
      var e := privs[v].table[i];
      QueueMess(ep, Payload(Async(e.noreply), e.body), d, Payload(Async(e.noreply), e.body));
      SetEntry(v, i, Spec.DoneEntry(e, OK));
    }

    method SetEntry(v: nat, i: nat, e: Entry)
      requires Wired() && v < NR_SYS_PROCS && i < |privs[v].table|
      modifies this`st, this`privs
      ensures i < |old(st).privs[v].table|
      ensures Wired() && st == Spec.SetPriv(old(st), v, old(st).privs[v].(table := old(st).privs[v].table[i := e]))
    {
      UpdatePriv(v, privs[v].(table := privs[v].table[i := e]), st.privs[v].(table := st.privs[v].table[i := e]));
    }

    // s_asynsize
    method SetActive(v: nat, active: bool)
      requires Wired() && v < NR_SYS_PROCS
      modifies this`st, this`privs
      ensures Wired() && st == Spec.SetPriv(old(st), v, old(st).privs[v].(active := active))
    {
      UpdatePriv(v, privs[v].(active := active), st.privs[v].(active := active));
    }

    method TryOne(src: nat, d: nat) returns (delivered: bool, postponed: bool)
      requires Wired() && src < NR_SLOTS && d < NR_SLOTS
      modifies this`st, this`rec, this`privs
      ensures Wired() && Spec.TryResult(st, delivered, postponed) == Spec.TryOne(old(st), src, d)
    {
      var v := cfg.priv[src];
      if v == USER_PRIV || !privs[v].active || cfg.priv[d] !in cfg.ipcTo[v] {
        return false, false;
      }
      Slot(d);
      var t := privs[v].table;
      var r := ScanEntries(t, cfg.ep[d], rec[d].replyPend);
      Spec.ScanIndex(t, 0, cfg.ep[d], rec[d].replyPend);
      delivered := EndScan(v, src, d, r.scan);
      postponed := r.postponed;
    }

    // What try_one does with the outcome of its scan.
    method EndScan(v: nat, src: nat, d: nat, scan: Spec.Scan) returns (delivered: bool)
      requires Wired() && v < NR_SYS_PROCS && src < NR_SLOTS && d < NR_SLOTS
      requires scan.Found? ==> scan.index < |privs[v].table| && scan.index < |st.privs[v].table|
      modifies this`st, this`rec, this`privs
      ensures Wired() && delivered == scan.Found?
      ensures match scan
        case Found(i) => st == Spec.DeliverEntry(old(st), v, src, i, d)
        case BadBits => st == Spec.SetPriv(old(st), v, old(st).privs[v].(active := false))
        case Nothing(allDone) =>
          st == Spec.SetPriv(old(st), v, old(st).privs[v].(active := old(st).privs[v].active && !allDone))
    {
      delivered := scan.Found?;
      match scan {
        case Found(i) => DeliverEntry(v, src, i, d);
        case BadBits => SetActive(v, false);
        case Nothing(allDone) => SetActive(v, privs[v].active && !allDone);
      }
    }

    method SetAsynMsg(d: nat, b: bool)
      requires Wired() && d < NR_SLOTS
      modifies this`st, this`rec
      ensures Wired() && st == Spec.SetProc(old(st), d, old(st).procs[d].(asynMsg := b))
    {
      Slot(d);
      Update(d, rec[d].(asynMsg := b), st.procs[d].(asynMsg := b));
    }

    // try_async
    method TryAsync(d: nat) returns (delivered: bool, postponed: bool)
      requires Wired() && d < NR_SLOTS
      modifies this`st, this`rec, this`privs
      ensures Wired() && Spec.TryResult(st, delivered, postponed) == Spec.TryAsync(old(st), d, 0, false)
    {
      ghost var s := st;
      postponed := false;
      var j := 0;
      while j < NR_SYS_PROCS
        invariant 0 <= j <= NR_SYS_PROCS && Wired()
        invariant Spec.TryAsync(s, d, 0, false) == Spec.TryAsync(st, d, j, postponed)
      {
        var later;
        TryAsyncNext(st, d, j, postponed);
        delivered, later := TryNext(d, j);
        if delivered {
          postponed := later;
          return;
        }
        postponed := postponed || later;
        j := j + 1;
      }
      TryAsyncNext(st, d, j, postponed);
      EndTry(d, postponed);
      delivered := false;
    }

    // One privilege structure.
    method TryNext(d: nat, j: nat) returns (delivered: bool, later: bool)
      requires Wired() && d < NR_SLOTS && j < NR_SYS_PROCS
      modifies this`st, this`rec, this`privs
      ensures Wired() && Spec.TryResult(st, delivered, later) == Spec.TryNext(old(st), d, j)
    {
      delivered, later := false, false;
      if cfg.owner[j] != NOBODY {
        delivered, later := TryOne(cfg.owner[j], d);
      }
    }

    method EndTry(d: nat, postponed: bool)
      requires Wired() && d < NR_SLOTS
      modifies this`st, this`rec
      ensures Wired() && Spec.TryResult(st, false, postponed) == Spec.TryEnd(old(st), d, postponed)
    {
      Slot(d);
      SetAsynMsg(d, rec[d].asynMsg && postponed);
    }

    // Satisfy a RECEIVE from what is already there.
    method ReceiveNow(c: nat, srcE: int) returns (delivered: bool, ghost postponed: bool)
      requires Wired() && Sound(st) && Running(Unsent(st, c), c) && (srcE == ANY || IsSlot(SlotOf(srcE)))
      requires st.procs[c].sending || Alert()
      modifies this`st, this`rec, this`callerQ, this`qLink, this`privs
      modifies rq`proc, rq`nextready, rq`rdyHead, rq`rdyTail, rq`rdy
      ensures Wired() && Spec.TryResult(st, delivered, postponed) == Spec.ReceiveNow(old(st), c, srcE)
    {
      Slot(c);
      if IsSet(c, S.Sending) {
        return false, false;
      }
      PickedOwner(st, c, srcE);
      if !rec[c].replyPend {
        var id := FindNotification(c, srcE);
        if id != NOBODY {
          TakeNotification(c, id);
          return true, false;
        }
      }
      ReceiveFromOthers(st, c, srcE);
      delivered, postponed := TakeFromOthers(c, srcE);
    }

    // ... from the caller queue and then from async tables.
    method TakeFromOthers(c: nat, srcE: int) returns (delivered: bool, ghost postponed: bool)
      requires Wired() && Sound(st) && Running(st, c) && (srcE == ANY || IsSlot(SlotOf(srcE)))
      requires Alert()
      modifies this`st, this`rec, this`callerQ, this`qLink, this`privs
      modifies rq`proc, rq`nextready, rq`rdyHead, rq`rdyTail, rq`rdy
      ensures Wired() && Spec.TryResult(st, delivered, postponed) == FromOthers(old(st), c, srcE)
    {
      ghost var k := Spec.QueuePick(st, c, srcE);
      var prev, x := FindCaller(c, srcE);
      if x != NIL {
        TakeCaller(c, prev, x, k);
        delivered, postponed := true, false;
      } else {
        delivered, postponed := TryTables(c, srcE);
      }
    }

    method TryTables(c: nat, srcE: int) returns (delivered: bool, ghost postponed: bool)
      requires Wired() && c < NR_SLOTS && (srcE == ANY || IsSlot(SlotOf(srcE)))
      modifies this`st, this`rec, this`privs
      ensures Wired() && Spec.TryResult(st, delivered, postponed) == FromTables(old(st), c, srcE)
    {
      Slot(c);
      if !rec[c].asynMsg {
        return false, false;
      }
      if srcE != ANY {
        delivered, postponed := TryOne(SlotOf(srcE), c);
      } else {
        delivered, postponed := TryAsync(c);
      }
    }

    method BlockReceiver(c: nat, srcE: int)
      requires Wired() && c < NR_SLOTS && !cfg.free[c]
      requires c != S.IDLE
      modifies this`st, this`rec, rq`proc, rq`nextready, rq`rdyHead, rq`rdyTail, rq`rdy
      ensures Wired() && st == Spec.BlockReceiver(old(st), c, srcE)
    {
      ghost var s, p := st, st.procs[c];
      SetGetFrom(c, srcE);
      Hold(c, {S.Receiving});
      SetTwice(s, c, p.(getfrom := srcE), p.(receiving := true, getfrom := srcE));
    }

    method SetGetFrom(c: nat, srcE: int)
      requires Wired() && c < NR_SLOTS
      modifies this`st, this`rec
      ensures Wired() && st == Spec.SetProc(old(st), c, old(st).procs[c].(getfrom := srcE))
    {
      Slot(c);
      Update(c, rec[c].(getfrom := srcE), st.procs[c].(getfrom := srcE));
    }

    method MiniReceive(c: nat, srcE: int, mapped: bool, nonblocking: bool) returns (r: Status)
      requires Wired() && Base(st) && Running(Unsent(st, c), c) && c != S.IDLE && (srcE == ANY || OkEndpoint(cfg, srcE))
      requires IpcDeadlock.ReceiveReturns(st, c, srcE, mapped) && (st.procs[c].sending || Alert())
      modifies this`st, this`rec, this`callerQ, this`qLink, this`privs
      modifies rq`proc, rq`nextready, rq`rdyHead, rq`rdyTail, rq`rdy
      ensures Wired() && Spec.Outcome(st, r) == Spec.MiniReceive(old(st), c, srcE, mapped, nonblocking)
    {
      if !mapped {
        return EFAULT;
      }
      if srcE != ANY {
        Slot(SlotOf(srcE));
        if IsSet(SlotOf(srcE), S.NoEndpoint) {
          return ESRCDIED;
        }
      }
      ghost var s := st;
      ReceiveNowKeeps(st, c, srcE);
      var delivered, _ := ReceiveNow(c, srcE);
      if delivered {
        return OK;
      }
      if nonblocking {
        return ENOTREADY;
      }
      SameWaits(s, st);
      var group := Deadlock(Receive, c, if srcE == ANY then ANY else SlotOf(srcE));
      if group != 0 {
        return ELOCKED;
      }
      BlockReceiver(c, srcE);
      return OK;
    }

    // ---------------------------------------------------------------- mini_senda

    // An undone entry of a table that is being submitted; done unless it must wait.
    method SendaEntry(c: nat, i: nat) returns (done: bool)
      requires Wired() && c < NR_SLOTS && i < |privs[cfg.priv[c]].table|
      requires Alert()
      modifies this`st, this`rec, this`privs, rq`proc, rq`nextready, rq`rdyHead, rq`rdyTail, rq`rdy
      ensures Wired() && i < |old(st).privs[cfg.priv[c]].table|
      ensures Spec.SendaResult(st, OK, done) == Spec.SendaEntry(old(st), c, i)
      ensures Alert()
    {
      var v := cfg.priv[c];
      var e := privs[v].table[i];
      var d := SlotOf(e.dst);
      if !OkEndpoint(cfg, e.dst) {
        SetEntry(v, i, Spec.DoneEntry(e, EDEADSRCDST));
        return true;
      }
      if d < NR_TASKS || cfg.priv[d] !in cfg.ipcTo[v] {
        SetEntry(v, i, Spec.DoneEntry(e, ECALLDENIED));
        return true;
      }
      Slot(d);
      if IsSet(d, S.NoEndpoint) {
        SetEntry(v, i, Spec.DoneEntry(e, EDSTDIED));
        return true;
      }
      done := SendaTo(c, i, d);
    }

    method SendaTo(c: nat, i: nat, d: nat) returns (done: bool)
      requires Wired() && c < NR_SLOTS && i < |privs[cfg.priv[c]].table| && d < NR_SLOTS && !cfg.free[d]
      requires Alert()
      modifies this`st, this`rec, this`privs, rq`proc, rq`nextready, rq`rdyHead, rq`rdyTail, rq`rdy
      ensures Wired() && i < |old(st).privs[cfg.priv[c]].table|
      ensures var s, v := old(st), cfg.priv[c];
        if IpcState.WillReceive(s.procs[d], cfg.ep[c]) && (!s.privs[v].table[i].noreply || !s.procs[d].replyPend) then
          var s1 := Spec.DeliverEntry(s, v, c, i, d);
          done && st == Spec.SetProc(s1, d, s1.procs[d].(receiving := false))
        else !done && st == Spec.SetProc(s, d, s.procs[d].(asynMsg := true))
      ensures Alert()
    {
      var v := cfg.priv[c];
      var ready := WillReceive(d, cfg.ep[c]);
      Slot(d);
      if ready && (!privs[v].table[i].noreply || !rec[d].replyPend) {
        SendaNow(v, c, i, d);
        done := true;
      } else {
        SetAsynMsg(d, true);
        done := false;
      }
    }

    method SendaNow(v: nat, c: nat, i: nat, d: nat)
      requires Wired() && v < NR_SYS_PROCS && c < NR_SLOTS && d < NR_SLOTS && !cfg.free[d] && i < |privs[v].table|
      requires d != rq.procPtr
      modifies this`st, this`rec, this`privs, rq`proc, rq`nextready, rq`rdyHead, rq`rdyTail, rq`rdy
      ensures Wired() && i < |old(st).privs[v].table|
      ensures var s1 := Spec.DeliverEntry(old(st), v, c, i, d);
        st == Spec.SetProc(s1, d, s1.procs[d].(receiving := false))
    {
      DeliverEntry(v, c, i, d);
      Wake(d);
    }

    // The scan of a submitted table.
    // Where the scan of a table is, and what the whole scan comes to.
    ghost predicate Scanning(c: nat, i: nat, done: bool, all: Spec.SendaResult)
      reads this, rq
    {
      && Wired() && Alert() && c < NR_SLOTS
      && i <= |privs[cfg.priv[c]].table| == |st.privs[cfg.priv[c]].table| && Spec.SendaScan(st, c, i, done) == all
    }

    method SendaScan(c: nat) returns (r: Status, done: bool)
      requires Wired() && c < NR_SLOTS
      requires Alert()
      modifies this`st, this`rec, this`privs, rq`proc, rq`nextready, rq`rdyHead, rq`rdyTail, rq`rdy
      ensures Wired() && Spec.SendaResult(st, r, done) == Spec.SendaScan(old(st), c, 0, true)
    {
      ghost var all := Spec.SendaScan(st, c, 0, true);
      done := true;
      var i := 0;
      while i < |privs[cfg.priv[c]].table|
        invariant Scanning(c, i, done, all)
        decreases |privs[cfg.priv[c]].table| - i
      {
        var bad, b := SendaNext(c, i, done, all);
        if bad {
          return EINVAL, done;
        }
        done := done && b;
        i := i + 1;
      }
      SendaScanEnd(st, c, i, done);
      r := OK;
    }

    // One entry of the table.
    method SendaNext(c: nat, i: nat, ghost done: bool, ghost all: Spec.SendaResult) returns (bad: bool, b: bool)
      requires Scanning(c, i, done, all) && i < |privs[cfg.priv[c]].table|
      modifies this`st, this`rec, this`privs, rq`proc, rq`nextready, rq`rdyHead, rq`rdyTail, rq`rdy
      ensures Wired() && |privs[cfg.priv[c]].table| == |old(privs[cfg.priv[c]].table)|
      ensures if bad then Spec.SendaResult(st, EINVAL, done) == all else Scanning(c, i + 1, done && b, all)
    {
      var v := cfg.priv[c];
      var e := privs[v].table[i];
      assert e == st.privs[v].table[i];
      bad, b := !e.Empty() && e.Malformed(), true;
      if !bad && !e.Empty() && !e.done {
        b := SendaEntry(c, i);
      }
    }

    method MiniSenda(c: nat, table: seq<Entry>, mapped: bool) returns (r: Status)
      requires Wired() && c < NR_SLOTS
      requires Alert()
      modifies this`st, this`rec, this`privs, rq`proc, rq`nextready, rq`rdyHead, rq`rdyTail, rq`rdy
      ensures Wired() && Spec.Outcome(st, r) == Spec.MiniSenda(old(st), c, table, mapped)
    {
      var v := cfg.priv[c];
      if !cfg.sysProc[v] {
        return EPERM;
      }
      ghost var s := st;
      SetActive(v, false);
      if table == [] {
        return OK;
      }
      if !mapped {
        return EFAULT;
      }
      if |table| > 16 * NR_SLOTS {
        return EDOM;
      }
      SetTable(v, table);
      assert st == Spec.SendaStart(s, c, table);
      var done;
      r, done := SendaScan(c);
      if r == OK && !done {
        SetActive(v, true);
      }
    }

    method SetTable(v: nat, table: seq<Entry>)
      requires Wired() && v < NR_SYS_PROCS
      modifies this`st, this`privs
      ensures Wired()
      ensures st == Spec.SetPriv(old(st), v, old(st).privs[v].(table := table, tableNo := old(st).privs[v].tableNo + 1))
    {
      UpdatePriv(v, privs[v].(table := table), st.privs[v].(table := table, tableNo := st.privs[v].tableNo + 1));
    }

    // ------------------------------------------------------------------ sys_call

    // The checks of sys_call, in its order.
    method Check(c: nat, call: Call) returns (r: Status)
      requires Wired() && c < NR_SLOTS
      ensures r == Spec.CallCheck(st, c, call)
    {
      var v, nr := cfg.priv[c], call.nr;
      if nr == Spec.SENDA {
      } else if call.ep == ANY {
        if nr != Spec.RECEIVE {
          return EINVAL;
        }
      } else {
        if !OkEndpoint(cfg, call.ep) {
          return EDEADSRCDST;
        }
        if nr != Spec.RECEIVE && cfg.priv[SlotOf(call.ep)] !in cfg.ipcTo[v] {
          return ECALLDENIED;
        }
      }
      if nr < 0 || nr >= 32 {
        return ETRAPDENIED;
      }
      if nr !in cfg.traps[v] {
        return ETRAPDENIED;
      }
      if nr != Spec.SENDREC && nr != Spec.RECEIVE && nr != Spec.SENDA && SlotOf(call.ep) < NR_TASKS {
        return ETRAPDENIED;
      }
      if nr == Spec.SENDA && |call.table| > 16 * NR_SLOTS {
        return EDOM;
      }
      r := if nr in {Spec.SEND, Spec.RECEIVE, Spec.SENDREC, Spec.NOTIFY, Spec.SENDNB, Spec.SENDA} then OK else EBADCALL;
    }

    method SetReplyPend(c: nat, b: bool)
      requires Wired() && c < NR_SLOTS
      modifies this`st, this`rec
      ensures Wired() && st == Spec.WithReplyPend(old(st), c, b)
    {
      Slot(c);
      Update(c, rec[c].(replyPend := b), st.procs[c].(replyPend := b));
    }

    // SENDREC, MF_REPLY_PEND being set.
    method SendRec(c: nat, ep: int, buf: Buf) returns (r: Status)
      requires Steady() && Running(st, c) && c != S.IDLE && OkEndpoint(cfg, ep)
      requires IpcDeadlock.SendRecReturns(st, c, ep, buf)
      modifies this`st, this`rec, this`callerQ, this`qLink, this`privs
      modifies rq`proc, rq`nextready, rq`rdyHead, rq`rdyTail, rq`rdy
      ensures Wired() && Spec.Outcome(st, r) == Spec.SendRec(old(st), c, ep, buf)
    {
      ghost var s := st;
      MiniSendKeeps(s, c, ep, buf, false);
      r := MiniSend(c, ep, buf, false);
      if r == OK {
        AfterSend(s, c, ep, buf);
        r := MiniReceive(c, ep, buf.mapped, false);
      }
    }

    // RECEIVE and SENDREC: clear or set MF_REPLY_PEND first.
    method ReceiveCall(c: nat, ep: int, mapped: bool) returns (r: Status)
      requires Steady() && Running(st, c) && c != S.IDLE && (ep == ANY || OkEndpoint(cfg, ep))
      requires IpcDeadlock.ReceiveReturns(Spec.WithReplyPend(st, c, false), c, ep, mapped)
      modifies this`st, this`rec, this`callerQ, this`qLink, this`privs
      modifies rq`proc, rq`nextready, rq`rdyHead, rq`rdyTail, rq`rdy
      ensures Wired()
      ensures Spec.Outcome(st, r) == Spec.MiniReceive(Spec.WithReplyPend(old(st), c, false), c, ep, mapped, false)
    {
      ReplyPendKeeps(st, c, false);
      SetReplyPend(c, false);
      r := MiniReceive(c, ep, mapped, false);
    }

    method SendRecCall(c: nat, ep: int, buf: Buf) returns (r: Status)
      requires Steady() && Running(st, c) && c != S.IDLE && OkEndpoint(cfg, ep)
      requires IpcDeadlock.SendRecReturns(Spec.WithReplyPend(st, c, true), c, ep, buf)
      modifies this`st, this`rec, this`callerQ, this`qLink, this`privs
      modifies rq`proc, rq`nextready, rq`rdyHead, rq`rdyTail, rq`rdy
      ensures Wired()
      ensures Spec.Outcome(st, r) == Spec.SendRec(Spec.WithReplyPend(old(st), c, true), c, ep, buf)
    {
      ReplyPendKeeps(st, c, true);
      SetReplyPend(c, true);
      r := SendRec(c, ep, buf);
    }

    // sys_call for the current process, whenever it comes back; from a kernel free of
    // deadlock it always does, and leaves one if and only if the call does not block on the
    // caller itself.
    method SysCall(call: Call) returns (r: Status)
      requires Wired() && Base(st) && Running(st, rq.procPtr) && rq.procPtr != S.IDLE
      requires IpcRuns.Inv(st) || IpcDeadlock.Returns(st, rq.procPtr, call)
      modifies this`st, this`rec, this`callerQ, this`qLink, this`privs
      modifies rq`proc, rq`nextready, rq`rdyHead, rq`rdyTail, rq`rdy
      ensures Wired() && Base(st)
      ensures Spec.Outcome(st, r) == Spec.SysCall(old(st), rq.procPtr, call)
      ensures IpcRuns.Inv(old(st)) ==> (Valid() <==> !IpcSendRec.BlocksOnSelf(old(st), rq.procPtr, call))
    {
      TrapFacts(st, rq.procPtr, call);
      r := Dispatch(rq.procPtr, call);
    }

    method Dispatch(c: nat, call: Call) returns (r: Status)
      requires Steady() && Running(st, c) && c != S.IDLE && IpcDeadlock.Returns(st, c, call)
      modifies this`st, this`rec, this`callerQ, this`qLink, this`privs
      modifies rq`proc, rq`nextready, rq`rdyHead, rq`rdyTail, rq`rdy
      ensures Wired() && Spec.Outcome(st, r) == Spec.SysCall(old(st), c, call)
    {
      r := Check(c, call);
      if r == OK {
        if call.nr == Spec.SEND || call.nr == Spec.SENDNB {
          r := MiniSend(c, call.ep, call.buf, call.nr == Spec.SENDNB);
        } else if call.nr == Spec.RECEIVE {
          r := ReceiveCall(c, call.ep, call.buf.mapped);
        } else if call.nr == Spec.SENDREC {
          r := SendRecCall(c, call.ep, call.buf);
        } else if call.nr == Spec.NOTIFY {
          r := MiniNotify(c, call.ep);
        } else {
          r := MiniSenda(c, call.table, call.buf.mapped);
        }
      }
    }

    // An interrupt handler or a task notifies, and a signal is caused.
    method Interrupt(src: nat, dstE: int) returns (r: Status)
      requires Valid() && src < NR_SLOTS && !cfg.free[src]
      requires Alert()
      modifies this`st, this`rec, this`privs, rq`proc, rq`nextready, rq`rdyHead, rq`rdyTail, rq`rdy
      ensures Valid() && st == IpcRuns.Apply(old(st), IpcRuns.Notify(src, dstE))
      ensures Alert()
    {
      IpcRuns.StepKeepsInv(st, IpcRuns.Notify(src, dstE));
      r := MiniNotify(src, dstE);
    }

    method Signal(p: nat, sig: int)
      requires Valid() && p < NR_SLOTS && !cfg.free[p] && p != PM
      requires Alert()
      modifies this`st, this`rec, this`privs, rq`proc, rq`nextready, rq`rdyHead, rq`rdyTail, rq`rdy
      ensures Valid() && st == IpcRuns.Apply(old(st), IpcRuns.Signal(p, sig))
      ensures Alert()
    {
      IpcRuns.StepKeepsInv(st, IpcRuns.Signal(p, sig));
      CauseSig(p, sig);
    }

    // ------------------------------------------------------------- clear_endpoint

    // Find x on the queue of d and take it off.
    method CutCaller(d: nat, x: nat, ghost s: State)
      requires Shape(s) && Queues(s) && Linked(callerQ, qLink, s)
      requires d < NR_SLOTS && Live(s, d) && x in s.callq[d]
      modifies this`callerQ, this`qLink
      ensures Linked(callerQ, qLink, s.(callq := s.callq[d := Remove(s.callq[d], x)]))
    {
      ghost var l, k := s.callq[d], 0;
      var prev, y := NIL, callerQ[d];
      assert ListAt(qLink, callerQ[d], l);
      while y != NIL && y != x
        invariant k <= |l| && y == At(l, k) && prev == if k == 0 then NIL else l[k - 1]
        invariant forall j :: 0 <= j < k ==> l[j] != x
        decreases |l| - k
      {
        assert qLink[l[k]] == At(l, k + 1);
        prev, y := y, qLink[y];
        k := k + 1;
      }
      assert k == Find(l, x);
      UnlinkCaller(d, prev, x, s, k);
    }

    // RTS_SENDING and RTS_RECEIVING of the dying process, which is blocked for good.
    method Bury(rc: nat)
      requires Wired() && rc < NR_SLOTS && !cfg.free[rc] && st.procs[rc].dead
      modifies this`st, rq`proc
      ensures Wired() && st == Spec.SetProc(old(st), rc, Spec.Buried(old(st).procs[rc]))
    {
      Slot(rc);
      var f := {S.Sending, S.Receiving};
      assert S.NoEndpoint in rq.proc[rc].rts - f;
      ghost var before, s := rq.proc, st;
      rq.ClearFlags(rc, f);
      st := Spec.SetProc(st, rc, Spec.Buried(st.procs[rc]));
      AgreesBuried(rec, before, rq.proc, s, rc);
    }

    // A slot of the process table is told about the death of rc.
    method TellDeath(i: nat, rc: nat)
      requires Wired() && i < NR_SLOTS && rc < NR_SLOTS
      requires Alert()
      modifies this`st, this`rec, this`privs, rq`proc, rq`nextready, rq`rdyHead, rq`rdyTail, rq`rdy
      ensures Wired() && st == ClearedSlot(old(st), rc, i)
      ensures Alert()
    {
      Slot(i);
      if rq.proc[i].rts == {S.SlotFree} {
        return;
      }
      var v := cfg.priv[i];
      UpdatePriv(v, privs[v].(notify := privs[v].notify - {cfg.priv[rc]}),
                 st.privs[v].(notify := st.privs[v].notify - {cfg.priv[rc]}));
      ReleaseWaiter(i, cfg.ep[rc]);
    }

    method ReleaseWaiter(i: nat, e: int)
      requires Wired() && i < NR_SLOTS && !cfg.free[i]
      requires Alert()
      modifies this`st, this`rec, rq`proc, rq`nextready, rq`rdyHead, rq`rdyTail, rq`rdy
      ensures Wired() && st == Spec.SetProc(old(st), i, Spec.Released(old(st).procs[i], e))
      ensures Alert()
    {
      ghost var s, p := st, st.procs[i];
      ReleaseReceiver(i, e);
      ReleaseSender(i, e);
      SetTwice(s, i, NotReceiving(p, e), Spec.Released(p, e));
    }

    method ReleaseReceiver(i: nat, e: int)
      requires Wired() && i < NR_SLOTS && !cfg.free[i]
      requires Alert()
      modifies this`st, this`rec, rq`proc, rq`nextready, rq`rdyHead, rq`rdyTail, rq`rdy
      ensures Wired() && st == Spec.SetProc(old(st), i, NotReceiving(old(st).procs[i], e))
      ensures Alert()
    {
      ghost var s, p := st, st.procs[i];
      Slot(i);
      if IsSet(i, S.Receiving) && rec[i].getfrom == e {
        SetRetreg(i, ESRCDIED);
        Release(i, {S.Receiving});
        SetTwice(s, i, p.(retreg := ESRCDIED), NotReceiving(p, e));
      } else {
        assert s.procs[i := p] == s.procs;
      }
    }

    method ReleaseSender(i: nat, e: int)
      requires Wired() && i < NR_SLOTS && !cfg.free[i]
      requires Alert()
      modifies this`st, this`rec, rq`proc, rq`nextready, rq`rdyHead, rq`rdyTail, rq`rdy
      ensures Wired() && st == Spec.SetProc(old(st), i, NotSending(old(st).procs[i], e))
      ensures Alert()
    {
      ghost var s, p := st, st.procs[i];
      Slot(i);
      if IsSet(i, S.Sending) && rec[i].sendto == e {
        SetRetreg(i, EDSTDIED);
        Release(i, {S.Sending});
        SetTwice(s, i, p.(retreg := EDSTDIED), NotSending(p, e));
      } else {
        assert s.procs[i := p] == s.procs;
      }
    }

    method SetRetreg(i: nat, why: Status)
      requires Wired() && i < NR_SLOTS
      modifies this`st, this`rec
      ensures Wired() && st == Spec.SetProc(old(st), i, old(st).procs[i].(retreg := why))
    {
      Slot(i);
      Update(i, rec[i].(retreg := why), st.procs[i].(retreg := why));
    }

    // What clear_endpoint does before its loop.
    method Disconnect(rc: nat)
      requires Wired() && Sound(st) && rc < NR_SLOTS && !cfg.free[rc]
      requires Alert()
      modifies this`st, this`rec, this`callerQ, this`qLink, this`privs
      modifies rq`proc, rq`nextready, rq`rdyHead, rq`rdyTail, rq`rdy
      ensures Wired() && st == PartCleared(old(st), rc, 0)
      ensures Alert()
    {
      ghost var s := st;
      Slot(rc);
      var sends, target := IsSet(rc, S.Sending), SlotOf(rec[rc].sendto);
      Kill(rc);
      if sends {
        SendingIsQueued(s, rc);
        CutCaller(target, rc, s);
      } else {
        LinkedFrame(callerQ, qLink, s, s.(callq := s.callq));
      }
      ForgetSends(rc, s);
    }

    // The process has no endpoint any more and its async table is gone.
    method Kill(rc: nat)
      requires Wired() && rc < NR_SLOTS && !cfg.free[rc]
      modifies this`st, this`privs, rq`proc, rq`nextready, rq`rdyHead, rq`rdyTail, rq`rdy
      ensures Wired()
      ensures st.procs == old(st).procs[rc := old(st).procs[rc].(dead := true)]
      ensures st.privs == PartCleared(old(st), rc, 0).privs
    {
      PartClearedStart(st, rc);
      Hold(rc, {S.NoEndpoint});
      if cfg.sysProc[cfg.priv[rc]] {
        SetActive(cfg.priv[rc], false);
      }
    }

    // The links are cut; the flags follow.
    method ForgetSends(rc: nat, ghost s: State)
      requires rq.Valid() && Shape(st) && st.cfg == cfg && Agrees(rec, rq.proc, st) && PrivsAgree(privs, st)
      requires !cfg.free[rq.procPtr] && !cfg.free[S.IDLE]
      requires Shape(s) && rc < NR_SLOTS && !cfg.free[rc] && s.cfg == cfg
      requires st.procs == s.procs[rc := s.procs[rc].(dead := true)]
      requires st.privs == PartCleared(s, rc, 0).privs
      requires Linked(callerQ, qLink, s.(callq := PartCleared(s, rc, 0).callq))
      modifies this`st, rq`proc
      ensures Wired() && st == PartCleared(s, rc, 0)
    {
      ghost var cut := PartCleared(s, rc, 0);
      PartClearedStart(s, rc);
      st := State(cfg, st.procs, cut.callq, st.privs, cut.log, cut.asyncLog);
      LinkedFrame(callerQ, qLink, s.(callq := cut.callq), st);
      Bury(rc);
      assert st.procs == cut.procs;
    }

    method ClearEndpoint(rc: nat)
      requires Valid() && rc < NR_SLOTS && !cfg.free[rc] && rc !in {PM, VFS, VM}
      requires Alert()
      modifies this`st, this`rec, this`callerQ, this`qLink, this`privs
      modifies rq`proc, rq`nextready, rq`rdyHead, rq`rdyTail, rq`rdy
      ensures Steady() && Acyclic(Waits(st)) && st == Spec.ClearEndpoint(old(st), rc)
      ensures Valid() <==> IpcRuns.Proper(old(st), IpcRuns.Die(rc))
      ensures Alert()
    {
      ghost var s := st;
      DeathKeeps(s, rc);
      Disconnect(rc);
      TellAll(rc, s);
      PartClearedAll(s, rc);
    }

    // The loop over the process table.
    method TellAll(rc: nat, ghost s: State)
      requires Wired() && Shape(s) && rc < NR_SLOTS && st == PartCleared(s, rc, 0)
      requires Alert()
      modifies this`st, this`rec, this`privs, rq`proc, rq`nextready, rq`rdyHead, rq`rdyTail, rq`rdy
      ensures Wired() && st == PartCleared(s, rc, NR_SLOTS)
      ensures Alert()
    {
      var i := 0;
      while i < NR_SLOTS
        invariant 0 <= i <= NR_SLOTS && Wired() && Alert() && st == PartCleared(s, rc, i)
      {
        TellNext(rc, s, i);
        i := i + 1;
      }
    }

    method TellNext(rc: nat, ghost s: State, i: nat)
      requires Wired() && Shape(s) && rc < NR_SLOTS && i < NR_SLOTS && st == PartCleared(s, rc, i)
      requires Alert()
      modifies this`st, this`rec, this`privs, rq`proc, rq`nextready, rq`rdyHead, rq`rdyTail, rq`rdy
      ensures Wired() && st == PartCleared(s, rc, i + 1)
      ensures Alert()
    {
      PartClearedStep(s, rc, i);
      TellDeath(i, rc);
    }

    // ------------------------------------------------------- clock and scheduling

    method ClockTick()
      requires Valid()
      modifies rq`proc, rq`nextready, rq`rdyHead, rq`rdyTail, rq`rdy
      ensures Valid() && rq.Value() == S.Tick(old(rq.Value()))
    {
      TickMarksOnly(rq.Value());
      AgreesMarks(rec, rq.proc, S.Tick(rq.Value()).procs, st, rq.procPtr);
      rq.Tick();
    }

    method BalanceQueues() returns (period: int)
      requires Valid()
      modifies rq`proc, rq`nextready, rq`rdyHead, rq`rdyTail, rq`rdy, rq`orderly
      ensures Valid() && rq.Value() == S.Balance(old(rq.Value()), 0)
      ensures rq.orderly <==>
        old(rq.orderly) && (rq.proc[rq.procPtr].preemptible ==> SchedRuns.RebalanceOk(old(rq.Value())))
      ensures period >= 100 && (period == 100 || period == S.BalanceAdded(old(rq.Value()), 0))
      ensures period >= S.BalanceAdded(old(rq.Value()), 0)
    {
      BalanceMarksOnly(rq.Value(), 0);
      AgreesMarks(rec, rq.proc, S.Balance(rq.Value(), 0).procs, st, rq.procPtr);
      period := rq.BalanceQueues();
    }

    // Take another process, or the idle task when nobody is ready.
    method PickNew(draw: nat)
      requires Wired()
      modifies rq`proc, rq`nextready, rq`rdyHead, rq`rdyTail, rq`rdy, rq`procPtr, rq`billPtr, rq`orderly
      ensures Wired() && Awake(rq.proc) == Awake(old(rq.proc))
      ensures rq.schedType == S.RoundRobin ==> rq.orderly && SchedRuns.Strict(rq.Value())
      ensures rq.proc[rq.procPtr].rts != {} ==>
        rq.procPtr == S.IDLE && forall i :: 0 <= i < NR_SLOTS ==> rq.proc[i].rts != {}
    {
      ghost var t := rq.Value();
      PutBackMarksOnly(t);
      MarksAwake(t.procs, S.PutBack(t).procs, t.cur);
      AgreesMarks(rec, t.procs, S.PutBack(t).procs, st, t.cur);
      SchedInv.PutBackKeeps(t);
      SchedInv.InvInRange(S.PutBack(t));
      SchedPolicies.PoliciesAgree(S.PutBack(t), rq.schedType, draw);
      rq.PickNew(draw);
      ghost var c := rq.procPtr;
      assert AgreesAt(rec[c], rq.proc[c].rts, cfg.free[c], st.procs[c]);
    }

    // delivermsg when the copy faults: the process waits for VM, which is told if nobody
    // waited before.
    method Suspend()
      requires Wired() && rq.proc[rq.procPtr].rts == {}
      modifies this`st, this`rec, this`privs, this`vmRequest
      modifies rq`proc, rq`nextready, rq`rdyHead, rq`rdyTail, rq`rdy
      ensures Wired() && st == Told(old(st), old(vmRequest) == []) && vmRequest == [rq.procPtr] + old(vmRequest)
      ensures Awake(rq.proc) < Awake(old(rq.proc)) && rq.proc[rq.procPtr].rts != {}
    {
      Slot(rq.procPtr);
      AwaitVm();
      if vmRequest == [] {
        ghost var before := rq.proc;
        var _ := MiniNotify(SYSTEM, VM_PROC_NR);
        VmAwake(before, rq.proc);
      }
      vmRequest := [rq.procPtr] + vmRequest;
    }

    method AwaitVm()
      requires Wired() && rq.proc[rq.procPtr].rts == {}
      modifies rq`proc, rq`nextready, rq`rdyHead, rq`rdyTail, rq`rdy
      ensures Wired() && Awake(rq.proc) < Awake(old(rq.proc)) && S.VmRequest in rq.proc[rq.procPtr].rts
    {
      SetSame(st, rq.procPtr);
      SetAwake(rq.Value(), rq.procPtr);
      AgreesSet(rec, rq.Value(), st, rq.procPtr, {S.VmRequest});
      rq.Block(rq.procPtr, {S.VmRequest});
    }

    // delivermsg
    method Deliver(i: nat)
      requires Wired() && i < NR_SLOTS
      modifies this`st, this`rec
      ensures Wired() && st == Spec.CopyOut(old(st), i)
    {
      ghost var log := Spec.CopyOut(st, i).log;
      SetInbox(i);
      st := st.(log := log);
    }

    method SetInbox(i: nat)
      requires Wired() && i < NR_SLOTS
      modifies this`st, this`rec
      ensures Wired() && st == Spec.SetProc(old(st), i, old(st).procs[i].(inbox := None))
    {
      Slot(i);
      Update(i, rec[i].(inbox := None), st.procs[i].(inbox := None));
    }

    // The loop of schedcheck: suspend processes whose message cannot be copied out until
    // one is found that is ready to run, or nobody is ready.
    method FindReady(draw: nat -> nat, fault: nat -> bool) returns (idle: bool)
      requires Wired()
      modifies this`st, this`rec, this`privs, this`vmRequest
      modifies rq`proc, rq`nextready, rq`rdyHead, rq`rdyTail, rq`rdy, rq`procPtr, rq`billPtr, rq`orderly
      ensures Wired() && st == Told(old(st), old(vmRequest) == [] && vmRequest != [])
      ensures !idle ==> rq.proc[rq.procPtr].rts == {}
      ensures !idle && rq.schedType == S.RoundRobin && NewlyPicked() ==> SchedRuns.Strict(rq.Value())
      ensures old(rq.orderly) ==> rq.orderly
      ensures idle ==> rq.procPtr == S.IDLE && forall i :: 0 <= i < NR_SLOTS ==> rq.proc[i].rts != {}
    {
      var n := 0;
      ghost var s0, asked, cur, procs := st, vmRequest != [], rq.procPtr, rq.proc;
      while true
        invariant Seeking(n, s0, asked, cur, procs) && (old(rq.orderly) ==> rq.orderly)
        decreases Awake(rq.proc)
      {
        idle := Candidate(draw(n));
        if idle || rec[rq.procPtr].inbox.None? || !fault(n) {
          return;
        }
        SuspendNext(n, s0, asked, cur, procs);
        n := n + 1;
      }
    }

    // The current process if it can run, and otherwise another one; idle when there is none.
    method Candidate(draw: nat) returns (idle: bool)
      requires Wired()
      modifies rq`proc, rq`nextready, rq`rdyHead, rq`rdyTail, rq`rdy, rq`procPtr, rq`billPtr, rq`orderly
      ensures Wired() && Awake(rq.proc) == Awake(old(rq.proc)) && (old(rq.orderly) ==> rq.orderly)
      ensures old(rq.proc[rq.procPtr].rts) == {} ==> !idle && rq.procPtr == old(rq.procPtr) && rq.proc == old(rq.proc)
      ensures old(rq.proc[rq.procPtr].rts) != {} && rq.schedType == S.RoundRobin ==> SchedRuns.Strict(rq.Value())
      ensures !idle ==> rq.proc[rq.procPtr].rts == {}
      ensures idle ==> rq.procPtr == S.IDLE && forall i :: 0 <= i < NR_SLOTS ==> rq.proc[i].rts != {}
    {
      idle := false;
      if rq.proc[rq.procPtr].rts != {} {
        PickNew(draw);
        idle := rq.proc[rq.procPtr].rts != {};
      }
    }

    // Since state s, VM has been told once if somebody waits for it now and nobody did.
    ghost predicate VmTold(s: State, asked: bool)
      reads this
    {
      Shape(s) && st == Told(s, !asked && vmRequest != []) && (asked ==> vmRequest != [])
    }

    // Where the loop is after n processes were suspended.
    ghost predicate Seeking(n: nat, s: State, asked: bool, cur: int, procs: seq<S.Proc>)
      reads this, rq
    {
      && Wired() && VmTold(s, asked)
      && if n == 0 then rq.procPtr == cur && rq.proc == procs else rq.proc[rq.procPtr].rts != {}
    }

    method SuspendNext(ghost n: nat, ghost s: State, ghost asked: bool, ghost cur: int, ghost procs: seq<S.Proc>)
      requires Wired() && rq.proc[rq.procPtr].rts == {} && VmTold(s, asked)
      modifies this`st, this`rec, this`privs, this`vmRequest
      modifies rq`proc, rq`nextready, rq`rdyHead, rq`rdyTail, rq`rdy
      ensures Seeking(n + 1, s, asked, cur, procs) && Awake(rq.proc) < Awake(old(rq.proc))
    {
      Suspend();
    }

    // schedcheck has not just gone on with a process that could run.
    twostate predicate NewlyPicked()
      requires old(Wired())
      reads this, rq
    {
      rq.procPtr != old(rq.procPtr) || old(rq.proc[rq.procPtr].rts) != {}
    }

    // schedcheck: hand the processor to a process that is ready and has received its
    // message, so that it may trap again; idle when nobody is ready.  Under the default policy
    // nobody in a better queue is ready when a process is picked, and nor while it goes on if
    // it can be preempted.
    method SchedCheck(draw: nat -> nat, fault: nat -> bool) returns (idle: bool)
      requires Valid()
      modifies this`st, this`rec, this`privs, this`vmRequest
      modifies rq`proc, rq`nextready, rq`rdyHead, rq`rdyTail, rq`rdy, rq`procPtr, rq`billPtr, rq`orderly
      ensures Valid() && Alert()
      ensures var s := Told(old(st), old(vmRequest) == [] && vmRequest != []);
        st == if idle then s else Spec.CopyOut(s, rq.procPtr)
      ensures !idle ==> rq.proc[rq.procPtr].rts == {} && rq.procPtr != S.IDLE && Running(st, rq.procPtr)
      ensures !idle && (if NewlyPicked() then rq.schedType == S.RoundRobin else rq.orderly && rq.proc[rq.procPtr].preemptible) ==>
        forall q :: 0 <= q < rq.proc[rq.procPtr].prio ==> rq.rdy[q] == []
      ensures old(rq.orderly) ==> rq.orderly
      ensures idle ==> rq.procPtr == S.IDLE && forall i :: 0 <= i < NR_SLOTS ==> rq.proc[i].rts != {}
    {
      idle := Turn(draw, fault);
      TurnKeeps(old(st), old(vmRequest) == [] && vmRequest != [], rq.procPtr);
      if SchedRuns.Strict(rq.Value()) {
        SchedRuns.StrictEmpty(rq.Value());
      }
    }

    method Turn(draw: nat -> nat, fault: nat -> bool) returns (idle: bool)
      requires Wired()
      modifies this`st, this`rec, this`privs, this`vmRequest
      modifies rq`proc, rq`nextready, rq`rdyHead, rq`rdyTail, rq`rdy, rq`procPtr, rq`billPtr, rq`orderly
      ensures Wired()
      ensures var s := Told(old(st), old(vmRequest) == [] && vmRequest != []);
        st == if idle then s else Spec.CopyOut(s, rq.procPtr)
      ensures !idle ==> rq.proc[rq.procPtr].rts == {} && Running(st, rq.procPtr)
      ensures !idle && rq.schedType == S.RoundRobin && NewlyPicked() ==> SchedRuns.Strict(rq.Value())
      ensures old(rq.orderly) ==> rq.orderly
      ensures idle ==> rq.procPtr == S.IDLE && forall i :: 0 <= i < NR_SLOTS ==> rq.proc[i].rts != {}
    {
      idle := FindReady(draw, fault);
      if !idle {
        Start();
      }
    }

    // A ready process gets its message, if it has one, and can trap.
    method Start()
      requires Wired() && rq.proc[rq.procPtr].rts == {}
      modifies this`st, this`rec
      ensures Wired() && st == Spec.CopyOut(old(st), rq.procPtr) && Running(st, rq.procPtr)
    {
      Slot(rq.procPtr);
      Deliver(rq.procPtr);
    }
  }

  // The walk of deadlock() from d is at x after k waits and has not met c.
  ghost predicate Walked(g: Graph, d: int, c: int, k: nat, x: int)
    requires IsNode(g, d)
  {
    Follow(g, d, k) == x && forall j: nat :: 0 < j <= k ==> Follow(g, d, j) != c
  }

  // One more wait along the chain.
  lemma WalkOn(g: Graph, d: int, c: int, k: nat, x: int)
    requires IsNode(g, d) && IsNode(g, c) && IsNode(g, x) && Walked(g, d, c, k, x)
    ensures Follow(g, d, k + 1) == g[x]
    ensures g[x] != c ==> Walked(g, d, c, k + 1, g[x])
  {
    FollowCompose(g, d, k, 1);
    assert Follow(g, x, 1) == Follow(g, g[x], 0);
  }

  // A chain that has ended without meeting c never meets it.
  lemma NeverBack(s: State, trap: Trap, d: int, c: int, k: nat)
    requires Shape(s) && IsSlot(d) && IsSlot(c) && Walked(Waits(s), d, c, k, NOBODY)
    ensures !Deadlocked(s, trap, c, d)
  {
    var g := Waits(s);
    forall j: nat | 0 < j ensures Follow(g, d, j) != c {
      if k < j {
        FollowCompose(g, d, k, j - k);
      }
    }
  }

  // The chain meets c after k waits and not earlier.
  lemma FirstBack(s: State, trap: Trap, d: int, c: int, k: nat)
    requires Shape(s) && IsSlot(d) && IsSlot(c) && 0 < k && Follow(Waits(s), d, k) == c
    requires forall j: nat :: 0 < j < k ==> Follow(Waits(s), d, j) != c
    ensures Deadlocked(s, trap, c, d) <==> !(k == 1 && s.procs[d].sending != (trap == Send))
  {
    assert BackAt(Waits(s), d, c, k);
  }

  // The lowest bit of chunk h is a notification that a RECEIVE from srcE takes.
  ghost predicate ChunkHit(g: Config, bits: set<nat>, srcE: int, h: nat)
    requires ConfigOk(g) && h < 2
  {
    var i := Spec.Lowest(bits, h * CHUNK_BITS, (h + 1) * CHUNK_BITS);
    i < (h + 1) * CHUNK_BITS && (srcE == ANY || SlotOf(srcE) == g.owner[i])
  }

  lemma SenderIsOther(s: State, c: int, k: nat)
    requires Sound(s) && Running(s, c) && k < |s.callq[c]|
    ensures var x := s.callq[c][k];
      x < NR_SLOTS && x != c && !s.cfg.free[x] && s.procs[x].sending && (s.procs[x].sigDelay ==> x != PM)
  {
    var x := s.callq[c][k];
    assert QueueAt(s, c) && x in s.callq[c];
    assert SendsTo(s, x, c) && BlockingAt(s, x);
  }

  // What ScanTable says from entry i on, after the entries before it.
  function Resumed(r: Spec.ScanResult, done: bool, postponed: bool): (t: Spec.ScanResult) {
    Spec.ScanResult(if r.scan.Nothing? then Spec.Nothing(r.scan.allDone && done) else r.scan,
                    r.postponed || postponed)
  }

  lemma FreshBoot(cfg: Config, rec: seq<Record>, procs: seq<S.Proc>, privs: seq<Priv>)
    requires ConfigOk(cfg) && |rec| == |procs| == NR_SLOTS && |privs| == NR_SYS_PROCS
    requires forall j :: 0 <= j < NR_SYS_PROCS ==> FreshPriv(privs[j])
    requires !rec[PM].sigDelay
    ensures var s := FreshState(cfg, rec, procs, privs);
      && IpcRuns.Boot(s) && IpcRuns.Inv(s)
      && Linked(seq(NR_SLOTS, _ => NIL), seq(NR_SLOTS, _ => NIL), s)
  {
    IpcRuns.BootInv(FreshState(cfg, rec, procs, privs));
  }

  lemma SendaScanEnd(s: State, c: int, i: nat, done: bool)
    requires Shape(s) && IsSlot(c) && i == |s.privs[s.cfg.priv[c]].table|
    ensures Spec.SendaScan(s, c, i, done) == Spec.SendaResult(s, OK, done)
  {
  }

  lemma TryAsyncNext(s: State, d: int, j: nat, postponed: bool)
    requires Shape(s) && IsSlot(d) && j <= NR_SYS_PROCS
    ensures j == NR_SYS_PROCS ==> Spec.TryAsync(s, d, j, postponed) == Spec.TryEnd(s, d, postponed)
    ensures j < NR_SYS_PROCS ==>
      var r := Spec.TryNext(s, d, j);
      Spec.TryAsync(s, d, j, postponed) == if r.delivered then r else Spec.TryAsync(r.state, d, j + 1, postponed || r.postponed)
  {
  }

  lemma SameWaits(s: State, r: State)
    requires Shape(s) && Shape(r) && OnlyAsync(s, r)
    ensures Waits(r) == Waits(s)
  {
    forall i | 0 <= i < NR_SLOTS ensures WaitOf(r.procs[i], NR_SLOTS) == WaitOf(s.procs[i], NR_SLOTS) {
      assert r.procs[i] == s.procs[i].(asynMsg := r.procs[i].asynMsg);
    }
  }

  lemma TrapFacts(s: State, c: int, call: Call)
    requires Base(s) && Running(s, c)
    ensures var r := Spec.SysCall(s, c, call).state;
      && Base(r)
      && (IpcRuns.Inv(s) ==>
            IpcDeadlock.Returns(s, c, call) && (IpcRuns.Inv(r) <==> !IpcSendRec.BlocksOnSelf(s, c, call)))
  {
    if IpcRuns.Inv(s) {
      TrapKeepsInv(s, c, call);
      IpcSendRec.AcyclicReturns(s, c, call);
    } else {
      SysCallKeeps(s, c, call);
    }
  }

  lemma TrapKeepsInv(s: State, c: int, call: Call)
    requires IpcRuns.Inv(s) && Running(s, c)
    ensures Base(Spec.SysCall(s, c, call).state)
    ensures IpcRuns.Inv(Spec.SysCall(s, c, call).state) <==> !IpcSendRec.BlocksOnSelf(s, c, call)
  {
    SysCallKeeps(s, c, call);
    IpcRuns.StepKeepsInv(s, IpcRuns.Trap(c, call));
  }

  lemma DeathKeeps(s: State, rc: int)
    requires IpcRuns.Inv(s) && IsSlot(rc) && !s.cfg.free[rc] && rc !in {PM, VFS, VM}
    ensures var r := Spec.ClearEndpoint(s, rc);
      Base(r) && Acyclic(Waits(r)) && (IpcRuns.Inv(r) <==> IpcRuns.Proper(s, IpcRuns.Die(rc)))
  {
    IpcRuns.StepKeepsBase(s, IpcRuns.Die(rc));
    IpcRuns.StepAcyclic(s, IpcRuns.Die(rc));
    IpcRuns.StepKeepsInv(s, IpcRuns.Die(rc));
  }

  lemma SendingIsQueued(s: State, rc: nat)
    requires Sound(s) && rc < NR_SLOTS && s.procs[rc].sending
    ensures var d := SlotOf(s.procs[rc].sendto); IsSlot(d) && Live(s, d) && rc in s.callq[d]
  {
    assert BlockingAt(s, rc);
    var d := SlotOf(s.procs[rc].sendto);
    assert QueueAt(s, d) && SendsTo(s, rc, d);
  }

  // VM is notified that a process waits for it.
  ghost function Told(s: State, b: bool): (r: State)
    requires Shape(s)
    ensures Shape(r) && r.cfg == s.cfg
  {
    if b then Spec.MiniNotify(s, SYSTEM, VM_PROC_NR).state else s
  }

  lemma TurnKeeps(s: State, b: bool, p: int)
    requires IpcRuns.Inv(s) && IsSlot(p)
    ensures IpcRuns.Inv(Told(s, b)) && IpcRuns.Inv(Spec.CopyOut(Told(s, b), p))
  {
    if b {
      IpcRuns.StepKeepsInv(s, IpcRuns.Notify(SYSTEM, VM_PROC_NR));
    }
    var t := Told(s, b);
    if t.procs[p].inbox.Some? {
      IpcRuns.StepKeepsInv(t, IpcRuns.Deliver(p));
    } else {
      SetSame(t, p);
    }
  }
}
