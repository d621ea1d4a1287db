/**
 What the message calls answer, in terms of the processes, the structures and the log
 alone: when a SEND is accepted, whose message a RECEIVE takes, and what a notification
 carries.
 */
module IpcAnswers {
  import opened Options
  import opened Seqs
  import opened WaitGraph
  import opened IpcState
  import opened IpcSteps
  import opened IpcInv
  import opened IpcKeeps
  import opened IpcCalls
  import opened IpcDeadlock
  import opened IpcHistory

  // ---------------------------------------------------------------------- mini_send

  // p is blocked in nothing but a RECEIVE that a message of e completes.
  predicate Awaits(p: Proc, e: int) {
    p.receiving && !p.sending && p.getfrom in {ANY, e}
  }

  // The message goes straight to d, which is released.
  ghost predicate Given(s: State, r: State, c: int, d: int, body: int)
    requires Shape(s) && IsSlot(c) && IsSlot(d)
  {
    var p, m := s.procs[d], Msg(s.cfg.ep[c], Payload(Direct(|s.log|), body));
    && r.procs == s.procs[d := p.(receiving := false, inbox := Some(m))]
    && r.callq == s.callq && r.privs == s.privs
    && r.log == s.log + [Transfer(c, s.cfg.ep[c], d, body, AtReceiver)]
  }

  // c waits with its message, last of those who send to d.
  ghost predicate Waiting(s: State, r: State, c: int, d: int, body: int)
    requires Shape(s) && IsSlot(c) && IsSlot(d)
  {
    var p := s.procs[c];
    && r.procs == s.procs[c := p.(sending := true, sendto := s.cfg.ep[d], sendmsg := Payload(Direct(|s.log|), body))]
    && r.callq == s.callq[d := s.callq[d] + [c]] && r.privs == s.privs
    && r.log == s.log + [Transfer(c, s.cfg.ep[c], d, body, AtSender)]
  }

  // The answer to a SEND of c to dstE: the destination is dead, is not ready for a call that
  // must not block, is one whose chain of waits leads back to c, or the buffer cannot be
  // read; otherwise the message is accepted.
  ghost predicate SendAnswer(s: State, c: int, dstE: int, buf: Buf, nonblocking: bool, status: Status)
    requires Shape(s) && IsSlot(c) && IsSlot(SlotOf(dstE))
  {
    var d := SlotOf(dstE);
    var dead, ready := s.procs[d].dead, Awaits(s.procs[d], s.cfg.ep[c]);
    var back := ComesBack(Waits(s), d, c);
    && status in {EFAULT, EDSTDIED, ENOTREADY, ELOCKED, OK}
    && (status == EDSTDIED <==> buf.mapped && dead)
    && (status == ENOTREADY <==> buf.mapped && !dead && !ready && nonblocking)
    && (status == ELOCKED <==> buf.mapped && !dead && !ready && !nonblocking && back)
    && (status == OK <==> buf.mapped && buf.readable && !dead && (ready || (!nonblocking && !back)))
  }

  /** Every answer of mini_send, and where the message is: with the destination if that waits
      for it, with the blocked caller if not, and nothing has changed on any error. */
  lemma SendAnswers(s: State, c: int, dstE: int, buf: Buf, nonblocking: bool)
    requires Core(s) && Running(s, c) && OkEndpoint(s.cfg, dstE)
    ensures var r, d := MiniSend(s, c, dstE, buf, nonblocking), SlotOf(dstE);
      && SendAnswer(s, c, dstE, buf, nonblocking, r.status)
      && (if r.status != OK then r.state == s
          else if Awaits(s.procs[d], s.cfg.ep[c]) then Given(s, r.state, c, d, buf.body)
          else Waiting(s, r.state, c, d, buf.body))
  {
    var d := SlotOf(dstE);
    if !WillReceive(s.procs[d], s.cfg.ep[c]) {
      DeadlockExactForSend(s, c, dstE);
    }
    assert Awaits(s.procs[d], s.cfg.ep[c]) <==> WillReceive(s.procs[d], s.cfg.ep[c]);
  }

  // --------------------------------------------------------------------- mini_notify

  // What a notification from src carries out of the structure v, and what v becomes but for
  // its pending bits.
  predicate Carries(v: Priv, w: Priv, src: int, arg: set<int>) {
    && (src == SYSTEM ==> arg == v.sigPending && w == v.(sigPending := {}, notify := w.notify))
    && (src == HARDWARE ==> arg == v.intPending && w == v.(intPending := {}, notify := w.notify))
    && (src != SYSTEM && src != HARDWARE ==> arg == {} && w == v.(notify := w.notify))
  }

  // A notification from src is what slot d holds.
  ghost predicate NoticeAt(s: State, r: State, src: int, d: int)
    requires Shape(s) && Shape(r) && IsSlot(src) && IsSlot(d)
  {
    var m, v := r.procs[d].inbox, s.cfg.priv[d];
    && m.Some? && m.value.source == s.cfg.ep[src] && m.value.payload.kind.Notification?
    && Carries(s.privs[v], r.privs[v], src, m.value.payload.kind.arg)
  }

  /** mini_notify: a destination that waits for the source, and not for a reply, gets the
      notification at once, with the pending signals if it is from SYSTEM, the pending
      interrupts if it is from HARDWARE and nothing else otherwise; for any other the bit of
      the source is set. */
  lemma NotifyAnswers(s: State, src: int, dstE: int)
    requires Shape(s) && IsSlot(src)
    ensures var r, d := MiniNotify(s, src, dstE), SlotOf(dstE);
      if !OkEndpoint(s.cfg, dstE) then r == Outcome(s, EDEADSRCDST)
      else
        var v := s.cfg.priv[d];
        && r.status == OK && r.state.callq == s.callq && r.state.log == s.log
        && if Awaits(s.procs[d], s.cfg.ep[src]) && !s.procs[d].replyPend
           then
             && NoticeAt(s, r.state, src, d) && r.state.privs == s.privs[v := r.state.privs[v]]
             && r.state.privs[v].notify == s.privs[v].notify
             && r.state.procs == s.procs[d := s.procs[d].(receiving := false, inbox := r.state.procs[d].inbox)]
           else
             && r.state.procs == s.procs
             && r.state.privs == s.privs[v := s.privs[v].(notify := s.privs[v].notify + {s.cfg.priv[src]})]
  {
  }

  // -------------------------------------------------------------------- mini_receive

  // Bit id is pending for c, and the lowest of its chunk of sixteen.
  ghost predicate PendingBit(s: State, c: int, id: int)
    requires Shape(s) && IsSlot(c)
  {
    var bits := s.privs[s.cfg.priv[c]].notify;
    && 0 <= id < NR_SYS_PROCS && id in bits
    && forall b: nat {:trigger b in bits} :: id / 16 * 16 <= b < id ==> b !in bits
  }

  // ... and what a RECEIVE from srcE takes.
  ghost predicate TakenBit(s: State, c: int, srcE: int, id: int)
    requires Shape(s) && IsSlot(c)
  {
    !s.procs[c].replyPend && PendingBit(s, c, id) && (srcE == ANY || s.cfg.owner[id] == SlotOf(srcE))
  }

  // x is blocked sending to c, and c receives from it.
  ghost predicate Sender(s: State, c: int, srcE: int, x: int)
    requires Shape(s) && IsSlot(c)
  {
    IsSlot(x) && s.procs[x].sending && s.procs[x].sendto == s.cfg.ep[c] && srcE in {ANY, s.cfg.ep[x]}
  }

  // Entry k of a table is due for dst: undone, not held back while dst awaits a reply, and
  // with no malformed entry before it.
  ghost predicate Due(t: seq<Entry>, k: int, dst: int, replyPend: bool) {
    && 0 <= k < |t| && t[k].valid && !t[k].done && !t[k].reserved && t[k].dst == dst
    && !(t[k].noreply && replyPend)
    && forall j :: 0 <= j < k ==> !t[j].Malformed()
  }

  ghost predicate FirstDue(t: seq<Entry>, k: int, dst: int, replyPend: bool) {
    Due(t, k, dst, replyPend) && forall j {:trigger Due(t, j, dst, replyPend)} :: Due(t, j, dst, replyPend) ==> k <= j
  }

  // The table of structure v may be searched for c.
  ghost predicate Open(s: State, c: int, v: int)
    requires Shape(s) && IsSlot(c)
  {
    0 <= v < NR_SYS_PROCS && v != USER_PRIV && s.privs[v].active && s.cfg.priv[c] in s.cfg.ipcTo[v]
  }

  // Entry k of the table of src is the one c gets from it.
  ghost predicate Entered(s: State, c: int, src: int, k: int)
    requires Shape(s) && IsSlot(c) && IsSlot(src)
  {
    Open(s, c, s.cfg.priv[src])
    && FirstDue(s.privs[s.cfg.priv[src]].table, k, s.cfg.ep[c], s.procs[c].replyPend)
  }

  // src owns its structure, as try_async wants it.
  ghost predicate Owner(g: Config, src: int)
    requires ConfigOk(g)
  {
    IsSlot(src) && g.owner[g.priv[src]] == src
  }

  // ... and so c receives from it.
  ghost predicate Tabled(s: State, c: int, srcE: int, src: int, k: int)
    requires Shape(s) && IsSlot(c)
  {
    && IsSlot(src) && s.procs[c].asynMsg && Entered(s, c, src, k)
    && if srcE == ANY then Owner(s.cfg, src) else src == SlotOf(srcE)
  }

  // The bit a RECEIVE takes, if it takes one.
  lemma BitPicked(s: State, c: int, srcE: int)
    requires Shape(s) && Refs(s) && IsSlot(c) && (srcE == ANY || IsSlot(SlotOf(srcE)))
    ensures var id := if s.procs[c].replyPend then NOBODY else NotifyPick(s, c, srcE);
      && (id != NOBODY ==> TakenBit(s, c, srcE, id))
      && (forall b {:trigger TakenBit(s, c, srcE, b)} :: TakenBit(s, c, srcE, b) ==> id != NOBODY && id <= b)
  {
    var bits := s.privs[s.cfg.priv[c]].notify;
    var x, y := Lowest(bits, 0, CHUNK_BITS), Lowest(bits, CHUNK_BITS, NR_SYS_PROCS);
    forall b | TakenBit(s, c, srcE, b) ensures b == x || b == y {
      if b < CHUNK_BITS {
        assert x in bits;
      } else {
        assert y in bits;
      }
    }
  }

  // The scan of try_one finds the first entry that is due.
  lemma {:induction false} ScanFindsFirst(t: seq<Entry>, i: nat, dst: int, replyPend: bool)
    requires i <= |t|
    requires forall j :: 0 <= j < i ==> !t[j].Malformed() && !Due(t, j, dst, replyPend)
    ensures var r := ScanTable(t, i, dst, replyPend).scan;
      if r.Found? then FirstDue(t, r.index, dst, replyPend)
      else forall k {:trigger Due(t, k, dst, replyPend)} :: !Due(t, k, dst, replyPend)
    decreases |t| - i
  {
    if i < |t| && !t[i].Malformed() && !Due(t, i, dst, replyPend) {
      ScanFindsFirst(t, i + 1, dst, replyPend);
    }
  }

  // ------------------------------------------------------- what is taken, case by case

  // c has the notification behind bit id, which is cleared.
  ghost predicate TookNotice(s: State, r: State, c: int, id: int)
    requires Shape(s) && Shape(r) && IsSlot(c) && 0 <= id < NR_SYS_PROCS
  {
    var v, src := s.cfg.priv[c], s.cfg.owner[id];
    && IsSlot(src) && NoticeAt(s, r, src, c) && r.privs == s.privs[v := r.privs[v]]
    && r.privs[v].notify == s.privs[v].notify - {id}
    && r.procs == s.procs[c := s.procs[c].(inbox := r.procs[c].inbox)]
    && r.callq == s.callq && r.log == s.log
  }

  // c has the message of x, which is released; a delayed stop of x is reported.
  ghost predicate TookSender(s: State, r: State, c: int, x: int)
    requires Shape(s) && Shape(r) && IsSlot(c) && IsSlot(x) && 0 <= Tag(s.procs[x]) < |s.log|
  {
    var t := Tag(s.procs[x]);
    && r.procs[c] == s.procs[c].(inbox := Some(Msg(s.cfg.ep[x], Payload(Direct(t), s.procs[x].sendmsg.body))))
    && r.log == s.log[t := s.log[t].(place := AtReceiver)]
    && !r.procs[x].sending && !r.procs[x].sigDelay && (s.procs[x].sigDelay ==> SIGNDELAY in r.procs[x].pending)
    && x !in r.callq[c] && (forall y :: y in s.callq[c] && y != x ==> y in r.callq[c])
    && r.callq == s.callq[c := r.callq[c]]
  }

  // c has entry k of the table of src, which is marked as delivered.
  ghost predicate TookEntry(s: State, r: State, c: int, src: int, k: int)
    requires Shape(s) && Shape(r) && IsSlot(c) && IsSlot(src) && 0 <= k < |s.privs[s.cfg.priv[src]].table|
  {
    var v := s.cfg.priv[src];
    var t := s.privs[v].table;
    && r.procs == s.procs[c := s.procs[c].(inbox := Some(Msg(s.cfg.ep[src], Payload(Async(t[k].noreply), t[k].body))))]
    && r.privs[v] == s.privs[v].(table := t[k := t[k].(done := true, result := OK)])
    && (forall w :: 0 <= w < NR_SYS_PROCS && w != v ==> r.privs[w] == s.privs[w].(active := r.privs[w].active))
    && r.callq == s.callq && r.log == s.log
  }

  // ------------------------------------------------------------------------ tables

  lemma OneTable(s: State, src: int, c: int)
    requires Shape(s) && IsSlot(src) && IsSlot(c)
    ensures var r := TryOne(s, src, c);
      && (r.delivered ==> exists k :: Entered(s, c, src, k) && TookEntry(s, r.state, c, src, k))
      && (!r.delivered ==> forall k {:trigger Entered(s, c, src, k)} :: !Entered(s, c, src, k))
  {
    var v := s.cfg.priv[src];
    if Open(s, c, v) {
      var t := s.privs[v].table;
      ScanFindsFirst(t, 0, s.cfg.ep[c], s.procs[c].replyPend);
      var scan := ScanTable(t, 0, s.cfg.ep[c], s.procs[c].replyPend).scan;
      if scan.Found? {
        assert Entered(s, c, src, scan.index) && TookEntry(s, TryOne(s, src, c).state, c, src, scan.index);
      }
    }
  }

  // Entry k is for dst and undone, and no malformed entry comes before it.
  ghost predicate Meant(t: seq<Entry>, k: int, dst: int) {
    && 0 <= k < |t| && t[k].valid && !t[k].done && !t[k].reserved && t[k].dst == dst
    && forall j :: 0 <= j < k ==> !t[j].Malformed()
  }

  lemma {:induction false} ScanLeaves(t: seq<Entry>, i: nat, dst: int, replyPend: bool)
    requires i <= |t| && forall j :: 0 <= j < i ==> !t[j].Malformed()
    ensures var r := ScanTable(t, i, dst, replyPend);
      !r.scan.Found? ==>
        && (r.scan == Nothing(true) <==> forall j :: i <= j < |t| ==> t[j].Empty() || (!t[j].Malformed() && t[j].done))
        && (r.scan.BadBits? <==> exists j :: i <= j < |t| && t[j].Malformed())
        && (r.postponed <==> exists k :: i <= k && Meant(t, k, dst))
    decreases |t| - i
  {
    if i < |t| && !t[i].Malformed() {
      ScanLeaves(t, i + 1, dst, replyPend);
      assert t[i].Undone() && t[i].dst == dst ==> Meant(t, i, dst);
    }
  }

  /** A table in which nothing is found is retired if and only if all of it is empty or done,
      or an entry is malformed; and its receiver stays flagged for it if and only if an entry
      is meant for it. */
  lemma TableLeft(s: State, src: int, c: int)
    requires Shape(s) && IsSlot(src) && IsSlot(c) && Open(s, c, s.cfg.priv[src]) && !TryOne(s, src, c).delivered
    ensures var r, v, t := TryOne(s, src, c), s.cfg.priv[src], s.privs[s.cfg.priv[src]].table;
      && r.state.procs == s.procs && r.state.privs == s.privs[v := s.privs[v].(active := r.state.privs[v].active)]
      && (r.state.privs[v].active <==>
            (forall j :: 0 <= j < |t| ==> !t[j].Malformed()) && exists j :: 0 <= j < |t| && !t[j].Empty() && !t[j].done)
      && (r.postponed <==> exists k :: Meant(t, k, s.cfg.ep[c]))
  {
    ScanLeaves(s.privs[s.cfg.priv[src]].table, 0, s.cfg.ep[c], s.procs[c].replyPend);
  }

  // The loop of try_async has come to structure j and found nothing.
  ghost predicate Passed(s: State, t: State, c: int, j: nat)
    requires Shape(s) && IsSlot(c) && j <= NR_SYS_PROCS
  {
    && Shape(t) && t == s.(privs := t.privs)
    && (forall v :: j <= v < NR_SYS_PROCS ==> t.privs[v] == s.privs[v])
    && (forall v :: 0 <= v < j ==> t.privs[v] == s.privs[v].(active := t.privs[v].active))
    && (forall src, k {:trigger Entered(s, c, src, k)} ::
          Owner(s.cfg, src) && s.cfg.priv[src] < j ==> !Entered(s, c, src, k))
  }

  // It has ended: the first structure with an entry for c gave it, if there is one.
  ghost predicate Ended(s: State, r: TryResult, c: int)
    requires Shape(s) && IsSlot(c)
  {
    && Shape(r.state)
    && (r.delivered ==> exists src, k :: FromFirst(s, r.state, c, src, k))
    && (!r.delivered ==> forall src, k {:trigger Entered(s, c, src, k)} :: Owner(s.cfg, src) ==> !Entered(s, c, src, k))
  }

  ghost predicate FromFirst(s: State, r: State, c: int, src: int, k: int)
    requires Shape(s) && Shape(r) && IsSlot(c)
  {
    && Owner(s.cfg, src) && Entered(s, c, src, k) && TookEntry(s, r, c, src, k)
    && forall y, n {:trigger Entered(s, c, y, n)} ::
         Owner(s.cfg, y) && Entered(s, c, y, n) ==> s.cfg.priv[src] <= s.cfg.priv[y]
  }

  lemma TableStep(s: State, t: State, c: int, j: nat)
    requires Shape(s) && IsSlot(c) && j < NR_SYS_PROCS && Passed(s, t, c, j)
    ensures var r := TryNext(t, c, j); if r.delivered then Ended(s, r, c) else Passed(s, r.state, c, j + 1)
  {
    var r := TryNext(t, c, j);
    if s.cfg.owner[j] != NOBODY {
      var src := s.cfg.owner[j];
      OneTable(t, src, c);
      assert forall k :: Entered(t, c, src, k) <==> Entered(s, c, src, k);
      if r.delivered {
        var k :| Entered(t, c, src, k) && TookEntry(t, r.state, c, src, k);
        assert FromFirst(s, r.state, c, src, k);
      }
    }
  }

  lemma AllTables(s: State, c: int)
    requires Shape(s) && IsSlot(c)
    ensures Ended(s, TryAsync(s, c, 0, false), c)
  {
    var keep := (t: State, j: nat, b: bool) => j <= NR_SYS_PROCS && Passed(s, t, c, j);
    var done := (r: TryResult) => Ended(s, r, c);
    forall t, j: nat, b | Shape(t) && j <= NR_SYS_PROCS && keep(t, j, b) ensures KeptByTry(c, j, t, b, keep, done) {
      if j < NR_SYS_PROCS {
        TableStep(s, t, c, j);
      }
    }
    TryAsyncInduction(s, c, 0, false, keep, done);
  }

  // src has an entry for c in its table.
  ghost predicate PromisedBy(s: State, c: int, src: int, k: int)
    requires Shape(s) && IsSlot(c)
  {
    Owner(s.cfg, src) && Open(s, c, s.cfg.priv[src]) && Meant(s.privs[s.cfg.priv[src]].table, k, s.cfg.ep[c])
  }

  // ... among the first j structures.
  ghost predicate Promised(s: State, c: int, j: nat)
    requires Shape(s) && IsSlot(c)
  {
    exists src, k :: PromisedBy(s, c, src, k) && s.cfg.priv[src] < j
  }

  lemma PromisedStep(s: State, t: State, c: int, j: nat, n: nat)
    requires Shape(s) && IsSlot(c) && j < NR_SYS_PROCS && n == j + 1 && Passed(s, t, c, j) && !TryNext(t, c, j).delivered
    ensures Promised(s, c, n) <==> Promised(s, c, j) || TryNext(t, c, j).postponed
  {
    var src := s.cfg.owner[j];
    if src != NOBODY {
      assert forall y :: Owner(s.cfg, y) && s.cfg.priv[y] == j ==> y == src;
      assert Open(t, c, j) <==> Open(s, c, j);
      if Open(s, c, j) {
        TableLeft(t, src, c);
        assert forall k :: Meant(s.privs[j].table, k, s.cfg.ep[c]) <==> PromisedBy(s, c, src, k);
      }
    } else {
      assert forall y :: Owner(s.cfg, y) ==> s.cfg.priv[y] != j;
    }
  }

  // After the loop only the flag of c may have changed.
  ghost predicate FlagRight(s: State, r: TryResult, c: int)
    requires Shape(s) && IsSlot(c)
  {
    !r.delivered ==>
      && Shape(r.state)
      && r.state.procs == s.procs[c := s.procs[c].(asynMsg := s.procs[c].asynMsg && Promised(s, c, NR_SYS_PROCS))]
  }

  // The loop of try_async has come to structure j, found nothing, and noted what is held back.
  ghost predicate Noted(s: State, t: State, c: int, j: nat, b: bool)
    requires Shape(s) && IsSlot(c)
  {
    j <= NR_SYS_PROCS && Passed(s, t, c, j) && (b <==> Promised(s, c, j))
  }

  lemma NotedStep(s: State, t: State, c: int, j: nat, b: bool)
    requires Shape(s) && IsSlot(c) && Noted(s, t, c, j, b)
    ensures j == NR_SYS_PROCS ==> FlagRight(s, TryEnd(t, c, b), c)
    ensures j < NR_SYS_PROCS ==>
      var r := TryNext(t, c, j); if r.delivered then FlagRight(s, r, c) else Noted(s, r.state, c, j + 1, b || r.postponed)
  {
    if j < NR_SYS_PROCS {
      TableStep(s, t, c, j);
      if !TryNext(t, c, j).delivered {
        PromisedStep(s, t, c, j, j + 1);
      }
    }
  }

  /** A search of all tables that finds nothing leaves the receiver flagged if and only if one
      of them holds an entry for it, which is then held back. */
  lemma FlagLeft(s: State, c: int)
    requires Shape(s) && IsSlot(c)
    ensures FlagRight(s, TryAsync(s, c, 0, false), c)
  {
    var keep := (t: State, j: nat, b: bool) => Noted(s, t, c, j, b);
    var done := (r: TryResult) => FlagRight(s, r, c);
    assert !Promised(s, c, 0);
    assert keep(s, 0, false);
    forall t, j: nat, b | Shape(t) && j <= NR_SYS_PROCS && keep(t, j, b) ensures KeptByTry(c, j, t, b, keep, done) {
      NotedStep(s, t, c, j, b);
    }
    TryAsyncInduction(s, c, 0, false, keep, done);
  }

  // -------------------------------------------------------------------- the queue

  // Among those that wait to send to c, x was accepted first.
  ghost predicate FirstSender(s: State, c: int, srcE: int, x: int)
    requires Shape(s) && IsSlot(c)
  {
    Sender(s, c, srcE, x)
    && forall y {:trigger Sender(s, c, srcE, y)} :: Sender(s, c, srcE, y) ==> Tag(s.procs[x]) <= Tag(s.procs[y])
  }

  // The queue of c holds who sends to c.
  lemma Queued(s: State, c: int, x: int)
    requires Core(s) && IsSlot(c) && Live(s, c) && IsSlot(x)
    ensures x in s.callq[c] <==> Sender(s, c, ANY, x)
  {
    assert QueueAt(s, c) && BlockingAt(s, x);
    assert x in s.callq[c] <==> SendsTo(s, x, c);
  }

  lemma SenderPicked(s: State, c: int, srcE: int)
    requires Base(s) && Running(s, c) && (srcE == ANY || OkEndpoint(s.cfg, srcE))
    ensures var k := QueuePick(s, c, srcE);
      && (k < |s.callq[c]| ==> FirstSender(s, c, srcE, s.callq[c][k]))
      && (k == |s.callq[c]| ==> forall x {:trigger Sender(s, c, srcE, x)} :: !Sender(s, c, srcE, x))
  {
    var k, q := QueuePick(s, c, srcE), s.callq[c];
    assert ArrivalAt(s, c);
    forall y | Sender(s, c, srcE, y) ensures y in q && k < |q| && Tag(s.procs[q[k]]) <= Tag(s.procs[y]) {
      Queued(s, c, y);
      var j := MemberAt(q, y);
    }
    if k < |q| {
      CallerFacts(s, c, k);
      Queued(s, c, q[k]);
    }
  }

  lemma SenderTaken(s: State, c: int, k: nat)
    requires Base(s) && Running(s, c) && k < |s.callq[c]|
    ensures var x := s.callq[c][k];
      && IsSlot(x) && 0 <= Tag(s.procs[x]) < |s.log|
      && var s1 := TakeQueued(s, c, k);
      && TookSender(s, if s.procs[x].sigDelay then SigDelayDone(s1, x) else s1, c, x)
  {
    CallerFacts(s, c, k);
    TakeQueuedKeeps(s, c, k);
    assert QueueAt(s, c);
    RemoveAtKeeps(s.callq[c], k);
    var x, s1 := s.callq[c][k], TakeQueued(s, c, k);
    DelayReported(s1, x, c);
  }

  lemma DelayReported(s: State, x: int, c: int)
    requires Base(s) && IsSlot(x) && IsSlot(c) && x != c && !s.procs[c].receiving && !s.procs[x].sending
    ensures var r := SigDelayDone(s, x);
      && r.procs[c] == s.procs[c] && r.callq == s.callq && r.log == s.log
      && !r.procs[x].sending && !r.procs[x].sigDelay && SIGNDELAY in r.procs[x].pending
  {
  }

  // ------------------------------------------------------------------ the whole call

  ghost predicate FirstBit(s: State, c: int, srcE: int, id: int)
    requires Shape(s) && IsSlot(c)
  {
    TakenBit(s, c, srcE, id)
    && forall b {:trigger TakenBit(s, c, srcE, b)} :: TakenBit(s, c, srcE, b) ==> id <= b
  }

  ghost predicate FirstTabled(s: State, c: int, srcE: int, src: int, k: int)
    requires Shape(s) && IsSlot(c)
  {
    Tabled(s, c, srcE, src, k)
    && forall y, n {:trigger Tabled(s, c, srcE, y, n)} :: Tabled(s, c, srcE, y, n) ==> s.cfg.priv[src] <= s.cfg.priv[y]
  }

  ghost predicate HasBit(s: State, c: int, srcE: int)
    requires Shape(s) && IsSlot(c)
  {
    exists id :: TakenBit(s, c, srcE, id)
  }

  ghost predicate HasSender(s: State, c: int, srcE: int)
    requires Shape(s) && IsSlot(c)
  {
    exists x :: Sender(s, c, srcE, x)
  }

  ghost predicate HasEntry(s: State, c: int, srcE: int)
    requires Shape(s) && IsSlot(c)
  {
    exists src, k :: Tabled(s, c, srcE, src, k)
  }

  // There is a message for a RECEIVE of c from srcE.
  ghost predicate HasMessage(s: State, c: int, srcE: int)
    requires Shape(s) && IsSlot(c)
  {
    HasBit(s, c, srcE) || HasSender(s, c, srcE) || HasEntry(s, c, srcE)
  }

  // What a RECEIVE takes: a notification if there is one, else the oldest message of a
  // blocked sender, else an entry of a table.
  ghost predicate Taken(s: State, r: State, c: int, srcE: int)
    requires Shape(s) && Shape(r) && Delivery(s) && IsSlot(c)
  {
    if HasBit(s, c, srcE) then exists id :: FirstBit(s, c, srcE, id) && TookNotice(s, r, c, id)
    else if HasSender(s, c, srcE) then
      exists x :: FirstSender(s, c, srcE, x) && SenderHolds(s, x) && TookSender(s, r, c, x)
    else exists src, k :: FirstTabled(s, c, srcE, src, k) && TookEntry(s, r, c, src, k)
  }

  lemma ReceiveTakes(s: State, c: int, srcE: int)
    requires Base(s) && Running(s, c) && (srcE == ANY || OkEndpoint(s.cfg, srcE))
    ensures var t := ReceiveNow(s, c, srcE);
      && (t.delivered <==> HasMessage(s, c, srcE))
      && (t.delivered ==> Taken(s, t.state, c, srcE))
  {
    BitPicked(s, c, srcE);
    SenderPicked(s, c, srcE);
    var id := if s.procs[c].replyPend then NOBODY else NotifyPick(s, c, srcE);
    if id != NOBODY {
      TakesNotice(s, c, srcE);
    } else if QueuePick(s, c, srcE) < |s.callq[c]| {
      TakesSender(s, c, srcE);
    } else {
      TakesEntry(s, c, srcE);
    }
  }

  lemma TakesNotice(s: State, c: int, srcE: int)
    requires Base(s) && Running(s, c) && (srcE == ANY || OkEndpoint(s.cfg, srcE))
    requires !s.procs[c].replyPend && NotifyPick(s, c, srcE) != NOBODY
    ensures ReceiveNow(s, c, srcE).delivered && HasBit(s, c, srcE) && Taken(s, ReceiveNow(s, c, srcE).state, c, srcE)
  {
    var id := NotifyPick(s, c, srcE);
    BitPicked(s, c, srcE);
    PickedOwner(s, c, srcE);
    NoticeTaken(s, c, srcE, id);
    assert FirstBit(s, c, srcE, id);
  }

  lemma TakesSender(s: State, c: int, srcE: int)
    requires Base(s) && Running(s, c) && (srcE == ANY || OkEndpoint(s.cfg, srcE))
    requires (s.procs[c].replyPend || NotifyPick(s, c, srcE) == NOBODY) && QueuePick(s, c, srcE) < |s.callq[c]|
    ensures ReceiveNow(s, c, srcE).delivered && HasSender(s, c, srcE)
    ensures Taken(s, ReceiveNow(s, c, srcE).state, c, srcE)
  {
    var k := QueuePick(s, c, srcE);
    BitPicked(s, c, srcE);
    SenderPicked(s, c, srcE);
    SenderTaken(s, c, k);
    assert SenderHolds(s, s.callq[c][k]);
  }

  // What is left to search when there is neither a bit nor a sender.
  ghost function Tables(s: State, c: int, srcE: int): (r: TryResult)
    requires Shape(s) && IsSlot(c) && (srcE == ANY || IsSlot(SlotOf(srcE)))
    ensures Shape(r.state)
  {
    if !s.procs[c].asynMsg then TryResult(s, false, false)
    else if srcE != ANY then TryOne(s, SlotOf(srcE), c)
    else TryAsync(s, c, 0, false)
  }

  lemma TakesEntry(s: State, c: int, srcE: int)
    requires Base(s) && Running(s, c) && (srcE == ANY || OkEndpoint(s.cfg, srcE))
    requires (s.procs[c].replyPend || NotifyPick(s, c, srcE) == NOBODY) && QueuePick(s, c, srcE) == |s.callq[c]|
    ensures ReceiveNow(s, c, srcE).delivered <==> HasMessage(s, c, srcE)
    ensures ReceiveNow(s, c, srcE).delivered ==> Taken(s, ReceiveNow(s, c, srcE).state, c, srcE)
  {
    assert !HasBit(s, c, srcE) by { BitPicked(s, c, srcE); }
    assert !HasSender(s, c, srcE) by { SenderPicked(s, c, srcE); }
    assert ReceiveNow(s, c, srcE) == Tables(s, c, srcE);
    TablesTaken(s, c, srcE);
  }

  lemma TablesTaken(s: State, c: int, srcE: int)
    requires Base(s) && IsSlot(c) && (srcE == ANY || OkEndpoint(s.cfg, srcE))
    requires !HasBit(s, c, srcE) && !HasSender(s, c, srcE)
    ensures Tables(s, c, srcE).delivered <==> HasMessage(s, c, srcE)
    ensures Tables(s, c, srcE).delivered ==> Taken(s, Tables(s, c, srcE).state, c, srcE)
  {
    if s.procs[c].asynMsg {
      EntryTaken(s, c, srcE);
    }
  }

  lemma NoticeTaken(s: State, c: int, srcE: int, id: int)
    requires Shape(s) && IsSlot(c) && 0 <= id < NR_SYS_PROCS && s.cfg.owner[id] != NOBODY
    ensures TookNotice(s, TakeNotify(s, c, id), c, id)
  {
  }

  lemma EntryTaken(s: State, c: int, srcE: int)
    requires Shape(s) && IsSlot(c) && s.procs[c].asynMsg && (srcE == ANY || IsSlot(SlotOf(srcE)))
    ensures var t := if srcE != ANY then TryOne(s, SlotOf(srcE), c) else TryAsync(s, c, 0, false);
      && (t.delivered <==> HasEntry(s, c, srcE))
      && (t.delivered ==> exists src, k :: FirstTabled(s, c, srcE, src, k) && TookEntry(s, t.state, c, src, k))
  {
    if srcE != ANY {
      var src, t := SlotOf(srcE), TryOne(s, SlotOf(srcE), c);
      OneTable(s, src, c);
      assert forall k :: Entered(s, c, src, k) <==> Tabled(s, c, srcE, src, k);
      if t.delivered {
        var k :| Entered(s, c, src, k) && TookEntry(s, t.state, c, src, k);
        assert FirstTabled(s, c, srcE, src, k);
      }
    } else {
      var t := TryAsync(s, c, 0, false);
      AllTables(s, c);
      assert forall y, k :: Owner(s.cfg, y) && Entered(s, c, y, k) <==> Tabled(s, c, srcE, y, k);
      if t.delivered {
        var src, k :| FromFirst(s, t.state, c, src, k);
        assert FirstTabled(s, c, srcE, src, k);
      }
    }
  }

  // A search that changed nothing but the bookkeeping of tables left the waits as they were.
  lemma SameWaits(s: State, t: State)
    requires Shape(s) && Shape(t) && OnlyAsync(s, t)
    ensures Waits(t) == Waits(s)
  {
    forall i | 0 <= i < NR_SLOTS ensures WaitOf(t.procs[i], NR_SLOTS) == WaitOf(s.procs[i], NR_SLOTS) {
      assert t.procs[i] == s.procs[i].(asynMsg := t.procs[i].asynMsg);
    }
  }

  lemma RefusalExact(s: State, c: int, srcE: int)
    requires Base(s) && Running(s, c) && OkEndpoint(s.cfg, srcE) && !ReceiveNow(s, c, srcE).delivered
    ensures Deadlocked(ReceiveNow(s, c, srcE).state, Receive, c, SlotOf(srcE))
      <==> ComesBack(Waits(s), SlotOf(srcE), c)
  {
    var t := ReceiveNow(s, c, srcE).state;
    ReceiveNowKeeps(s, c, srcE);
    NothingFound(s, c, srcE);
    SameWaits(s, t);
    assert t.procs[c] == s.procs[c].(asynMsg := t.procs[c].asynMsg);
    DeadlockExactForReceive(t, c, srcE);
  }

  // The answer to a RECEIVE of c from srcE: the source is dead; or there is no message and
  // the call must not block, or the chain of waits leads from the source back to c.
  ghost predicate ReceiveAnswer(s: State, c: int, srcE: int, mapped: bool, nonblocking: bool, status: Status)
    requires Shape(s) && IsSlot(c) && (srcE == ANY || IsSlot(SlotOf(srcE)))
  {
    var dead, has := srcE != ANY && s.procs[SlotOf(srcE)].dead, HasMessage(s, c, srcE);
    var back := srcE != ANY && ComesBack(Waits(s), SlotOf(srcE), c);
    && status in {EFAULT, ESRCDIED, ENOTREADY, ELOCKED, OK}
    && (status == EFAULT <==> !mapped)
    && (status == ESRCDIED <==> mapped && dead)
    && (status == ENOTREADY <==> mapped && !dead && !has && nonblocking)
    && (status == ELOCKED <==> mapped && !dead && !has && !nonblocking && back)
  }

  /** Every answer of mini_receive, and what the caller has: a message if there is one, and
      otherwise nothing, blocked on the source if the answer is OK. */
  lemma ReceiveAnswers(s: State, c: int, srcE: int, mapped: bool, nonblocking: bool)
    requires Base(s) && Running(s, c) && (srcE == ANY || OkEndpoint(s.cfg, srcE))
    ensures var r := MiniReceive(s, c, srcE, mapped, nonblocking);
      var p := s.procs[c].(asynMsg := r.state.procs[c].asynMsg);
      && ReceiveAnswer(s, c, srcE, mapped, nonblocking, r.status)
      && (if r.status != OK then r.state.procs[c] == p
          else if HasMessage(s, c, srcE) then Taken(s, r.state, c, srcE) && !r.state.procs[c].receiving
          else r.state.procs[c] == p.(receiving := true, getfrom := srcE))
  {
    ReceiveTakes(s, c, srcE);
    SearchOutcome(s, c, srcE);
    if srcE != ANY && !ReceiveNow(s, c, srcE).delivered {
      RefusalExact(s, c, srcE);
    }
  }

  // The caller has a message and is otherwise as it was.
  lemma TakenSpares(s: State, r: State, c: int, srcE: int)
    requires Shape(s) && Shape(r) && Delivery(s) && IsSlot(c) && Taken(s, r, c, srcE)
    ensures r.procs[c] == s.procs[c].(inbox := r.procs[c].inbox) && r.procs[c].inbox.Some?
  {
    if HasBit(s, c, srcE) {
      var id :| FirstBit(s, c, srcE, id) && TookNotice(s, r, c, id);
    } else if HasSender(s, c, srcE) {
      var x :| FirstSender(s, c, srcE, x) && SenderHolds(s, x) && TookSender(s, r, c, x);
    } else {
      var src, k :| FirstTabled(s, c, srcE, src, k) && TookEntry(s, r, c, src, k);
    }
  }

  // A direct message that a RECEIVE returns was that of a blocked sender.
  lemma DirectTaken(s: State, r: State, c: int, srcE: int)
    requires Shape(s) && Shape(r) && Delivery(s) && IsSlot(c) && Taken(s, r, c, srcE)
    requires r.procs[c].inbox.Some? && r.procs[c].inbox.value.payload.kind.Direct?
    ensures !HasBit(s, c, srcE)
    ensures exists x :: FirstHeld(s, c, srcE, x, r.procs[c].inbox.value.payload.kind.tag)
  {
    if !HasBit(s, c, srcE) && HasSender(s, c, srcE) {
      var x :| FirstSender(s, c, srcE, x) && SenderHolds(s, x) && TookSender(s, r, c, x);
      assert FirstHeld(s, c, srcE, x, Tag(s.procs[x]));
    }
  }

  // x waits longest to send to c, and its message is t.
  ghost predicate FirstHeld(s: State, c: int, srcE: int, x: int, t: int)
    requires Shape(s) && IsSlot(c)
  {
    FirstSender(s, c, srcE, x) && SenderHolds(s, x) && Tag(s.procs[x]) == t
  }

  // Message t is still with a blocked sender, for c, from a process c receives from.
  predicate Undelivered(s: State, c: int, srcE: int, t: int) {
    0 <= t < |s.log| && s.log[t].place == AtSender && s.log[t].dst == c && srcE in {ANY, s.log[t].srcEp}
  }

  lemma UndeliveredIsSent(s: State, c: int, srcE: int, t: int)
    requires Base(s) && IsSlot(c) && Undelivered(s, c, srcE, t)
    ensures IsSlot(s.log[t].src) && Sender(s, c, srcE, s.log[t].src) && Tag(s.procs[s.log[t].src]) == t
  {
    assert PlaceHeld(s, t);
    var x := s.log[t].src;
    assert SenderHolds(s, x) && BlockingAt(s, x);
  }

  /** First come, first served, in terms of the log alone: a direct message that a RECEIVE
      returns was accepted before every other that is still waiting for the caller, and it is
      returned only when no notification could be. */
  lemma OldestFirst(s: State, c: int, srcE: int, mapped: bool, nonblocking: bool, t: nat)
    requires Base(s) && Running(s, c) && (srcE == ANY || OkEndpoint(s.cfg, srcE))
    requires var m := MiniReceive(s, c, srcE, mapped, nonblocking).state.procs[c].inbox;
      m.Some? && m.value.payload.kind == Direct(t)
    ensures Undelivered(s, c, srcE, t)
    ensures forall u {:trigger Undelivered(s, c, srcE, u)} :: Undelivered(s, c, srcE, u) ==> t <= u
    ensures srcE == ANY && !s.procs[c].replyPend ==> s.privs[s.cfg.priv[c]].notify == {}
    ensures !HasBit(s, c, srcE)
  {
    var r := MiniReceive(s, c, srcE, mapped, nonblocking);
    ReceiveAnswers(s, c, srcE, mapped, nonblocking);
    DirectTaken(s, r.state, c, srcE);
    var x :| FirstHeld(s, c, srcE, x, t);
    forall u | Undelivered(s, c, srcE, u) ensures t <= u {
      UndeliveredIsSent(s, c, srcE, u);
    }
    if srcE == ANY && !s.procs[c].replyPend {
      NoBitMeansEmpty(s, c);
    }
  }

  lemma NoBitMeansEmpty(s: State, c: int)
    requires Shape(s) && Refs(s) && IsSlot(c) && !s.procs[c].replyPend && !HasBit(s, c, ANY)
    ensures s.privs[s.cfg.priv[c]].notify == {}
  {
    BitPicked(s, c, ANY);
    PickedOwner(s, c, ANY);
  }
}
