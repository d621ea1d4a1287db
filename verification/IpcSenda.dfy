/**
 What SENDA does with a table, entry by entry, in terms of the state before the call: which
 entries are refused and why, which are delivered at once, and which are left for later.
 */
module IpcSenda {
  import opened Options
  import opened WaitGraph
  import opened IpcState
  import opened IpcSteps
  import opened IpcAnswers

  // The entry may be sent: to a live process that is no kernel task and that c may send to.
  ghost predicate Acceptable(s: State, c: int, e: Entry)
    requires Shape(s) && IsSlot(c)
  {
    && OkEndpoint(s.cfg, e.dst) && SlotOf(e.dst) >= 4 && MaySend(s.cfg, c, SlotOf(e.dst))
    && !s.procs[SlotOf(e.dst)].dead
  }

  // Entry i is one that its destination waits for.
  ghost predicate Wanted(s: State, c: int, t: seq<Entry>, i: int)
    requires Shape(s) && IsSlot(c)
  {
    && 0 <= i < |t| && t[i].Undone() && Acceptable(s, c, t[i])
    && var d := s.procs[SlotOf(t[i].dst)];
       Awaits(d, s.cfg.ep[c]) && !(t[i].noreply && d.replyPend)
  }

  // ... and the first such for it.
  ghost predicate Direct(s: State, c: int, t: seq<Entry>, i: int)
    requires Shape(s) && IsSlot(c)
  {
    Wanted(s, c, t, i) && forall j {:trigger Wanted(s, c, t, j)} :: 0 <= j < i && Wanted(s, c, t, j) ==> t[j].dst != t[i].dst
  }

  // Entry i waits in the table for its destination to receive.
  ghost predicate Left(s: State, c: int, t: seq<Entry>, i: int)
    requires Shape(s) && IsSlot(c)
  {
    0 <= i < |t| && t[i].Undone() && Acceptable(s, c, t[i]) && !Direct(s, c, t, i)
  }

  // What entry i has become.
  ghost predicate Settled(s: State, c: int, t: seq<Entry>, i: int, e: Entry)
    requires Shape(s) && IsSlot(c) && 0 <= i < |t|
  {
    var o := t[i];
    if !o.Undone() || Left(s, c, t, i) then e == o
    else if !OkEndpoint(s.cfg, o.dst) then e == o.(done := true, result := EDEADSRCDST)
    else if SlotOf(o.dst) < 4 || !MaySend(s.cfg, c, SlotOf(o.dst)) then e == o.(done := true, result := ECALLDENIED)
    else if s.procs[SlotOf(o.dst)].dead then e == o.(done := true, result := EDSTDIED)
    else e == o.(done := true, result := OK)
  }

  // The destination of e has been given it and is released.
  ghost predicate Served(s: State, r: State, c: int, e: Entry)
    requires Shape(s) && Shape(r) && IsSlot(c) && OkEndpoint(s.cfg, e.dst)
  {
    var d := SlotOf(e.dst);
    r.procs[d] == s.procs[d].(receiving := false, asynMsg := r.procs[d].asynMsg,
                              inbox := Some(Msg(s.cfg.ep[c], Payload(Async(e.noreply), e.body))))
  }

  // Somebody is flagged if it was before, or if one of the first n entries is left for it.
  ghost predicate Flagged(s: State, c: int, t: seq<Entry>, n: int, d: int)
    requires Shape(s) && IsSlot(c) && IsSlot(d)
  {
    s.procs[d].asynMsg || exists j :: LeftFor(s, c, t, n, d, j)
  }

  ghost predicate LeftFor(s: State, c: int, t: seq<Entry>, n: int, d: int, j: int)
    requires Shape(s) && IsSlot(c)
  {
    0 <= j < n && Left(s, c, t, j) && SlotOf(t[j].dst) == d
  }

  // None of the first n entries is for a d that waits for it.
  ghost predicate Unwanted(s: State, c: int, t: seq<Entry>, n: int, d: int)
    requires Shape(s) && IsSlot(c)
  {
    forall j {:trigger Wanted(s, c, t, j)} :: 0 <= j < n && Wanted(s, c, t, j) ==> SlotOf(t[j].dst) != d
  }

  // A structure in which only its table has changed.
  predicate OnlyTable(v: Priv, w: Priv) {
    w == v.(active := w.active, table := w.table, tableNo := w.tableNo)
  }

  // The first n entries of table t have been dealt with.
  ghost predicate Scanned(s: State, r: State, c: int, t: seq<Entry>, n: int)
    requires Shape(s) && IsSlot(c) && 0 <= n <= |t|
  {
    var v := s.cfg.priv[c];
    && Shape(r) && r.cfg == s.cfg && r.callq == s.callq && r.log == s.log
    && r.privs == s.privs[v := r.privs[v]] && OnlyTable(s.privs[v], r.privs[v]) && |r.privs[v].table| == |t|
    && (forall i :: 0 <= i < n ==> Settled(s, c, t, i, r.privs[v].table[i]))
    && (forall i :: n <= i < |t| ==> r.privs[v].table[i] == t[i])
    && (forall i {:trigger Direct(s, c, t, i)} :: 0 <= i < n && Direct(s, c, t, i) ==> Served(s, r, c, t[i]))
    && (forall i {:trigger Wanted(s, c, t, i)} :: 0 <= i < n && Wanted(s, c, t, i) ==> !r.procs[SlotOf(t[i].dst)].receiving)
    && (forall d :: 0 <= d < NR_SLOTS ==> DestinationAt(s, r, c, t, n, d))
  }

  // ... as far as process d is concerned.
  ghost predicate DestinationAt(s: State, r: State, c: int, t: seq<Entry>, n: int, d: int)
    requires Shape(s) && Shape(r) && IsSlot(c) && IsSlot(d)
  {
    && r.procs[d] == s.procs[d].(receiving := r.procs[d].receiving, inbox := r.procs[d].inbox, asynMsg := r.procs[d].asynMsg)
    && (Unwanted(s, c, t, n, d) ==> r.procs[d] == s.procs[d].(asynMsg := r.procs[d].asynMsg))
    && (r.procs[d].asynMsg <==> Flagged(s, c, t, n, d))
  }

  // What the scan sees of the destination of entry i says whether that is the first it wants.
  lemma SeenDirect(s: State, r: State, c: int, t: seq<Entry>, i: nat)
    requires Shape(s) && IsSlot(c) && i < |t| && Scanned(s, r, c, t, i) && t[i].Undone() && Acceptable(s, c, t[i])
    ensures var d := r.procs[SlotOf(t[i].dst)];
      Direct(s, c, t, i) <==> WillReceive(d, s.cfg.ep[c]) && (!t[i].noreply || !d.replyPend)
  {
    var d := SlotOf(t[i].dst);
    assert DestinationAt(s, r, c, t, i, d);
    if Unwanted(s, c, t, i, d) {
      assert forall j :: 0 <= j < i && Wanted(s, c, t, j) ==> t[j].dst != t[i].dst;
    } else {
      var j :| 0 <= j < i && Wanted(s, c, t, j) && SlotOf(t[j].dst) == d;
      assert t[j].dst == t[i].dst;
    }
  }

  // An entry that is not left changes nothing for who is flagged, one that is left flags d.
  lemma FlagStep(s: State, c: int, t: seq<Entry>, i: nat, n: nat, d: int)
    requires Shape(s) && IsSlot(c) && i < |t| && IsSlot(d) && n == i + 1
    ensures Flagged(s, c, t, n, d) <==> Flagged(s, c, t, i, d) || (Left(s, c, t, i) && SlotOf(t[i].dst) == d)
  {
    if j :| LeftFor(s, c, t, i, d, j) {
      assert LeftFor(s, c, t, n, d, j);
    }
    if j :| LeftFor(s, c, t, n, d, j) {
      assert j == i || LeftFor(s, c, t, i, d, j);
    }
    if Left(s, c, t, i) && SlotOf(t[i].dst) == d {
      assert LeftFor(s, c, t, n, d, i);
    }
  }

  // An entry the scan passes over or refuses.
  lemma RefusedStep(s: State, r: State, q: State, c: int, t: seq<Entry>, i: nat, n: nat, e: Entry)
    requires Shape(s) && IsSlot(c) && i < |t| && n == i + 1 && Scanned(s, r, c, t, i)
    requires !(t[i].Undone() && Acceptable(s, c, t[i])) && Settled(s, c, t, i, e)
    requires var v := s.cfg.priv[c]; q == SetPriv(r, v, r.privs[v].(table := r.privs[v].table[i := e]))
    ensures Scanned(s, q, c, t, n)
  {
    forall d | 0 <= d < NR_SLOTS ensures DestinationAt(s, q, c, t, n, d) {
      assert DestinationAt(s, r, c, t, i, d);
      FlagStep(s, c, t, i, n, d);
      assert Unwanted(s, c, t, n, d) ==> Unwanted(s, c, t, i, d);
    }
  }

  // An entry that is left: only the flag of its destination changes.
  lemma LeftStep(s: State, r: State, c: int, t: seq<Entry>, i: nat, n: nat)
    requires Shape(s) && IsSlot(c) && i < |t| && n == i + 1 && Scanned(s, r, c, t, i) && Left(s, c, t, i)
    ensures var d := SlotOf(t[i].dst); Scanned(s, SetProc(r, d, r.procs[d].(asynMsg := true)), c, t, n)
  {
    var x := SlotOf(t[i].dst);
    var q := SetProc(r, x, r.procs[x].(asynMsg := true));
    forall d | 0 <= d < NR_SLOTS ensures DestinationAt(s, q, c, t, n, d) {
      LeftDestination(s, r, c, t, i, n, d);
    }
    forall j | 0 <= j < n && Direct(s, c, t, j) ensures Served(s, q, c, t[j]) {
      assert j != i && Served(s, r, c, t[j]);
    }
    forall j | 0 <= j < n && Wanted(s, c, t, j) ensures !q.procs[SlotOf(t[j].dst)].receiving {
      LeftWanted(s, r, c, t, i);
    }
    assert Settled(s, c, t, i, q.privs[s.cfg.priv[c]].table[i]);
  }

  lemma LeftDestination(s: State, r: State, c: int, t: seq<Entry>, i: nat, n: nat, d: int)
    requires Shape(s) && IsSlot(c) && i < |t| && n == i + 1 && Scanned(s, r, c, t, i) && Left(s, c, t, i) && IsSlot(d)
    ensures var x := SlotOf(t[i].dst); DestinationAt(s, SetProc(r, x, r.procs[x].(asynMsg := true)), c, t, n, d)
  {
    assert DestinationAt(s, r, c, t, i, d);
    FlagStep(s, c, t, i, n, d);
    assert Unwanted(s, c, t, n, d) ==> Unwanted(s, c, t, i, d);
  }

  // An entry that is wanted but not the first finds its destination served.
  lemma LeftWanted(s: State, r: State, c: int, t: seq<Entry>, i: nat)
    requires Shape(s) && IsSlot(c) && i < |t| && Scanned(s, r, c, t, i) && Left(s, c, t, i)
    ensures Wanted(s, c, t, i) ==> !r.procs[SlotOf(t[i].dst)].receiving
  {
    if Wanted(s, c, t, i) {
      var j :| 0 <= j < i && Wanted(s, c, t, j) && t[j].dst == t[i].dst;
    }
  }

  // An entry that is delivered.
  lemma DirectStep(s: State, r: State, c: int, t: seq<Entry>, i: nat, n: nat)
    requires Shape(s) && IsSlot(c) && i < |t| && n == i + 1 && Scanned(s, r, c, t, i) && Direct(s, c, t, i)
    ensures var d, q := SlotOf(t[i].dst), DeliverEntry(r, s.cfg.priv[c], c, i, SlotOf(t[i].dst));
      Scanned(s, SetProc(q, d, q.procs[d].(receiving := false)), c, t, n)
  {
    var x, q1 := SlotOf(t[i].dst), DeliverEntry(r, s.cfg.priv[c], c, i, SlotOf(t[i].dst));
    var q := SetProc(q1, x, q1.procs[x].(receiving := false));
    assert Unwanted(s, c, t, i, x);
    assert DestinationAt(s, r, c, t, i, x);
    forall j | 0 <= j < n && Direct(s, c, t, j) ensures Served(s, q, c, t[j]) {
      assert j < i ==> Wanted(s, c, t, j) && Served(s, r, c, t[j]);
    }
    forall d | 0 <= d < NR_SLOTS ensures DestinationAt(s, q, c, t, n, d) {
      assert DestinationAt(s, r, c, t, i, d);
      FlagStep(s, c, t, i, n, d);
      assert Unwanted(s, c, t, n, d) ==> Unwanted(s, c, t, i, d) && d != x;
    }
  }

  lemma EntryStep(s: State, r: State, c: int, t: seq<Entry>, i: nat, n: nat)
    requires Shape(s) && IsSlot(c) && i < |t| && n == i + 1 && Scanned(s, r, c, t, i) && t[i].Undone()
    ensures var q := SendaEntry(r, c, i); Scanned(s, q.state, c, t, n) && (q.done <==> !Left(s, c, t, i))
  {
    var e, q := t[i], SendaEntry(r, c, i);
    if Acceptable(s, c, e) {
      assert DestinationAt(s, r, c, t, i, SlotOf(e.dst));
      SeenDirect(s, r, c, t, i);
      if Direct(s, c, t, i) {
        DirectStep(s, r, c, t, i, n);
      } else {
        LeftStep(s, r, c, t, i, n);
      }
    } else {
      assert OkEndpoint(s.cfg, e.dst) ==> DestinationAt(s, r, c, t, i, SlotOf(e.dst));
      var f := q.state.privs[s.cfg.priv[c]].table[i];
      RefusedStep(s, r, q.state, c, t, i, n, f);
    }
  }

  // Where the scan stops: at the first malformed entry from i on, or at the end.
  function Stop(t: seq<Entry>, i: nat): (n: nat)
    requires i <= |t|
    ensures i <= n <= |t| && (n < |t| ==> t[n].Malformed())
    ensures forall j :: i <= j < n ==> !t[j].Malformed()
    decreases |t| - i
  {
    if i == |t| || t[i].Malformed() then i else Stop(t, i + 1)
  }

  // None of the entries from i up to n is left.
  ghost predicate NoneLeft(s: State, c: int, t: seq<Entry>, i: int, n: int)
    requires Shape(s) && IsSlot(c)
  {
    forall j {:trigger Left(s, c, t, j)} :: i <= j < n ==> !Left(s, c, t, j)
  }

  lemma {:induction false} ScanAnswers(s: State, r: State, c: int, t: seq<Entry>, i: nat, done: bool)
    requires Shape(s) && IsSlot(c) && i <= |t| && Scanned(s, r, c, t, i)
    ensures var q, n := SendaScan(r, c, i, done), Stop(t, i);
      && Scanned(s, q.state, c, t, n) && q.status == (if n < |t| then EINVAL else OK)
      && (q.done <==> done && NoneLeft(s, c, t, i, n))
    decreases |t| - i
  {
    if i < |t| && !t[i].Malformed() {
      var q := NextEntry(s, r, c, t, i, i + 1, done);
      ScanAnswers(s, q.state, c, t, i + 1, q.done);
      LeftFrom(s, c, t, i, i + 1, Stop(t, i + 1));
    }
  }

  lemma LeftFrom(s: State, c: int, t: seq<Entry>, i: int, k: int, n: int)
    requires Shape(s) && IsSlot(c) && k == i + 1 && k <= n
    ensures NoneLeft(s, c, t, i, n) <==> !Left(s, c, t, i) && NoneLeft(s, c, t, k, n)
  {
  }

  // One entry of the scan.
  lemma NextEntry(s: State, r: State, c: int, t: seq<Entry>, i: nat, n: nat, done: bool) returns (q: SendaResult)
    requires Shape(s) && IsSlot(c) && i < |t| && n == i + 1 && Scanned(s, r, c, t, i) && !t[i].Malformed()
    ensures Scanned(s, q.state, c, t, n) && (q.done <==> done && !Left(s, c, t, i))
    ensures SendaScan(r, c, i, done) == SendaScan(q.state, c, n, q.done)
  {
    if t[i].Undone() {
      EntryStep(s, r, c, t, i, n);
      q := SendaEntry(r, c, i);
      q := q.(done := done && q.done);
    } else {
      SkipStep(s, r, c, t, i, n);
      q := SendaResult(r, OK, done);
    }
  }

  lemma SkipStep(s: State, r: State, c: int, t: seq<Entry>, i: nat, n: nat)
    requires Shape(s) && IsSlot(c) && i < |t| && n == i + 1 && Scanned(s, r, c, t, i) && !t[i].Undone()
    ensures Scanned(s, r, c, t, n)
  {
    var v := s.cfg.priv[c];
    assert r.privs[v].table[i := t[i]] == r.privs[v].table;
    assert r.privs[v := r.privs[v]] == r.privs;
    RefusedStep(s, r, r, c, t, i, n, t[i]);
  }

  /** What SENDA answers for a table that it scans: EINVAL if and only if an entry is
      malformed, and every entry before the first such is refused for the reason that applies,
      delivered if it is the first its destination waits for, and left otherwise; the table
      stays active if and only if all of it was scanned and something is left. */
  lemma SendaAnswers(s: State, c: int, table: seq<Entry>)
    requires Shape(s) && IsSlot(c) && s.cfg.sysProc[s.cfg.priv[c]] && 0 < |table| <= 4160
    ensures var r, n := MiniSenda(s, c, table, true), Stop(table, 0);
      && r.status == (if n < |table| then EINVAL else OK)
      && Scanned(s, r.state, c, table, n)
      && (r.state.privs[s.cfg.priv[c]].active <==> n == |table| && exists j :: Left(s, c, table, j))
  {
    var s1 := SendaStart(s, c, table);
    StartScanned(s, c, table);
    ScanAnswers(s, s1, c, table, 0, true);
    ScanInactive(s1, c, 0, true);
    Submitted(s, c, table);
    Activated(s, c, table, SendaScan(s1, c, 0, true));
  }

  // mini_senda after its scan q.
  ghost function Finish(v: nat, q: SendaResult): (r: Outcome)
    requires v < |q.state.privs|
  {
    if q.status == OK && !q.done
    then Outcome(SetPriv(q.state, v, q.state.privs[v].(active := true)), OK)
    else Outcome(q.state, q.status)
  }

  lemma Submitted(s: State, c: int, table: seq<Entry>)
    requires Shape(s) && IsSlot(c) && s.cfg.sysProc[s.cfg.priv[c]] && 0 < |table| <= 4160
    ensures MiniSenda(s, c, table, true) == Finish(s.cfg.priv[c], SendaScan(SendaStart(s, c, table), c, 0, true))
  {
  }

  lemma Activated(s: State, c: int, t: seq<Entry>, q: SendaResult)
    requires Shape(s) && IsSlot(c) && Scanned(s, q.state, c, t, Stop(t, 0)) && !q.state.privs[s.cfg.priv[c]].active
    requires q.status == (if Stop(t, 0) < |t| then EINVAL else OK) && (q.done <==> NoneLeft(s, c, t, 0, Stop(t, 0)))
    ensures var r := Finish(s.cfg.priv[c], q);
      && r.status == q.status && Scanned(s, r.state, c, t, Stop(t, 0))
      && (r.state.privs[s.cfg.priv[c]].active <==> Stop(t, 0) == |t| && exists j :: Left(s, c, t, j))
  {
    ActiveScanned(s, q.state, c, t, Stop(t, 0));
  }

  // What SENDA answers without a scan.
  lemma SendaRefused(s: State, c: int, table: seq<Entry>, mapped: bool)
    requires Shape(s) && IsSlot(c)
    ensures var r, v := MiniSenda(s, c, table, mapped), s.cfg.priv[c];
      && (!s.cfg.sysProc[v] ==> r == Outcome(s, EPERM))
      && (s.cfg.sysProc[v] && (table == [] || !mapped || |table| > 4160) ==>
            && r.state == s.(privs := s.privs[v := s.privs[v].(active := false)])
            && r.status == if table == [] then OK else if !mapped then EFAULT else EDOM)
  {
  }

  lemma {:induction false} ScanInactive(s: State, c: int, i: nat, done: bool)
    requires Shape(s) && IsSlot(c) && i <= |s.privs[s.cfg.priv[c]].table| && !s.privs[s.cfg.priv[c]].active
    ensures !SendaScan(s, c, i, done).state.privs[s.cfg.priv[c]].active
    decreases |s.privs[s.cfg.priv[c]].table| - i
  {
    var t := s.privs[s.cfg.priv[c]].table;
    if i < |t| && !t[i].Malformed() {
      if t[i].Empty() || t[i].done {
        ScanInactive(s, c, i + 1, done);
      } else {
        var r := SendaEntry(s, c, i);
        ScanInactive(r.state, c, i + 1, done && r.done);
      }
    }
  }

  lemma ActiveScanned(s: State, r: State, c: int, t: seq<Entry>, n: nat)
    requires Shape(s) && IsSlot(c) && n <= |t| && Scanned(s, r, c, t, n)
    ensures var v := s.cfg.priv[c]; Scanned(s, SetPriv(r, v, r.privs[v].(active := true)), c, t, n)
  {
    var v := s.cfg.priv[c];
    var q := SetPriv(r, v, r.privs[v].(active := true));
    forall d | 0 <= d < NR_SLOTS ensures DestinationAt(s, q, c, t, n, d) {
      assert DestinationAt(s, r, c, t, n, d);
    }
  }

  lemma StartScanned(s: State, c: int, table: seq<Entry>)
    requires Shape(s) && IsSlot(c)
    ensures Scanned(s, SendaStart(s, c, table), c, table, 0)
  {
  }
}
