/**
 Asynchronous sends.  While a table is active its undone entries are announced at their
 destinations; an entry is delivered at most once; and entries that are not marked as
 no reply reach a destination in table order.
 */
module IpcAsync {
  import opened WaitGraph
  import opened IpcState
  import opened IpcSteps
  import opened IpcInv
  import opened IpcKeeps
  import opened IpcCalls

  // Entry i of table v still has to reach slot d.
  predicate Pending(s: State, v: int, i: int, d: int)
    requires 0 <= v < |s.privs| && 0 <= d < |s.cfg.ep|
  {
    0 <= i < |s.privs[v].table| && s.privs[v].table[i].Undone() && s.privs[v].table[i].dst == s.cfg.ep[d]
  }

  // Undone entries below `limit` are announced and permitted.
  ghost predicate Announced(s: State, v: int, limit: int)
    requires Shape(s) && 0 <= v < NR_SYS_PROCS
  {
    forall i, d :: 0 <= i < limit && 0 <= d < NR_SLOTS && Pending(s, v, i, d) && Live(s, d) ==>
      s.procs[d].asynMsg && s.cfg.priv[d] in s.cfg.ipcTo[v]
  }

  ghost predicate Flags(s: State)
    requires Shape(s)
  {
    forall v :: 0 <= v < NR_SYS_PROCS && s.privs[v].active ==>
      && s.cfg.sysProc[v] && s.cfg.owner[v] != NOBODY
      && Announced(s, v, |s.privs[v].table|)
      && forall i :: 0 <= i < |s.privs[v].table| ==> !s.privs[v].table[i].Malformed()
  }

  // The log speaks of tables scanned so far, and of entries that are done.
  ghost predicate Recorded(s: State, a: AsyncDelivery)
    requires Shape(s)
  {
    && a.priv < NR_SYS_PROCS && a.tableNo <= s.privs[a.priv].tableNo
    && (a.tableNo == s.privs[a.priv].tableNo ==>
          && a.index < |s.privs[a.priv].table| && s.privs[a.priv].table[a.index].done
          && (!a.noreply ==> Passed(s.privs[a.priv].table, a.dst, a.index)))
  }

  // Entries before `index` that may not be overtaken are no longer undone.
  predicate Passed(t: seq<Entry>, dst: int, index: nat) {
    forall i :: 0 <= i < index && i < |t| && t[i].dst == dst && !t[i].noreply ==> !t[i].Undone()
  }

  predicate SameTable(a: AsyncDelivery, b: AsyncDelivery) {
    a.priv == b.priv && a.tableNo == b.tableNo
  }

  // At most once, and in order.
  ghost predicate Logged(s: State)
    requires Shape(s)
  {
    && (forall x :: 0 <= x < |s.asyncLog| ==> Recorded(s, s.asyncLog[x]))
    && (forall x, y :: 0 <= x < y < |s.asyncLog| && SameTable(s.asyncLog[x], s.asyncLog[y]) ==>
          && s.asyncLog[x].index != s.asyncLog[y].index
          && (s.asyncLog[x].dst == s.asyncLog[y].dst && !s.asyncLog[x].noreply && !s.asyncLog[y].noreply ==>
                s.asyncLog[x].index < s.asyncLog[y].index))
  }

  ghost predicate AsyncInv(s: State) {
    Shape(s) && Flags(s) && Logged(s)
  }

  lemma AsyncFrame(s: State, r: State)
    requires AsyncInv(s) && Shape(r) && r.cfg == s.cfg && r.asyncLog == s.asyncLog
    requires forall v :: 0 <= v < NR_SYS_PROCS ==>
      r.privs[v].table == s.privs[v].table && r.privs[v].tableNo == s.privs[v].tableNo
      && (r.privs[v].active ==> s.privs[v].active)
    requires forall d :: 0 <= d < NR_SLOTS ==>
      (s.procs[d].asynMsg ==> r.procs[d].asynMsg) && (s.procs[d].dead ==> r.procs[d].dead)
    ensures AsyncInv(r)
  {
    forall v | 0 <= v < NR_SYS_PROCS && r.privs[v].active ensures Announced(r, v, |r.privs[v].table|) {
      assert Announced(s, v, |s.privs[v].table|);
      forall i, d | 0 <= i < |r.privs[v].table| && 0 <= d < NR_SLOTS && Pending(r, v, i, d) && Live(r, d)
        ensures r.procs[d].asynMsg && r.cfg.priv[d] in r.cfg.ipcTo[v]
      {
        assert Pending(s, v, i, d);
      }
    }
    forall x | 0 <= x < |r.asyncLog| ensures Recorded(r, r.asyncLog[x]) {
      assert Recorded(s, s.asyncLog[x]);
    }
  }

  // ------------------------------------------------------------------- scans

  /** What a scan of a table says: nothing is left for this destination except what
      was postponed, and a table is reported as finished only when it is. */
  lemma {:induction false} ScanMeaning(t: seq<Entry>, i: nat, dst: int, replyPend: bool)
    requires i <= |t|
    ensures var r := ScanTable(t, i, dst, replyPend);
      && (r.scan.Found? ==>
            && i <= r.scan.index < |t| && t[r.scan.index].Undone() && t[r.scan.index].dst == dst
            && !(t[r.scan.index].noreply && replyPend)
            && (forall j :: i <= j < r.scan.index && t[j].dst == dst && !t[j].noreply ==> !t[j].Undone()))
      && (r.scan.Nothing? ==>
            && (forall j :: i <= j < |t| ==> !t[j].Malformed())
            && (forall j :: i <= j < |t| && t[j].dst == dst && !(t[j].noreply && replyPend) ==> !t[j].Undone())
            && (!r.postponed ==> forall j :: i <= j < |t| && t[j].dst == dst ==> !t[j].Undone())
            && (r.scan.allDone <==> forall j :: i <= j < |t| ==> t[j].Empty() || t[j].done))
      && (r.scan.BadBits? ==> exists j :: i <= j < |t| && t[j].Malformed())
    decreases |t| - i
  {
    if i < |t| && !t[i].Malformed() {
      ScanMeaning(t, i + 1, dst, replyPend);
    }
  }

  // ---------------------------------------------------------------- delivery

  // Entry i of table v is handed to d, and nothing it may not overtake is before it.
  lemma DeliverEntryAsync(s: State, v: nat, src: int, i: nat, d: int)
    requires AsyncInv(s) && IsSlot(src) && IsSlot(d) && v < NR_SYS_PROCS && Pending(s, v, i, d)
    requires !s.privs[v].table[i].noreply ==> Passed(s.privs[v].table, s.cfg.ep[d], i)
    ensures AsyncInv(DeliverEntry(s, v, src, i, d))
  {
    var r := DeliverEntry(s, v, src, i, d);
    forall w | 0 <= w < NR_SYS_PROCS && r.privs[w].active ensures Announced(r, w, |r.privs[w].table|) {
      assert Announced(s, w, |s.privs[w].table|);
      forall j, e | 0 <= j < |r.privs[w].table| && 0 <= e < NR_SLOTS && Pending(r, w, j, e) && Live(r, e)
        ensures r.procs[e].asynMsg && r.cfg.priv[e] in r.cfg.ipcTo[w]
      {
        assert Pending(s, w, j, e);
      }
    }
    DeliverEntryLogged(s, v, src, i, d);
  }

  lemma DeliverEntryLogged(s: State, v: nat, src: int, i: nat, d: int)
    requires AsyncInv(s) && IsSlot(src) && IsSlot(d) && v < NR_SYS_PROCS && Pending(s, v, i, d)
    requires !s.privs[v].table[i].noreply ==> Passed(s.privs[v].table, s.cfg.ep[d], i)
    ensures Logged(DeliverEntry(s, v, src, i, d))
  {
    var r := DeliverEntry(s, v, src, i, d);
    var n := |s.asyncLog|;
    forall x | 0 <= x < |r.asyncLog| ensures Recorded(r, r.asyncLog[x]) {
      if x < n {
        assert Recorded(s, s.asyncLog[x]);
      }
    }
    forall x, y | 0 <= x < y < |r.asyncLog| && SameTable(r.asyncLog[x], r.asyncLog[y])
      ensures r.asyncLog[x].index != r.asyncLog[y].index
        && (r.asyncLog[x].dst == r.asyncLog[y].dst && !r.asyncLog[x].noreply && !r.asyncLog[y].noreply ==>
              r.asyncLog[x].index < r.asyncLog[y].index)
    {
      assert Recorded(s, s.asyncLog[x]);
    }
  }

  lemma TryOneAsync(s: State, src: int, d: int)
    requires AsyncInv(s) && IsSlot(src) && IsSlot(d)
    ensures AsyncInv(TryOne(s, src, d).state)
  {
    var v := s.cfg.priv[src];
    if v != USER_PRIV && s.privs[v].active && MaySend(s.cfg, src, d) {
      var t := s.privs[v].table;
      ScanMeaning(t, 0, s.cfg.ep[d], s.procs[d].replyPend);
      match ScanTable(t, 0, s.cfg.ep[d], s.procs[d].replyPend).scan
      case Found(i) => DeliverEntryAsync(s, v, src, i, d);
      case BadBits => assert false;
      case Nothing(allDone) =>
        AsyncFrame(s, SetPriv(s, v, s.privs[v].(active := s.privs[v].active && !allDone)));
    }
  }

  // Nothing of table v is left for d.
  ghost predicate NothingLeft(s: State, v: int, d: int)
    requires Shape(s) && 0 <= v < NR_SYS_PROCS && IsSlot(d)
  {
    s.privs[v].active ==> forall i :: 0 <= i < |s.privs[v].table| ==> !Pending(s, v, i, d)
  }

  lemma TryOneExhausts(s: State, v: int, d: int)
    requires AsyncInv(s) && 0 <= v < NR_SYS_PROCS && s.cfg.owner[v] != NOBODY && IsSlot(d) && Live(s, d)
    ensures var r := TryOne(s, s.cfg.owner[v], d);
      !r.delivered ==>
        && r.state.procs == s.procs
        && (forall w :: 0 <= w < NR_SYS_PROCS ==>
              r.state.privs[w].table == s.privs[w].table && (r.state.privs[w].active ==> s.privs[w].active))
        && (!r.postponed ==> NothingLeft(r.state, v, d))
  {
    if s.privs[v].active {
      assert Announced(s, v, |s.privs[v].table|);
      ScanMeaning(s.privs[v].table, 0, s.cfg.ep[d], s.procs[d].replyPend);
    }
  }

  // Where the loop of try_async is: unless something was postponed, nothing is left for d
  // in the tables before j.
  ghost predicate Exhausting(s: State, d: int, j: int, postponed: bool) {
    && AsyncInv(s) && IsSlot(d) && Live(s, d) && j <= NR_SYS_PROCS
    && (!postponed ==> forall v :: 0 <= v < j ==> NothingLeft(s, v, d))
  }

  lemma TryAsyncAsync(s: State, d: int)
    requires AsyncInv(s) && IsSlot(d) && Live(s, d)
    ensures AsyncInv(TryAsync(s, d, 0, false).state)
  {
    var keep := (t: State, j: nat, b: bool) => Exhausting(t, d, j, b);
    var done := (r: TryResult) => AsyncInv(r.state);
    forall t, j: nat, b | Shape(t) && j <= NR_SYS_PROCS && keep(t, j, b) ensures KeptByTry(d, j, t, b, keep, done) {
      if j == NR_SYS_PROCS {
        ClearFlagAsync(t, d, b);
      } else {
        TryNextAsync(t, d, j, b);
      }
    }
    TryAsyncInduction(s, d, 0, false, keep, done);
  }

  lemma TryNextAsync(s: State, d: int, j: nat, postponed: bool)
    requires j < NR_SYS_PROCS && Exhausting(s, d, j, postponed)
    ensures var r := TryNext(s, d, j);
      AsyncInv(r.state) && (!r.delivered ==> Exhausting(r.state, d, j + 1, postponed || r.postponed))
  {
    if s.cfg.owner[j] != NOBODY {
      TryOneAsync(s, s.cfg.owner[j], d);
      TryOneExhausts(s, j, d);
      var r := TryOne(s, s.cfg.owner[j], d);
      if !r.delivered && !(postponed || r.postponed) {
        forall v | 0 <= v < j + 1 ensures NothingLeft(r.state, v, d) {
          if v < j {
            assert NothingLeft(s, v, d);
            assert forall i :: Pending(r.state, v, i, d) ==> Pending(s, v, i, d);
          }
        }
      }
    }
  }

  // The flag is cleared only when no table holds anything for d.
  lemma ClearFlagAsync(s: State, d: int, postponed: bool)
    requires AsyncInv(s) && IsSlot(d)
    requires !postponed ==> forall v :: 0 <= v < NR_SYS_PROCS ==> NothingLeft(s, v, d)
    ensures AsyncInv(SetProc(s, d, s.procs[d].(asynMsg := s.procs[d].asynMsg && postponed)))
  {
    var r := SetProc(s, d, s.procs[d].(asynMsg := s.procs[d].asynMsg && postponed));
    forall v | 0 <= v < NR_SYS_PROCS && r.privs[v].active ensures Announced(r, v, |r.privs[v].table|) {
      assert Announced(s, v, |s.privs[v].table|) && (!postponed ==> NothingLeft(s, v, d));
      forall i, e | 0 <= i < |r.privs[v].table| && 0 <= e < NR_SLOTS && Pending(r, v, i, e) && Live(r, e)
        ensures r.procs[e].asynMsg && r.cfg.priv[e] in r.cfg.ipcTo[v]
      {
        assert Pending(s, v, i, e);
      }
    }
    forall x | 0 <= x < |r.asyncLog| ensures Recorded(r, r.asyncLog[x]) {
      assert Recorded(s, s.asyncLog[x]);
    }
  }

  // --------------------------------------------------------------- mini_senda

  // Half-way through the scan of a new table: what was left undone is announced, and
  // its destination is not waiting for the caller.
  ghost predicate Scanned(s: State, c: int, i: int)
    requires Shape(s) && IsSlot(c)
  {
    var v := s.cfg.priv[c];
    && AsyncInv(s) && !s.privs[v].active && s.cfg.sysProc[v] && s.cfg.owner[v] != NOBODY
    && i <= |s.privs[v].table| && Announced(s, v, i)
    && (forall j :: 0 <= j < i ==> !s.privs[v].table[j].Malformed())
    && (forall j, d :: 0 <= j < i && 0 <= d < NR_SLOTS && Pending(s, v, j, d) && !s.privs[v].table[j].noreply ==>
          !WillReceive(s.procs[d], s.cfg.ep[c]))
  }

  lemma ScannedSkip(s: State, c: int, i: nat)
    requires Shape(s) && IsSlot(c) && Scanned(s, c, i) && i < |s.privs[s.cfg.priv[c]].table|
    requires var e := s.privs[s.cfg.priv[c]].table[i]; !e.Malformed() && !e.Undone()
    ensures Scanned(s, c, i + 1)
  {
  }

  lemma RefuseScanned(s: State, c: int, i: nat, result: Status)
    requires Shape(s) && IsSlot(c) && Scanned(s, c, i) && i < |s.privs[s.cfg.priv[c]].table|
    requires s.privs[s.cfg.priv[c]].table[i].Undone()
    ensures Scanned(RefuseEntry(s, s.cfg.priv[c], i, result), c, i + 1)
  {
    var v := s.cfg.priv[c];
    var r := RefuseEntry(s, v, i, result);
    forall j, d | 0 <= j < |r.privs[v].table| && 0 <= d < NR_SLOTS && Pending(r, v, j, d) ensures Pending(s, v, j, d) && j != i {
    }
    forall x | 0 <= x < |r.asyncLog| ensures Recorded(r, r.asyncLog[x]) {
      assert Recorded(s, s.asyncLog[x]);
    }
    forall w | 0 <= w < NR_SYS_PROCS && r.privs[w].active ensures Announced(r, w, |r.privs[w].table|) {
      assert Announced(s, w, |s.privs[w].table|);
      assert forall j, d :: 0 <= d < NR_SLOTS && Pending(r, w, j, d) ==> Pending(s, w, j, d);
    }
  }

  lemma FlagScanned(s: State, c: int, i: nat, d: int)
    requires Shape(s) && IsSlot(c) && Scanned(s, c, i) && i < |s.privs[s.cfg.priv[c]].table| && IsSlot(d)
    requires var e := s.privs[s.cfg.priv[c]].table[i];
      && e.Undone() && e.dst == s.cfg.ep[d] && MaySend(s.cfg, c, d)
      && !(WillReceive(s.procs[d], s.cfg.ep[c]) && (!e.noreply || !s.procs[d].replyPend))
    ensures Scanned(SetProc(s, d, s.procs[d].(asynMsg := true)), c, i + 1)
  {
    var v := s.cfg.priv[c];
    var r := SetProc(s, d, s.procs[d].(asynMsg := true));
    AsyncFrame(s, r);
    forall j, e | 0 <= j < i + 1 && 0 <= e < NR_SLOTS && Pending(r, v, j, e)
      ensures Live(r, e) ==> r.procs[e].asynMsg && r.cfg.priv[e] in r.cfg.ipcTo[v]
      ensures !r.privs[v].table[j].noreply ==> !WillReceive(r.procs[e], r.cfg.ep[c])
    {
      assert Pending(s, v, j, e);
      if j == i {
        assert SlotOf(s.cfg.ep[e]) == e && SlotOf(s.cfg.ep[d]) == d;
      }
    }
  }

  lemma DeliverScanned(s: State, c: int, i: nat, d: int)
    requires Shape(s) && IsSlot(c) && Scanned(s, c, i) && i < |s.privs[s.cfg.priv[c]].table| && IsSlot(d)
    requires Pending(s, s.cfg.priv[c], i, d) && WillReceive(s.procs[d], s.cfg.ep[c])
    ensures var s1 := DeliverEntry(s, s.cfg.priv[c], c, i, d);
      Scanned(SetProc(s1, d, s1.procs[d].(receiving := false)), c, i + 1)
  {
    var v := s.cfg.priv[c];
    forall j | 0 <= j < i && s.privs[v].table[j].dst == s.cfg.ep[d] && !s.privs[v].table[j].noreply
      ensures !s.privs[v].table[j].Undone()
    {
      assert !Pending(s, v, j, d);
    }
    var s1 := DeliverEntry(s, v, c, i, d);
    DeliverEntryAsync(s, v, c, i, d);
    var r := SetProc(s1, d, s1.procs[d].(receiving := false));
    AsyncFrame(s1, r);
    forall j, e | 0 <= j < i + 1 && 0 <= e < NR_SLOTS && Pending(r, v, j, e)
      ensures Live(r, e) ==> r.procs[e].asynMsg && r.cfg.priv[e] in r.cfg.ipcTo[v]
      ensures !r.privs[v].table[j].noreply ==> !WillReceive(r.procs[e], r.cfg.ep[c])
    {
      assert Pending(s, v, j, e) && j != i;
    }
  }

  lemma SendaEntryScanned(s: State, c: int, i: nat)
    requires Shape(s) && IsSlot(c) && Scanned(s, c, i) && i < |s.privs[s.cfg.priv[c]].table|
    requires s.privs[s.cfg.priv[c]].table[i].Undone()
    ensures Scanned(SendaEntry(s, c, i).state, c, i + 1)
  {
    var v := s.cfg.priv[c];
    var e := s.privs[v].table[i];
    var d := SlotOf(e.dst);
    if !OkEndpoint(s.cfg, e.dst) {
      RefuseScanned(s, c, i, EDEADSRCDST);
    } else if d < NR_TASKS || !MaySend(s.cfg, c, d) {
      RefuseScanned(s, c, i, ECALLDENIED);
    } else if s.procs[d].dead {
      RefuseScanned(s, c, i, EDSTDIED);
    } else if WillReceive(s.procs[d], s.cfg.ep[c]) && (!e.noreply || !s.procs[d].replyPend) {
      DeliverScanned(s, c, i, d);
    } else {
      FlagScanned(s, c, i, d);
    }
  }

  lemma {:induction false} SendaScanScanned(s: State, c: int, i: nat, done: bool)
    requires Shape(s) && IsSlot(c) && Scanned(s, c, i)
    ensures var r := SendaScan(s, c, i, done);
      AsyncInv(r.state) && (r.status == OK ==> Scanned(r.state, c, |r.state.privs[s.cfg.priv[c]].table|))
    decreases |s.privs[s.cfg.priv[c]].table| - i
  {
    var t := s.privs[s.cfg.priv[c]].table;
    if i == |t| {
    } else if t[i].Empty() || (!t[i].Malformed() && t[i].done) {
      ScannedSkip(s, c, i);
      SendaScanScanned(s, c, i + 1, done);
    } else if !t[i].Malformed() {
      SendaEntryScanned(s, c, i);
      var r := SendaEntry(s, c, i);
      SendaScanScanned(r.state, c, i + 1, done && r.done);
    }
  }

  lemma SendaStartScanned(s: State, c: int, table: seq<Entry>)
    requires AsyncInv(s) && IsSlot(c) && !s.cfg.free[c] && s.cfg.sysProc[s.cfg.priv[c]]
    ensures Scanned(SendaStart(s, c, table), c, 0)
  {
    var v := s.cfg.priv[c];
    var r := SendaStart(s, c, table);
    forall x | 0 <= x < |r.asyncLog| ensures Recorded(r, r.asyncLog[x]) {
      assert Recorded(s, s.asyncLog[x]);
    }
    forall w | 0 <= w < NR_SYS_PROCS && r.privs[w].active ensures Announced(r, w, |r.privs[w].table|) {
      assert Announced(s, w, |s.privs[w].table|);
      assert forall j, d :: 0 <= d < NR_SLOTS && Pending(r, w, j, d) ==> Pending(s, w, j, d);
    }
  }

  lemma ActivateAsync(s: State, c: int)
    requires Shape(s) && IsSlot(c) && Scanned(s, c, |s.privs[s.cfg.priv[c]].table|)
    ensures var v := s.cfg.priv[c]; AsyncInv(SetPriv(s, v, s.privs[v].(active := true)))
  {
    var v := s.cfg.priv[c];
    var r := SetPriv(s, v, s.privs[v].(active := true));
    forall w | 0 <= w < NR_SYS_PROCS && r.privs[w].active ensures Announced(r, w, |r.privs[w].table|) {
      assert Announced(s, w, |s.privs[w].table|);
      assert forall j, d :: 0 <= d < NR_SLOTS && Pending(r, w, j, d) ==> Pending(s, w, j, d);
    }
    forall x | 0 <= x < |r.asyncLog| ensures Recorded(r, r.asyncLog[x]) {
      assert Recorded(s, s.asyncLog[x]);
    }
  }

  lemma MiniSendaAsync(s: State, c: int, table: seq<Entry>, mapped: bool)
    requires AsyncInv(s) && IsSlot(c) && !s.cfg.free[c]
    ensures AsyncInv(MiniSenda(s, c, table, mapped).state)
  {
    var v := s.cfg.priv[c];
    AsyncFrame(s, SetPriv(s, v, s.privs[v].(active := false)));
    if s.cfg.sysProc[v] {
      var s1 := SendaStart(s, c, table);
      SendaStartScanned(s, c, table);
      SendaScanScanned(s1, c, 0, true);
      var r := SendaScan(s1, c, 0, true);
      if r.status == OK && !r.done {
        ActivateAsync(r.state, c);
      }
    }
  }

  // ------------------------------------------------------- the other operations

  lemma CauseSigAsync(s: State, p: int, sig: int)
    requires AsyncInv(s) && IsSlot(p)
    ensures AsyncInv(CauseSig(s, p, sig))
  {
    AsyncFrame(s, CauseSig(s, p, sig));
  }

  lemma TakeCallerAsync(s: State, c: int, k: nat)
    requires AsyncInv(s) && IsSlot(c) && k < |s.callq[c]| && IsSlot(s.callq[c][k])
    ensures var x, s1 := s.callq[c][k], TakeQueued(s, c, k);
      AsyncInv(s1) && AsyncInv(SigDelayDone(s1, x))
  {
    var x, s1 := s.callq[c][k], TakeQueued(s, c, k);
    AsyncFrame(s, s1);
    var s2 := SetProc(s1, x, s1.procs[x].(sigDelay := false));
    AsyncFrame(s1, s2);
    CauseSigAsync(s2, x, SIGNDELAY);
  }

  lemma TakeNotifyAsync(s: State, c: int, id: int)
    requires AsyncInv(s) && IsSlot(c) && 0 <= id < NR_SYS_PROCS && s.cfg.owner[id] != NOBODY
    ensures AsyncInv(TakeNotify(s, c, id))
  {
    AsyncFrame(s, TakeNotify(s, c, id));
  }

  lemma ReceiveNowAsync(s: State, c: int, srcE: int)
    requires AsyncInv(s) && Refs(s) && IsSlot(c) && Live(s, c)
    requires srcE == ANY || IsSlot(SlotOf(srcE))
    ensures AsyncInv(ReceiveNow(s, c, srcE).state)
  {
    PickedOwner(s, c, srcE);
    var id := NotifyPick(s, c, srcE);
    var k := QueuePick(s, c, srcE);
    if s.procs[c].sending {
    } else if !s.procs[c].replyPend && id != NOBODY {
      TakeNotifyAsync(s, c, id);
    } else if k < |s.callq[c]| {
      TakeCallerAsync(s, c, k);
    } else if s.procs[c].asynMsg {
      TablesAsync(s, c, srcE);
    }
  }

  lemma TablesAsync(s: State, c: int, srcE: int)
    requires AsyncInv(s) && IsSlot(c) && Live(s, c) && (srcE == ANY || IsSlot(SlotOf(srcE)))
    ensures AsyncInv(if srcE != ANY then TryOne(s, SlotOf(srcE), c).state else TryAsync(s, c, 0, false).state)
  {
    if srcE != ANY {
      TryOneAsync(s, SlotOf(srcE), c);
    } else {
      TryAsyncAsync(s, c);
    }
  }

  lemma MiniReceiveAsync(s: State, c: int, srcE: int, mapped: bool, nonblocking: bool)
    requires AsyncInv(s) && Refs(s) && IsSlot(c) && Live(s, c)
    requires srcE == ANY || IsSlot(SlotOf(srcE))
    ensures AsyncInv(MiniReceive(s, c, srcE, mapped, nonblocking).state)
  {
    ReceiveNowAsync(s, c, srcE);
    var t := ReceiveNow(s, c, srcE).state;
    AsyncFrame(t, BlockReceiver(t, c, srcE));
  }

  lemma MiniSendAsync(s: State, c: int, dstE: int, buf: Buf, nonblocking: bool)
    requires AsyncInv(s) && IsSlot(c) && IsSlot(SlotOf(dstE))
    ensures AsyncInv(MiniSend(s, c, dstE, buf, nonblocking).state)
  {
    AsyncFrame(s, MiniSend(s, c, dstE, buf, nonblocking).state);
  }

  lemma SendRecAsync(s: State, c: int, ep: int, buf: Buf)
    requires AsyncInv(s) && Base(s) && Running(s, c) && OkEndpoint(s.cfg, ep)
    ensures AsyncInv(SendRec(s, c, ep, buf).state)
  {
    MiniSendAsync(s, c, ep, buf, false);
    if MiniSend(s, c, ep, buf, false).status == OK {
      AfterSend(s, c, ep, buf);
      MiniSendShape(s, c, ep, buf, false);
      MiniReceiveAsync(MiniSend(s, c, ep, buf, false).state, c, ep, buf.mapped, false);
    }
  }

  lemma ReceiveTrapAsync(s: State, c: int, ep: int, mapped: bool)
    requires AsyncInv(s) && Refs(s) && IsSlot(c) && Live(s, c)
    requires ep == ANY || IsSlot(SlotOf(ep))
    ensures AsyncInv(MiniReceive(WithReplyPend(s, c, false), c, ep, mapped, false).state)
  {
    AsyncFrame(s, WithReplyPend(s, c, false));
    MiniReceiveAsync(WithReplyPend(s, c, false), c, ep, mapped, false);
  }

  lemma SendRecTrapAsync(s: State, c: int, ep: int, buf: Buf)
    requires AsyncInv(s) && Base(s) && Running(s, c) && OkEndpoint(s.cfg, ep)
    ensures AsyncInv(SendRec(WithReplyPend(s, c, true), c, ep, buf).state)
  {
    var s1 := WithReplyPend(s, c, true);
    AsyncFrame(s, s1);
    ReplyPendKeeps(s, c, true);
    SendRecAsync(s1, c, ep, buf);
  }

  lemma MiniNotifyAsync(s: State, src: int, dstE: int)
    requires AsyncInv(s) && IsSlot(src)
    ensures AsyncInv(MiniNotify(s, src, dstE).state)
  {
    AsyncFrame(s, MiniNotify(s, src, dstE).state);
  }

  lemma SysCallAsync(s: State, c: int, call: Call)
    requires AsyncInv(s) && Base(s) && Running(s, c)
    ensures AsyncInv(SysCall(s, c, call).state)
  {
    if CallCheck(s, c, call) == OK && call.nr == SENDREC {
      SendRecTrapAsync(s, c, call.ep, call.buf);
      SendRecCall(s, c, call);
    } else {
      OtherTrapAsync(s, c, call);
    }
  }

  lemma SendRecCall(s: State, c: int, call: Call)
    requires Shape(s) && Refs(s) && IsSlot(c) && CallCheck(s, c, call) == OK && call.nr == SENDREC
    ensures SysCall(s, c, call) == SendRec(WithReplyPend(s, c, true), c, call.ep, call.buf)
  {
  }

  lemma OtherTrapAsync(s: State, c: int, call: Call)
    requires AsyncInv(s) && Refs(s) && IsSlot(c) && Live(s, c)
    requires CallCheck(s, c, call) != OK || call.nr != SENDREC
    ensures AsyncInv(SysCall(s, c, call).state)
  {
    if CallCheck(s, c, call) == OK {
      if call.nr == RECEIVE {
        ReceiveTrapAsync(s, c, call.ep, call.buf.mapped);
      } else if call.nr == NOTIFY {
        MiniNotifyAsync(s, c, call.ep);
      } else if call.nr == SENDA {
        MiniSendaAsync(s, c, call.table, call.buf.mapped);
      } else {
        MiniSendAsync(s, c, call.ep, call.buf, call.nr == SENDNB);
      }
    }
  }

  lemma ClearEndpointAsync(s: State, rc: int)
    requires AsyncInv(s) && IsSlot(rc)
    ensures AsyncInv(ClearEndpoint(s, rc))
  {
    var r := ClearEndpoint(s, rc);
    forall d | 0 <= d < NR_SLOTS
      ensures (s.procs[d].asynMsg ==> r.procs[d].asynMsg) && (s.procs[d].dead ==> r.procs[d].dead)
    {
    }
    AsyncFrame(s, r);
  }
}
