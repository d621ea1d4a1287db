/** clear_endpoint keeps the invariants and leaves nobody waiting for the dead. */
module IpcDeath {
  import opened Seqs
  import opened IpcState
  import opened IpcSteps
  import opened IpcInv

  // Endpoints in use and slots determine each other.
  lemma SameSlot(g: Config, e: int, i: int)
    requires ConfigOk(g) && OkEndpoint(g, e) && IsSlot(i)
    ensures SlotOf(e) == i <==> e == g.ep[i]
  {
  }

  lemma ReleasedSends(s: State, rc: int, x: int)
    requires Core(s) && IsSlot(rc) && IsSlot(x)
    ensures var p, q := s.procs[x], ClearEndpoint(s, rc).procs[x];
      && (q.sending <==> p.sending && x != rc && SlotOf(p.sendto) != rc)
      && (q.receiving ==> p.receiving && x != rc && (p.getfrom == ANY || SlotOf(p.getfrom) != rc))
      && q == p.(dead := q.dead, sending := q.sending, receiving := q.receiving, retreg := q.retreg)
      && (q.dead <==> p.dead || x == rc)
  {
    var p, q := s.procs[x], ClearedProcs(s, rc)[x];
    assert BlockingAt(s, x);
    if p.sending {
      SameSlot(s.cfg, p.sendto, rc);
    }
    if p.receiving && p.getfrom != ANY {
      SameSlot(s.cfg, p.getfrom, rc);
    }
    assert x != rc ==> q == if s.cfg.free[x] then p else Released(p, s.cfg.ep[rc]);
  }

  lemma ClearBlocking(s: State, rc: int)
    requires Core(s) && IsSlot(rc)
    ensures Blocking(ClearEndpoint(s, rc))
  {
    var r := ClearEndpoint(s, rc);
    forall i | 0 <= i < NR_SLOTS ensures BlockingAt(r, i) {
      assert BlockingAt(s, i);
      ReleasedSends(s, rc, i);
      if r.procs[i].sending {
        ReleasedSends(s, rc, SlotOf(s.procs[i].sendto));
      }
      if r.procs[i].receiving && r.procs[i].getfrom != ANY {
        ReleasedSends(s, rc, SlotOf(s.procs[i].getfrom));
      }
    }
  }

  lemma ClearRefs(s: State, rc: int)
    requires Core(s) && IsSlot(rc)
    ensures Refs(ClearEndpoint(s, rc))
  {
    var r := ClearEndpoint(s, rc);
    forall i, k | 0 <= i < NR_SLOTS && 0 <= k < |r.callq[i]| ensures r.callq[i][k] < NR_SLOTS {
      if r.callq[i] != s.callq[i] {
        var j := Find(s.callq[i], rc);
        assert r.callq[i][k] == s.callq[i][if k < j then k else k + 1];
      }
    }
  }

  lemma ClearQueues(s: State, rc: int)
    requires Core(s) && IsSlot(rc)
    ensures Queues(ClearEndpoint(s, rc))
  {
    var r := ClearEndpoint(s, rc);
    forall i | 0 <= i < NR_SLOTS && Live(r, i) ensures QueueAt(r, i) {
      ReleasedSends(s, rc, i);
      assert QueueAt(s, i);
      RemoveKeeps(s.callq[i], rc);
      assert rc in s.callq[i] <==> SendsTo(s, rc, i);
      forall x: nat ensures x in r.callq[i] <==> SendsTo(r, x, i) {
        assert x in s.callq[i] <==> SendsTo(s, x, i);
        if IsSlot(x) {
          ReleasedSends(s, rc, x);
        }
      }
    }
  }

  lemma ClearRendezvous(s: State, rc: int)
    requires Core(s) && IsSlot(rc)
    ensures Rendezvous(ClearEndpoint(s, rc))
  {
    var r := ClearEndpoint(s, rc);
    forall p, x | 0 <= p < NR_SLOTS && 0 <= x < NR_SLOTS && SendsTo(r, x, p)
      ensures !WillReceive(r.procs[p], r.cfg.ep[x])
    {
      ReleasedSends(s, rc, x);
      ReleasedSends(s, rc, p);
      assert SendsTo(s, x, p) && BlockingAt(s, p);
    }
  }

  // Where an element of a queue was before the dead process was cut out of it.
  ghost function Before(s: State, rc: int, i: int, a: nat): (a': nat)
    requires Shape(s) && IsSlot(rc) && IsSlot(i)
  {
    if ClearEndpoint(s, rc).callq[i] != s.callq[i] && Find(s.callq[i], rc) <= a then a + 1 else a
  }

  lemma QueueCut(s: State, rc: int, i: int, a: nat)
    requires Core(s) && IsSlot(rc) && IsSlot(i) && a < |ClearEndpoint(s, rc).callq[i]|
    ensures var r, b := ClearEndpoint(s, rc), Before(s, rc, i, a);
      && b < |s.callq[i]| && r.callq[i][a] == s.callq[i][b] && s.callq[i][b] < NR_SLOTS
      && Tag(r.procs[r.callq[i][a]]) == Tag(s.procs[s.callq[i][b]])
  {
    ReleasedSends(s, rc, s.callq[i][Before(s, rc, i, a)]);
  }

  lemma ClearArrival(s: State, rc: int)
    requires Core(s) && Mail(s) && IsSlot(rc)
    ensures Refs(ClearEndpoint(s, rc)) && Arrival(ClearEndpoint(s, rc))
  {
    ClearRefs(s, rc);
    var r := ClearEndpoint(s, rc);
    forall i | 0 <= i < NR_SLOTS && Live(r, i) ensures ArrivalAt(r, i) {
      ReleasedSends(s, rc, i);
      assert ArrivalAt(s, i);
      forall a, b | 0 <= a < b < |r.callq[i]|
        ensures Tag(r.procs[r.callq[i][a]]) < Tag(r.procs[r.callq[i][b]])
      {
        QueueCut(s, rc, i, a);
        QueueCut(s, rc, i, b);
      }
    }
  }

  lemma ClearDelivery(s: State, rc: int)
    requires Core(s) && Mail(s) && IsSlot(rc)
    ensures Delivery(ClearEndpoint(s, rc))
  {
    var r := ClearEndpoint(s, rc);
    forall x | 0 <= x < NR_SLOTS ensures SenderHolds(r, x) && ReceiverHolds(r, x) {
      assert SenderHolds(s, x) && ReceiverHolds(s, x);
      ReleasedSends(s, rc, x);
    }
    forall t | 0 <= t < |r.log| ensures PlaceHeld(r, t) {
      assert PlaceHeld(s, t);
      if r.log[t].place == AtSender {
        assert SenderHolds(s, s.log[t].src);
        ReleasedSends(s, rc, s.log[t].src);
      } else if r.log[t].place == AtReceiver {
        ReleasedSends(s, rc, s.log[t].dst);
      }
    }
  }

  lemma ClearEndpointKeeps(s: State, rc: int)
    requires Base(s) && IsSlot(rc)
    ensures Base(ClearEndpoint(s, rc))
  {
    ClearBlocking(s, rc);
    ClearQueues(s, rc);
    ClearRendezvous(s, rc);
    ClearArrival(s, rc);
    ClearDelivery(s, rc);
    ReleasedSends(s, rc, PM);
    var r := ClearEndpoint(s, rc);
    forall i | 0 <= i < NR_SLOTS && OwnPriv(r.cfg, i) && r.procs[i].receiving && r.procs[i].getfrom == ANY
      ensures r.privs[r.cfg.priv[i]].notify == {}
    {
      ReleasedSends(s, rc, i);
    }
  }

  /** After clear_endpoint nobody sends to or receives from the dead process, it is on
      no queue of a live process, its table is gone and so are its pending bits; those
      who waited for it were released, with ESRCDIED or EDSTDIED. */
  lemma NobodyWaitsForDead(s: State, rc: int)
    requires Base(s) && IsSlot(rc) && !s.cfg.free[rc]
    ensures var r := ClearEndpoint(s, rc);
      && r.procs[rc].dead && !r.procs[rc].sending && !r.procs[rc].receiving
      && (forall x :: 0 <= x < NR_SLOTS ==> WaitOf(r.procs[x], NR_SLOTS) != rc && !SendsTo(r, x, rc))
      && (forall i :: 0 <= i < NR_SLOTS && Live(r, i) ==> rc !in r.callq[i])
      && (s.cfg.sysProc[s.cfg.priv[rc]] ==> !r.privs[s.cfg.priv[rc]].active)
      && (forall i :: 0 <= i < NR_SLOTS && !s.cfg.free[i] ==> s.cfg.priv[rc] !in r.privs[s.cfg.priv[i]].notify)
      && (forall x :: 0 <= x < NR_SLOTS && x != rc && WaitOf(s.procs[x], NR_SLOTS) == rc ==>
            && !r.procs[x].receiving && !r.procs[x].sending
            && r.procs[x].retreg == if s.procs[x].sending then EDSTDIED else ESRCDIED)
  {
    var r := ClearEndpoint(s, rc);
    forall x | 0 <= x < NR_SLOTS
      ensures WaitOf(r.procs[x], NR_SLOTS) != rc && !SendsTo(r, x, rc)
      ensures x != rc && WaitOf(s.procs[x], NR_SLOTS) == rc ==>
        && !r.procs[x].receiving && !r.procs[x].sending
        && r.procs[x].retreg == if s.procs[x].sending then EDSTDIED else ESRCDIED
    {
      ReleasedSends(s, rc, x);
      assert BlockingAt(s, x);
    }
    ClearQueues(s, rc);
    forall i | 0 <= i < NR_SLOTS && Live(r, i) ensures rc !in r.callq[i] {
      assert QueueAt(r, i);
      assert rc in r.callq[i] <==> SendsTo(r, rc, i);
    }
    forall i | 0 <= i < NR_SLOTS && !s.cfg.free[i] ensures s.cfg.priv[rc] !in r.privs[s.cfg.priv[i]].notify {
      assert InUse(s, s.cfg.priv[i]);
    }
  }

  /** Nobody else is touched: processes that did not wait for the dead one, bits that are not
      its own, the tables of others, and messages that are neither from nor to it. */
  lemma DeathSparesOthers(s: State, rc: int)
    requires Base(s) && IsSlot(rc) && !s.cfg.free[rc]
    ensures var r := ClearEndpoint(s, rc);
      && (forall x :: 0 <= x < NR_SLOTS && x != rc && WaitOf(s.procs[x], NR_SLOTS) != rc ==> r.procs[x] == s.procs[x])
      && (forall j :: 0 <= j < NR_SYS_PROCS ==>
            && r.privs[j] == s.privs[j].(notify := r.privs[j].notify, active := r.privs[j].active)
            && s.privs[j].notify - {s.cfg.priv[rc]} <= r.privs[j].notify <= s.privs[j].notify
            && (j != s.cfg.priv[rc] || !s.cfg.sysProc[j] ==> r.privs[j].active == s.privs[j].active))
      && |r.log| == |s.log|
      && (forall t :: 0 <= t < |s.log| ==>
            var m := s.log[t];
            r.log[t] == if m.place == AtSender && (m.src == rc || m.dst == rc) then m.(place := Withdrawn) else m)
  {
    var r := ClearEndpoint(s, rc);
    forall x | 0 <= x < NR_SLOTS && x != rc && WaitOf(s.procs[x], NR_SLOTS) != rc ensures r.procs[x] == s.procs[x] {
      NotWaitingStays(s, rc, x);
    }
    forall j | 0 <= j < NR_SYS_PROCS ensures PrivSpared(s.privs[j], r.privs[j], s.cfg.priv[rc]) {
      assert r.privs[j] == ClearedPrivs(s, rc)[j];
    }
  }

  predicate PrivSpared(v: Priv, w: Priv, bit: nat) {
    w == v.(notify := w.notify, active := w.active) && v.notify - {bit} <= w.notify <= v.notify
  }

  lemma NotWaitingStays(s: State, rc: int, x: int)
    requires Core(s) && IsSlot(rc) && IsSlot(x) && x != rc && WaitOf(s.procs[x], NR_SLOTS) != rc
    ensures ClearEndpoint(s, rc).procs[x] == s.procs[x]
  {
    assert BlockingAt(s, x);
    var p := s.procs[x];
    if p.sending {
      SameSlot(s.cfg, p.sendto, rc);
    }
    assert SlotOf(s.cfg.ep[rc]) == rc;
  }
}
