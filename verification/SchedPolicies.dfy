/** What the three policies of pick_proc choose. */
module SchedPolicies {
  import opened Seqs
  import opened Links
  import opened SchedSpec
  import opened SchedInv

  // ------------------------------------------------------------ all policies

  lemma ReadyIffQueue(s: State)
    requires Shape(s) && Queues(s)
    ensures FirstQueue(s.rdy, 0) == NR_QUEUES <==> forall i :: 0 <= i < |s.procs| ==> !s.procs[i].Runnable()
  {
    var q := FirstQueue(s.rdy, 0);
    if q < NR_QUEUES {
      assert QueueAt(s, q) && s.rdy[q][0] in s.rdy[q];
    } else {
      forall i | 0 <= i < |s.procs| ensures !s.procs[i].Runnable() {
        assert QueueAt(s, s.procs[i].prio);
        var k: nat := i;
        assert k in s.rdy[s.procs[i].prio] <==> s.procs[k].Runnable();
      }
    }
  }

  lemma HeadIsReady(s: State, q: nat)
    requires Shape(s) && Queues(s) && q < NR_QUEUES && s.rdy[q] != []
    ensures var h := s.rdy[q][0]; h < |s.procs| && s.procs[h].Runnable() && s.procs[h].prio == q
  {
    assert QueueAt(s, q) && s.rdy[q][0] in s.rdy[q];
  }

  // -------------------------------------------------------------- the lottery

  // The slots that hold tickets, each once.
  ghost predicate Fair(lots: seq<Lot>) {
    forall a, b :: 0 <= a < b < |lots| ==> lots[a].slot != lots[b].slot
  }

  // What the processes of queue q contribute.
  ghost function LotsAt(rdy: seq<seq<nat>>, q: nat): (r: seq<Lot>)
    requires |rdy| == NR_QUEUES && q < NR_QUEUES
    ensures |r| == |rdy[q]| && forall k :: 0 <= k < |r| ==> r[k] == Lot(rdy[q][k], NR_QUEUES - q)
    ensures Lots(rdy, q) == r + Lots(rdy, q + 1)
  {
    seq(|rdy[q]|, k requires 0 <= k < |rdy[q]| => Lot(rdy[q][k], NR_QUEUES - q))
  }

  // Lots belong to ready processes of queue q and up, with the tickets of their queue.
  ghost predicate LotOf(s: State, lot: Lot, q: nat) {
    && lot.slot < |s.procs| && s.procs[lot.slot].Runnable() && s.procs[lot.slot].prio >= q
    && lot.tickets == NR_QUEUES - s.procs[lot.slot].prio
  }

  lemma LotsAtHold(s: State, q: nat)
    requires Shape(s) && Queues(s) && q < NR_QUEUES
    ensures var here := LotsAt(s.rdy, q);
      Fair(here) && forall k :: 0 <= k < |here| ==> LotOf(s, here[k], q) && s.procs[here[k].slot].prio == q
  {
    assert QueueAt(s, q);
    var here := LotsAt(s.rdy, q);
    forall k | 0 <= k < |here| ensures LotOf(s, here[k], q) && s.procs[here[k].slot].prio == q {
      assert here[k].slot in s.rdy[q];
    }
  }

  lemma {:induction false} LotsHold(s: State, q: nat)
    requires Shape(s) && Queues(s) && q <= NR_QUEUES
    ensures var lots := Lots(s.rdy, q); Fair(lots) && forall k :: 0 <= k < |lots| ==> LotOf(s, lots[k], q)
    decreases NR_QUEUES - q
  {
    if q < NR_QUEUES {
      LotsHold(s, q + 1);
      LotsAtHold(s, q);
      var here, rest := LotsAt(s.rdy, q), Lots(s.rdy, q + 1);
      forall k | 0 <= k < |here + rest| ensures LotOf(s, (here + rest)[k], q) {
        assert k >= |here| ==> LotOf(s, rest[k - |here|], q + 1);
      }
      forall a, b | 0 <= a < b < |here + rest| ensures (here + rest)[a].slot != (here + rest)[b].slot {
        assert b >= |here| ==> LotOf(s, rest[b - |here|], q + 1);
      }
    }
  }

  lemma {:induction false} LotsComplete(s: State, q: nat, i: nat) returns (k: nat)
    requires Shape(s) && Queues(s) && q <= NR_QUEUES
    requires i < |s.procs| && s.procs[i].Runnable() && s.procs[i].prio >= q
    ensures k < |Lots(s.rdy, q)| && Lots(s.rdy, q)[k].slot == i
    decreases NR_QUEUES - q
  {
    assert QueueAt(s, q);
    var here := LotsAt(s.rdy, q);
    if s.procs[i].prio == q {
      k := MemberAt(s.rdy[q], i);
    } else {
      k := LotsComplete(s, q + 1, i);
      k := |here| + k;
    }
  }

  // The number of the first ticket of lot k.
  function FirstTicket(lots: seq<Lot>, k: nat): (r: nat)
    requires k <= |lots|
  {
    if k == 0 then 0 else lots[0].tickets + FirstTicket(lots[1..], k - 1)
  }

  lemma {:induction false} TicketsFit(lots: seq<Lot>, k: nat)
    requires k < |lots|
    ensures FirstTicket(lots, k) + lots[k].tickets <= Total(lots)
  {
    if k > 0 {
      TicketsFit(lots[1..], k - 1);
    }
  }

  // Lot k wins exactly with its own tickets.
  lemma {:induction false} WinsWithOwnTickets(lots: seq<Lot>, k: nat, draw: nat)
    requires Fair(lots) && k < |lots|
    ensures Winner(lots, draw) == lots[k].slot <==>
      FirstTicket(lots, k) <= draw < FirstTicket(lots, k) + lots[k].tickets
    decreases k
  {
    var rest := lots[1..];
    if draw < lots[0].tickets {
    } else if k > 0 {
      WinsWithOwnTickets(rest, k - 1, draw - lots[0].tickets);
    } else {
      WinnerMember(rest, draw - lots[0].tickets);
    }
  }

  ghost function Numbers(a: nat, b: nat): (r: set<nat>)
    ensures forall d :: d in r <==> a <= d < b
    ensures |r| == if a <= b then b - a else 0
    decreases b
  {
    if b <= a then {} else Numbers(a, b - 1) + {b - 1}
  }

  // The draws with which a slot wins.
  ghost function WinningDraws(lots: seq<Lot>, slot: nat): (r: set<nat>) {
    set d | d in Numbers(0, Total(lots)) && Winner(lots, d) == slot
  }

  lemma LotOdds(lots: seq<Lot>, k: nat)
    requires Fair(lots) && k < |lots|
    ensures |WinningDraws(lots, lots[k].slot)| == lots[k].tickets
  {
    var a := FirstTicket(lots, k);
    TicketsFit(lots, k);
    forall d: nat ensures d in WinningDraws(lots, lots[k].slot) <==> d in Numbers(a, a + lots[k].tickets) {
      WinsWithOwnTickets(lots, k, d);
    }
    assert WinningDraws(lots, lots[k].slot) == Numbers(a, a + lots[k].tickets);
  }

  /** The odds are exact: of all draws a ready process of queue q, 6 and up, wins
      exactly 16 - q. */
  lemma LotteryOdds(s: State, p: nat)
    requires Shape(s) && Queues(s) && p < |s.procs| && s.procs[p].Runnable() && s.procs[p].prio >= 6
    ensures |WinningDraws(Lots(s.rdy, 6), p)| == NR_QUEUES - s.procs[p].prio
  {
    LotsHold(s, 6);
    var lots := Lots(s.rdy, 6);
    var k := LotsComplete(s, 6, p);
    assert LotOf(s, lots[k], 6);
    LotOdds(lots, k);
  }

  lemma LotteryPicksReady(s: State, draw: nat)
    requires Shape(s) && Queues(s) && InRange(s) && FirstQueue(s.rdy, 0) >= 6
    ensures var r := Pick(s, Lottery, draw);
      && (r == NIL <==> forall i :: 0 <= i < |s.procs| ==> !s.procs[i].Runnable())
      && (r != NIL ==> s.procs[r].Runnable() && s.procs[r].prio >= 6)
  {
    var lots := Lots(s.rdy, 6);
    LotsHold(s, 6);
    if Total(lots) > 0 {
      WinnerMember(lots, draw % Total(lots));
    }
    forall i: nat | i < |s.procs| && s.procs[i].Runnable() ensures Total(lots) > 0 {
      assert QueueAt(s, s.procs[i].prio);
      assert i in s.rdy[s.procs[i].prio];
      assert s.procs[i].prio >= 6;
      var k := LotsComplete(s, 6, i);
      assert LotOf(s, lots[k], 6);
      TicketsFit(lots, k);
    }
  }

  // ------------------------------------------------------------------ deadlines

  predicate Urgent(p: Proc) {
    p.deadline > 0
  }

  predicate InTable(procs: seq<Proc>, list: seq<nat>) {
    forall k :: 0 <= k < |list| ==> list[k] < |procs|
  }

  ghost predicate NoneUrgent(procs: seq<Proc>, list: seq<nat>)
    requires InTable(procs, list)
  {
    forall j :: 0 <= j < |list| ==> !Urgent(procs[list[j]])
  }

  // Element k is the first of the list with the least positive deadline.
  ghost predicate EarliestAt(procs: seq<Proc>, list: seq<nat>, k: nat)
    requires InTable(procs, list)
  {
    && k < |list| && Urgent(procs[list[k]])
    && (forall j :: 0 <= j < |list| && Urgent(procs[list[j]]) ==>
          procs[list[k]].deadline <= procs[list[j]].deadline
          && (j < k ==> procs[list[k]].deadline < procs[list[j]].deadline))
  }

  ghost predicate EarliestFirst(procs: seq<Proc>, list: seq<nat>, x: nat)
    requires InTable(procs, list)
  {
    exists k: nat :: EarliestAt(procs, list, k) && list[k] == x
  }

  // The better of the first two of a list, as the scan compares them.
  function Better(procs: seq<Proc>, best: nat, t: nat): (r: nat)
    requires best < |procs| && t < |procs|
  {
    if Urgent(procs[t]) && (procs[best].deadline == 0 || (procs[best].deadline > 0 && procs[t].deadline < procs[best].deadline))
    then t else best
  }

  lemma {:induction false} EdfScanSpec(procs: seq<Proc>, best: nat, rest: seq<nat>)
    requires best < |procs| && InTable(procs, rest) && InTable(procs, [best] + rest)
    requires procs[best].deadline >= 0
    ensures var r := EdfScan(procs, best, rest);
      if NoneUrgent(procs, [best] + rest) then r == best else EarliestFirst(procs, [best] + rest, r)
    decreases |rest|
  {
    if rest == [] {
      assert [best] + rest == [best];
      if Urgent(procs[best]) {
        assert EarliestAt(procs, [best], 0);
      }
    } else {
      var b1, tail := Better(procs, best, rest[0]), rest[1..];
      EdfScanSpec(procs, b1, tail);
      var r := EdfScan(procs, b1, tail);
      EdfNone(procs, best, rest);
      if !NoneUrgent(procs, [b1] + tail) {
        var m: nat :| EarliestAt(procs, [b1] + tail, m) && ([b1] + tail)[m] == r;
        EdfLift(procs, best, rest, m);
      }
    }
  }

  lemma EdfNone(procs: seq<Proc>, best: nat, rest: seq<nat>)
    requires best < |procs| && rest != [] && InTable(procs, rest) && procs[best].deadline >= 0
    ensures InTable(procs, [best] + rest) && InTable(procs, [Better(procs, best, rest[0])] + rest[1..])
    ensures NoneUrgent(procs, [best] + rest) <==> NoneUrgent(procs, [Better(procs, best, rest[0])] + rest[1..])
    ensures NoneUrgent(procs, [best] + rest) ==> Better(procs, best, rest[0]) == best
  {
    var b1 := Better(procs, best, rest[0]);
    var all, all1 := [best] + rest, [b1] + rest[1..];
    assert all[0] == best && all[1] == rest[0] && all1[0] == b1;
    assert forall j :: 1 <= j < |all1| ==> all1[j] == all[j + 1];
    assert forall j :: 2 <= j < |all| ==> all[j] == all1[j - 1];
  }

  // From the list without its second element back to the whole list.
  lemma EdfLift(procs: seq<Proc>, best: nat, rest: seq<nat>, m: nat)
    requires best < |procs| && rest != [] && InTable(procs, rest) && procs[best].deadline >= 0
    requires var all1 := [Better(procs, best, rest[0])] + rest[1..];
      InTable(procs, all1) && EarliestAt(procs, all1, m)
    ensures EarliestFirst(procs, [best] + rest, ([Better(procs, best, rest[0])] + rest[1..])[m])
  {
    var b1 := Better(procs, best, rest[0]);
    var all, all1 := [best] + rest, [b1] + rest[1..];
    var k: nat := if m > 0 then m + 1 else if b1 == best then 0 else 1;
    assert all1[0] == b1 && all[0] == best && all[1] == rest[0];
    assert all[k] == all1[m];
    forall j | 0 <= j < |all| && Urgent(procs[all[j]])
      ensures procs[all[k]].deadline <= procs[all[j]].deadline
      ensures j < k ==> procs[all[k]].deadline < procs[all[j]].deadline
    {
      if j >= 2 {
        assert all[j] == all1[j - 1];
      }
    }
    assert EarliestAt(procs, all, k);
  }

  /** With deadlines that are not negative EDF takes the first process of queue 7 with
      the least positive deadline, and its head when none has one. */
  lemma EdfPicksEarliest(s: State, draw: nat)
    requires Shape(s) && Queues(s) && InRange(s) && FirstQueue(s.rdy, 0) == EDF_QUEUE
    requires forall i :: 0 <= i < |s.procs| ==> s.procs[i].deadline >= 0
    ensures var list, r := s.rdy[EDF_QUEUE], Pick(s, Edf, draw);
      InTable(s.procs, list) && r != NIL &&
      if NoneUrgent(s.procs, list) then r == list[0] else EarliestFirst(s.procs, list, r)
  {
    var list := s.rdy[EDF_QUEUE];
    HeadIsReady(s, EDF_QUEUE);
    EdfSkipHead(s.procs, list);
    assert [list[0]] + list[1..] == list;
    EdfScanSpec(s.procs, list[0], list[1..]);
  }

  // Comparing the head with itself changes nothing.
  lemma EdfSkipHead(procs: seq<Proc>, list: seq<nat>)
    requires list != [] && forall k :: 0 <= k < |list| ==> list[k] < |procs|
    ensures EdfScan(procs, list[0], list) == EdfScan(procs, list[0], list[1..])
  {
  }

  /** The policies are work-conserving, the lottery and EDF agree with the default
      policy whenever one of the queues 0 to 5 is not empty, and EDF always takes a
      process from the queue the default policy would use. */
  lemma PoliciesAgree(s: State, policy: Policy, draw: nat)
    requires Shape(s) && Queues(s) && InRange(s)
    ensures Pick(s, policy, draw) == NIL <==> forall i :: 0 <= i < |s.procs| ==> !s.procs[i].Runnable()
    ensures FirstQueue(s.rdy, 0) < 6 ==> Pick(s, policy, draw) == Pick(s, RoundRobin, draw)
    ensures var r := Pick(s, policy, draw); r != NIL ==> s.procs[r].Runnable()
    ensures var r := Pick(s, Edf, draw);
      r != NIL ==> Pick(s, RoundRobin, draw) != NIL && s.procs[r].prio == s.procs[Pick(s, RoundRobin, draw)].prio
  {
    ReadyIffQueue(s);
    var q := FirstQueue(s.rdy, 0);
    if q < NR_QUEUES {
      HeadIsReady(s, q);
      if q == EDF_QUEUE {
        EdfStaysInQueue(s);
      }
    }
    if q >= 6 {
      LotteryPicksReady(s, draw);
    }
  }

  lemma EdfStaysInQueue(s: State)
    requires Shape(s) && Queues(s) && InRange(s) && s.rdy[EDF_QUEUE] != []
    ensures var x := EdfScan(s.procs, s.rdy[EDF_QUEUE][0], s.rdy[EDF_QUEUE]);
      x < |s.procs| && s.procs[x].Runnable() && s.procs[x].prio == EDF_QUEUE
  {
    assert QueueAt(s, EDF_QUEUE);
    var list := s.rdy[EDF_QUEUE];
    assert list[0] in list;
    assert EdfScan(s.procs, list[0], list) in list;
  }
}
