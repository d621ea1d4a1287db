/**
 deadlock() against the graph of waits: where it is called it refuses exactly the
 blocking that would close a cycle, so cycles never arise, except when a process names
 itself.
 */
module IpcDeadlock {
  import opened WaitGraph
  import opened IpcState
  import opened IpcSteps
  import opened IpcInv
  import opened IpcCalls

  // The chain of waits from d meets c after at least one wait.
  ghost predicate ComesBack(g: Graph, d: int, c: int)
    requires IsNode(g, d)
  {
    exists k: nat :: 0 < k && Follow(g, d, k) == c
  }

  lemma FirstReturn(g: Graph, d: int, c: int) returns (k: nat)
    requires IsNode(g, d) && IsNode(g, c) && ComesBack(g, d, c)
    ensures 0 < k && BackAt(g, d, c, k)
  {
    var m: nat :| 0 < m && Follow(g, d, m) == c;
    k := 1;
    while Follow(g, d, k) != c
      invariant 0 < k <= m && forall j: nat :: 0 < j < k ==> Follow(g, d, j) != c
      decreases m - k
    {
      k := k + 1;
    }
  }

  lemma OneWait(s: State, d: int)
    requires Shape(s) && IsSlot(d)
    ensures Follow(Waits(s), d, 1) == WaitOf(s.procs[d], NR_SLOTS)
  {
    var g := Waits(s);
    assert Follow(g, d, 1) == Follow(g, g[d], 0);
  }

  // deadlock() without its two-process exception, when the exception cannot apply.
  lemma DeadlockedIsReturn(s: State, trap: Trap, c: int, d: int)
    requires Shape(s) && IsSlot(c) && IsSlot(d)
    requires WaitOf(s.procs[d], NR_SLOTS) == c ==> s.procs[d].sending == (trap == Send)
    ensures Deadlocked(s, trap, c, d) <==> ComesBack(Waits(s), d, c)
  {
    if ComesBack(Waits(s), d, c) {
      var k := FirstReturn(Waits(s), d, c);
      OneWait(s, d);
    }
  }

  /** At its call in mini_send, deadlock() finds exactly the chains that lead back. */
  lemma DeadlockExactForSend(s: State, c: int, dstE: int)
    requires Core(s) && Running(s, c) && OkEndpoint(s.cfg, dstE)
    requires !WillReceive(s.procs[SlotOf(dstE)], s.cfg.ep[c])
    ensures Deadlocked(s, Send, c, SlotOf(dstE)) <==> ComesBack(Waits(s), SlotOf(dstE), c)
  {
    assert BlockingAt(s, SlotOf(dstE));
    DeadlockedIsReturn(s, Send, c, SlotOf(dstE));
  }

  /** At its call in mini_receive too: a caller that already sends to c was taken from
      the queue, and in the second half of SENDREC the graph is already free of cycles. */
  lemma DeadlockExactForReceive(s: State, c: int, srcE: int)
    requires Core(s) && Running(s, c) && OkEndpoint(s.cfg, srcE)
    requires QueuePick(s, c, srcE) == |s.callq[c]|
    ensures Deadlocked(s, Receive, c, SlotOf(srcE)) <==> ComesBack(Waits(s), SlotOf(srcE), c)
  {
    var d := SlotOf(srcE);
    assert BlockingAt(s, d) && QueueAt(s, c);
    assert d in s.callq[c] <==> SendsTo(s, d, c);
    DeadlockedIsReturn(s, Receive, c, d);
  }

  lemma ReturnIsReach(g: Graph, d: int, c: int)
    requires IsNode(g, d) && IsNode(g, c) && d != c
    ensures Reaches(g, d, c) <==> ComesBack(g, d, c)
  {
    if Reaches(g, d, c) {
      var k: nat :| Follow(g, d, k) == c;
      assert Follow(g, d, 0) == d;
      assert 0 < k;
    }
  }

  lemma NotWaiting(s: State, c: int)
    requires Shape(s) && IsSlot(c) && !s.procs[c].sending && !s.procs[c].receiving
    ensures Waits(s)[c] == NOBODY && !ComesBack(Waits(s), c, c)
  {
    var g := Waits(s);
    forall k: nat | 0 < k ensures Follow(g, c, k) != c {
      assert Follow(g, c, k) == Follow(g, g[c], k - 1);
    }
  }

  /** Letting c wait for d keeps the graph acyclic if and only if c is not d and
      deadlock() found nothing. */
  lemma BlockingIsSafe(s: State, r: State, c: int, d: int)
    requires Shape(s) && Shape(r) && IsSlot(c) && IsSlot(d)
    requires Acyclic(Waits(s)) && !s.procs[c].sending && !s.procs[c].receiving
    requires Waits(r) == Waits(s)[c := d]
    ensures Acyclic(Waits(r)) <==> c != d && !ComesBack(Waits(s), d, c)
  {
    NotWaiting(s, c);
    BlockingClosesCycle(Waits(s), c, d);
    if c == d {
      assert Follow(Waits(s), c, 0) == c;
    } else {
      ReturnIsReach(Waits(s), d, c);
    }
  }

  // Steps that only release processes.
  lemma WaitsFrame(s: State, r: State)
    requires Shape(s) && Shape(r) && Acyclic(Waits(s))
    requires forall i :: 0 <= i < NR_SLOTS ==>
      WaitOf(r.procs[i], NR_SLOTS) == NOBODY || WaitOf(r.procs[i], NR_SLOTS) == WaitOf(s.procs[i], NR_SLOTS)
    ensures Acyclic(Waits(r))
  {
    FewerWaits(Waits(s), Waits(r));
  }

  lemma BlockSenderAcyclic(s: State, c: int, dstE: int, body: int)
    requires Core(s) && Acyclic(Waits(s)) && Running(s, c) && OkEndpoint(s.cfg, dstE)
    requires !WillReceive(s.procs[SlotOf(dstE)], s.cfg.ep[c]) && !Deadlocked(s, Send, c, SlotOf(dstE))
    ensures Acyclic(Waits(BlockSender(s, c, dstE, body))) <==> c != SlotOf(dstE)
  {
    var r := BlockSender(s, c, dstE, body);
    DeadlockExactForSend(s, c, dstE);
    assert Waits(r) == Waits(s)[c := SlotOf(dstE)];
    BlockingIsSafe(s, r, c, SlotOf(dstE));
  }

  lemma BlockReceiverAcyclic(s: State, c: int, srcE: int)
    requires Core(s) && Acyclic(Waits(s)) && Running(s, c) && OkEndpoint(s.cfg, srcE)
    requires QueuePick(s, c, srcE) == |s.callq[c]| && !Deadlocked(s, Receive, c, SlotOf(srcE))
    ensures Acyclic(Waits(BlockReceiver(s, c, srcE))) <==> c != SlotOf(srcE)
  {
    var r := BlockReceiver(s, c, srcE);
    OkIsNotAny(s.cfg, srcE);
    DeadlockExactForReceive(s, c, srcE);
    assert Waits(r) == Waits(s)[c := SlotOf(srcE)];
    BlockingIsSafe(s, r, c, SlotOf(srcE));
  }

  // --------------------------------------------------- when the walk of deadlock() ends

  // The walk from d has gone k rounds and neither met c nor come to the end of the chain.
  ghost predicate StillWalking(g: Graph, d: int, c: int, k: nat)
    requires IsNode(g, d)
  {
    forall j: nat :: 0 < j <= k ==> Follow(g, d, j) != c && Follow(g, d, j) != NOBODY
  }

  // The chain from d comes to c or to an end.
  ghost predicate WalkEnds(g: Graph, d: int, c: int)
    requires IsNode(g, d)
  {
    exists k: nat :: 0 < k && (Follow(g, d, k) == c || Follow(g, d, k) == NOBODY)
  }

  /** The walk leaves its loop if and only if the chain of waits comes to the caller or to
      an end. */
  lemma WalkEndsIff(g: Graph, d: int, c: int)
    requires IsNode(g, d)
    ensures WalkEnds(g, d, c) <==> exists k: nat :: !StillWalking(g, d, c, k)
  {
    if k: nat :| 0 < k && (Follow(g, d, k) == c || Follow(g, d, k) == NOBODY) {
      assert !StillWalking(g, d, c, k);
    }
  }

  lemma {:induction false} AcyclicWalkEnds(g: Graph, rank: seq<nat>, d: int, c: int)
    requires IsNode(g, d) && IsNode(g, c) && Ranked(g[c := NOBODY], rank)
    ensures WalkEnds(g, d, c)
    decreases if d == c then 1 else 0, rank[d]
  {
    assert Follow(g, d, 1) == Follow(g, g[d], 0);
    if g[d] != NOBODY && g[d] != c {
      assert d != c ==> g[c := NOBODY][d] == g[d];
      AcyclicWalkEnds(g, rank, g[d], c);
      var k: nat :| 0 < k && (Follow(g, g[d], k) == c || Follow(g, g[d], k) == NOBODY);
      assert Follow(g, d, k + 1) == Follow(g, g[d], k);
    }
  }

  // The waits without those of processes that wait for themselves.
  function WithoutLoops(g: Graph): (h: Graph)
    ensures |h| == |g| && forall i :: 0 <= i < |g| ==> h[i] == if g[i] == i then NOBODY else g[i]
  {
    seq(|g|, i requires 0 <= i < |g| => if g[i] == i then NOBODY else g[i])
  }

  ghost predicate ReachesLoop(g: Graph, d: int)
    requires IsNode(g, d)
  {
    exists j: nat :: IsNode(g, Follow(g, d, j)) && g[Follow(g, d, j)] == Follow(g, d, j)
  }

  lemma LoopIsEndless(g: Graph, d: int, c: int, j: nat)
    requires IsNode(g, d) && IsNode(g, c) && g[c] == NOBODY
    requires IsNode(g, Follow(g, d, j)) && g[Follow(g, d, j)] == Follow(g, d, j)
    ensures !WalkEnds(g, d, c)
  {
    var p := Follow(g, d, j);
    forall k: nat | 0 < k ensures Follow(g, d, k) != c && Follow(g, d, k) != NOBODY {
      if k <= j {
        FollowCompose(g, d, k, j - k);
        NobodyStays(g, j - k);
        CallerEnds(g, c, j - k);
      } else {
        FollowCompose(g, d, j, k - j);
        LoopStays(g, p, k - j);
      }
    }
  }

  lemma {:induction false} LoopStays(g: Graph, p: int, k: nat)
    requires IsNode(g, p) && g[p] == p
    ensures Follow(g, p, k) == p
  {
    if k > 0 {
      LoopStays(g, p, k - 1);
    }
  }

  lemma CallerEnds(g: Graph, c: int, k: nat)
    requires IsNode(g, c) && g[c] == NOBODY
    ensures k > 0 ==> Follow(g, c, k) == NOBODY
  {
  }

  lemma NobodyStays(g: Graph, k: nat)
    ensures Follow(g, NOBODY, k) == NOBODY
  {
  }

  lemma {:induction false} LooplessWalkEnds(g: Graph, rank: seq<nat>, d: int, c: int)
    requires IsNode(g, d) && IsNode(g, c) && Ranked(WithoutLoops(g), rank) && !ReachesLoop(g, d)
    ensures WalkEnds(g, d, c)
    decreases rank[d]
  {
    assert Follow(g, d, 0) == d;
    assert Follow(g, d, 1) == Follow(g, g[d], 0);
    if g[d] != NOBODY {
      assert !ReachesLoop(g, g[d]) by {
        forall j: nat | IsNode(g, Follow(g, g[d], j)) ensures g[Follow(g, g[d], j)] != Follow(g, g[d], j) {
          assert Follow(g, d, j + 1) == Follow(g, g[d], j);
        }
      }
      LooplessWalkEnds(g, rank, g[d], c);
      var k: nat :| 0 < k && (Follow(g, g[d], k) == c || Follow(g, g[d], k) == NOBODY);
      assert Follow(g, d, k + 1) == Follow(g, g[d], k);
    }
  }

  /** When nothing but processes that wait for themselves lies on a cycle, the walk for a
      running caller ends if and only if its chain leads to none of them. */
  lemma WalkEndsWithLoops(g: Graph, d: int, c: int)
    requires IsNode(g, d) && IsNode(g, c) && g[c] == NOBODY && Acyclic(WithoutLoops(g))
    ensures WalkEnds(g, d, c) <==> !ReachesLoop(g, d)
  {
    if ReachesLoop(g, d) {
      var j: nat :| IsNode(g, Follow(g, d, j)) && g[Follow(g, d, j)] == Follow(g, d, j);
      LoopIsEndless(g, d, c, j);
    } else {
      var rank: seq<nat> :| Ranked(WithoutLoops(g), rank);
      LooplessWalkEnds(g, rank, d, c);
    }
  }

  // ---------------------------------------------------------------- calls that return

  // mini_send comes back: it does not get to its walk, or the walk ends.
  ghost predicate SendReturns(s: State, c: int, dstE: int, buf: Buf, nonblocking: bool)
    requires Shape(s) && IsSlot(c) && IsSlot(SlotOf(dstE))
  {
    var d := SlotOf(dstE);
    nonblocking || !buf.mapped || s.procs[d].dead || WillReceive(s.procs[d], s.cfg.ep[c]) || WalkEnds(Waits(s), d, c)
  }

  ghost predicate ReceiveReturns(s: State, c: int, srcE: int, mapped: bool)
    requires Shape(s) && Refs(s) && IsSlot(c) && (srcE == ANY || IsSlot(SlotOf(srcE)))
  {
    srcE == ANY || !mapped || s.procs[SlotOf(srcE)].dead || ReceiveNow(s, c, srcE).delivered
    || WalkEnds(Waits(s), SlotOf(srcE), c)
  }

  ghost predicate SendRecReturns(s: State, c: int, ep: int, buf: Buf)
    requires Shape(s) && Refs(s) && IsSlot(c) && IsSlot(SlotOf(ep))
  {
    var m := MiniSend(s, c, ep, buf, false);
    MiniSendShape(s, c, ep, buf, false);
    SendReturns(s, c, ep, buf, false) && (m.status == OK ==> ReceiveReturns(m.state, c, ep, buf.mapped))
  }

  // The trap comes back.
  ghost predicate Returns(s: State, c: int, call: Call)
    requires Shape(s) && Refs(s) && IsSlot(c)
  {
    CallCheck(s, c, call) == OK ==>
      if call.nr == SEND then SendReturns(s, c, call.ep, call.buf, false)
      else if call.nr == RECEIVE then ReceiveReturns(WithReplyPend(s, c, false), c, call.ep, call.buf.mapped)
      else if call.nr == SENDREC then SendRecReturns(WithReplyPend(s, c, true), c, call.ep, call.buf)
      else true
  }
}
