/**
 The graph of blocked processes: each slot waits for at most one other slot.
 A cycle in it is a deadlock.  Acyclicity is stated twice, as the absence of a
 cyclic path and as the existence of a rank that falls along every edge; the two
 are proved equal, so that proofs can use the rank and readers the paths.
 */
module WaitGraph {

  const NOBODY := -1

  // g[i] is the slot that slot i waits for, or NOBODY.
  type Graph = g: seq<int> | forall i :: 0 <= i < |g| ==> NOBODY <= g[i] < |g| witness []

  predicate IsNode(g: Graph, i: int) {
    0 <= i < |g|
  }

  // The slot reached from i after k waits, NOBODY once the chain has ended.
  function Follow(g: Graph, i: int, k: nat): (r: int)
    requires i == NOBODY || IsNode(g, i)
    ensures r == NOBODY || IsNode(g, r)
    decreases k
  {
    if i == NOBODY || k == 0 then i else Follow(g, g[i], k - 1)
  }

  ghost predicate Reaches(g: Graph, i: int, j: int)
    requires IsNode(g, i)
  {
    exists k: nat :: Follow(g, i, k) == j
  }

  ghost predicate NoCycle(g: Graph) {
    forall i, k: nat :: IsNode(g, i) && 0 < k ==> Follow(g, i, k) != i
  }

  ghost predicate Ranked(g: Graph, rank: seq<nat>) {
    |rank| == |g| && forall i :: 0 <= i < |g| && g[i] != NOBODY ==> rank[g[i]] < rank[i]
  }

  ghost predicate Acyclic(g: Graph) {
    exists rank: seq<nat> :: Ranked(g, rank)
  }

  lemma {:induction false} FollowCompose(g: Graph, i: int, a: nat, b: nat)
    requires i == NOBODY || IsNode(g, i)
    ensures Follow(g, i, a + b) == Follow(g, Follow(g, i, a), b)
    decreases a
  {
    if i != NOBODY && a != 0 {
      FollowCompose(g, g[i], a - 1, b);
    }
  }

  lemma {:induction false} RankFalls(g: Graph, rank: seq<nat>, i: int, k: nat)
    requires Ranked(g, rank) && IsNode(g, i) && 0 < k
    ensures Follow(g, i, k) != NOBODY ==> rank[Follow(g, i, k)] < rank[i]
    decreases k
  {
    if g[i] == NOBODY {
      assert Follow(g, g[i], k - 1) == NOBODY;
    } else if 1 < k {
      RankFalls(g, rank, g[i], k - 1);
    } else {
      assert Follow(g, g[i], 0) == g[i];
    }
  }

  lemma RankedNoCycle(g: Graph, rank: seq<nat>)
    requires Ranked(g, rank)
    ensures NoCycle(g)
  {
    forall i, k: nat | IsNode(g, i) && 0 < k ensures Follow(g, i, k) != i {
      RankFalls(g, rank, i, k);
    }
  }

  // The first k + 1 slots of the chain that starts at i.
  ghost function Visited(g: Graph, i: int, k: nat): set<int>
    requires IsNode(g, i)
  {
    set j: nat | j <= k :: Follow(g, i, j)
  }

  lemma LastIsFresh(g: Graph, i: int, k: nat)
    requires NoCycle(g) && IsNode(g, i) && k > 0 && Follow(g, i, k) != NOBODY
    ensures Follow(g, i, k) !in Visited(g, i, k - 1)
  {
    var last := Follow(g, i, k);
    if last in Visited(g, i, k - 1) {
      var j: nat :| j <= k - 1 && Follow(g, i, j) == last;
      FollowCompose(g, i, j, k - j);
      assert false;
    }
  }

  lemma {:induction false} ChainVisitsFresh(g: Graph, i: int, k: nat)
    requires NoCycle(g) && IsNode(g, i) && Follow(g, i, k) != NOBODY
    ensures |Visited(g, i, k)| == k + 1
    ensures Visited(g, i, k) <= Slots(|g|)
    decreases k
  {
    if k == 0 {
      assert Visited(g, i, 0) == {i};
    } else {
      FollowCompose(g, i, k - 1, 1);
      assert Follow(g, i, k - 1) != NOBODY;
      ChainVisitsFresh(g, i, k - 1);
      var last := Follow(g, i, k);
      LastIsFresh(g, i, k);
      assert Visited(g, i, k) == Visited(g, i, k - 1) + {last};
    }
  }

  ghost function Slots(n: nat): (r: set<int>)
    ensures |r| == n && forall x :: x in r <==> 0 <= x < n
  {
    if n == 0 then {} else Slots(n - 1) + {n - 1}
  }

  lemma SubsetSize(a: set<int>, b: set<int>)
    requires a <= b
    ensures |a| <= |b|
  {
    assert b == a + (b - a);
  }

  // Without a cycle every chain ends within |g| waits.
  lemma ChainEnds(g: Graph, i: int)
    requires NoCycle(g) && IsNode(g, i)
    ensures Follow(g, i, |g|) == NOBODY
  {
    if Follow(g, i, |g|) != NOBODY {
      ChainVisitsFresh(g, i, |g|);
      SubsetSize(Visited(g, i, |g|), Slots(|g|));
    }
  }

  // How many waits a chain that ends within bound takes.
  ghost function ChainLength(g: Graph, i: int, bound: nat): (r: nat)
    requires i == NOBODY || IsNode(g, i)
    decreases bound
  {
    if i == NOBODY || bound == 0 then 0 else 1 + ChainLength(g, g[i], bound - 1)
  }

  lemma {:induction false} ChainLengthStable(g: Graph, i: int, a: nat, b: nat)
    requires i == NOBODY || IsNode(g, i)
    requires Follow(g, i, a) == NOBODY && a <= b
    ensures ChainLength(g, i, a) == ChainLength(g, i, b)
    decreases a
  {
    if i != NOBODY {
      ChainLengthStable(g, g[i], a - 1, b - 1);
    }
  }

  lemma NoCycleRanked(g: Graph)
    requires NoCycle(g)
    ensures Acyclic(g)
  {
    var rank := seq(|g|, i requires 0 <= i < |g| => ChainLength(g, i, |g|));
    forall i | 0 <= i < |g| && g[i] != NOBODY ensures rank[g[i]] < rank[i] {
      ChainEnds(g, i);
      ChainLengthStable(g, g[i], |g| - 1, |g|);
    }
    assert Ranked(g, rank);
  }

  /** The two readings of "no deadlock" agree. */
  lemma AcyclicIffNoCycle(g: Graph)
    ensures Acyclic(g) <==> NoCycle(g)
  {
    if Acyclic(g) {
      var rank :| Ranked(g, rank);
      RankedNoCycle(g, rank);
    }
    if NoCycle(g) {
      NoCycleRanked(g);
    }
  }

  lemma {:induction false} FollowBefore(g: Graph, c: int, d: int, i: int, k: nat)
    requires IsNode(g, c) && IsNode(g, d) && (i == NOBODY || IsNode(g, i))
    requires forall j: nat :: j < k ==> Follow(g, i, j) != c
    ensures Follow(g[c := d], i, k) == Follow(g, i, k)
    decreases k
  {
    if i != NOBODY && k != 0 {
      assert Follow(g, i, 0) == i;
      forall j: nat | j < k - 1 ensures Follow(g, g[i], j) != c {
        assert Follow(g, i, j + 1) == Follow(g, g[i], j);
      }
      FollowBefore(g, c, d, g[i], k - 1);
    }
  }

  lemma {:induction false} FirstVisit(g: Graph, i: int, c: int, k: nat) returns (m: nat)
    requires IsNode(g, i) && c != NOBODY && Follow(g, i, k) == c
    ensures m <= k && Follow(g, i, m) == c && forall j: nat :: j < m ==> Follow(g, i, j) != c
  {
    m := 0;
    while Follow(g, i, m) != c
      invariant m <= k && forall j: nat :: j < m ==> Follow(g, i, j) != c
      decreases k - m
    {
      m := m + 1;
    }
  }

  /** Letting an unblocked slot c wait for d keeps the graph free of deadlock
      exactly when d does not already wait, directly or not, for c. */
  lemma BlockingClosesCycle(g: Graph, c: int, d: int)
    requires Acyclic(g) && IsNode(g, c) && IsNode(g, d) && g[c] == NOBODY
    ensures Acyclic(g[c := d]) <==> !Reaches(g, d, c)
  {
    if Reaches(g, d, c) {
      var k: nat :| Follow(g, d, k) == c;
      var m := FirstVisit(g, d, c, k);
      FollowBefore(g, c, d, d, m);
      assert Follow(g[c := d], c, m + 1) == c;
      AcyclicIffNoCycle(g[c := d]);
    } else {
      var rank :| Ranked(g, rank);
      RankAfterBlocking(g, c, d, rank);
    }
  }

  lemma RankAfterBlocking(g: Graph, c: int, d: int, rank: seq<nat>)
    requires Ranked(g, rank) && IsNode(g, c) && IsNode(g, d) && g[c] == NOBODY
    requires !Reaches(g, d, c)
    ensures Acyclic(g[c := d])
  {
    var up := seq(|g|, i requires 0 <= i < |g| =>
      if Reaches(g, i, c) then rank[i] + rank[d] + 1 else rank[i]);
    assert Follow(g, c, 0) == c;
    var h: Graph := g[c := d];
    forall i {:trigger IsNode(h, i)} | IsNode(h, i) && h[i] != NOBODY ensures up[h[i]] < up[i] {
      if i != c {
        if Reaches(g, g[i], c) {
          var k: nat :| Follow(g, g[i], k) == c;
          assert Follow(g, i, k + 1) == c;
        } else if Reaches(g, i, c) {
          var k: nat :| Follow(g, i, k) == c;
          assert Follow(g, g[i], k - 1) == c;
        }
      }
    }
    assert forall i :: 0 <= i < |h| && h[i] != NOBODY ==> IsNode(h, i);
    assert Ranked(h, up);
  }

  // Unblocking slots, or leaving them alone, cannot create a deadlock.
  lemma FewerWaits(g: Graph, h: Graph)
    requires Acyclic(g) && |h| == |g|
    requires forall i :: 0 <= i < |g| ==> h[i] == NOBODY || h[i] == g[i]
    ensures Acyclic(h)
  {
    var rank :| Ranked(g, rank);
    assert Ranked(h, rank);
  }

  lemma NobodyWaits(g: Graph)
    requires forall i :: 0 <= i < |g| ==> g[i] == NOBODY
    ensures Acyclic(g)
  {
    assert Ranked(g, seq(|g|, _ => 0));
  }
}
