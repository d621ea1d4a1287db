/**
 Singly linked lists threaded through a table: next[x] is the slot after x, NIL at the
 end.  A list is represented by its head, its tail and the sequence of its slots.
 */
module Links {
  import opened Seqs

  const NIL := -1

  ghost predicate Chained(next: seq<int>, l: seq<nat>) {
    && (forall k :: 0 <= k < |l| ==> l[k] < |next|)
    && (forall k {:trigger next[l[k]]} :: 0 <= k < |l| ==> next[l[k]] == At(l, k + 1))
  }

  ghost predicate ListAt(next: seq<int>, head: int, l: seq<nat>) {
    && Chained(next, l)
    && head == if l == [] then NIL else l[0]
  }

  // The slot at position k of the list, NIL past its end.
  ghost function At(l: seq<nat>, k: nat): (r: int) {
    if k < |l| then l[k] else NIL
  }

  ghost function Last(l: seq<nat>): (r: int) {
    if l == [] then NIL else l[|l| - 1]
  }

  lemma ChainFrame(next: seq<int>, next': seq<int>, l: seq<nat>)
    requires Chained(next, l) && |next'| == |next|
    requires forall x :: 0 <= x < |next| && x in l ==> next'[x] == next[x]
    ensures Chained(next', l)
  {
    forall k | 0 <= k < |l| ensures next'[l[k]] == next[l[k]] {
      assert l[k] in l;
    }
  }

  lemma PushFront(next: seq<int>, l: seq<nat>, x: nat)
    requires Chained(next, l) && NoDup(l) && x < |next| && x !in l
    ensures Chained(next[x := At(l, 0)], [x] + l)
  {
    var n, m := next[x := At(l, 0)], [x] + l;
    forall k | 0 <= k < |m| ensures n[m[k]] == At(m, k + 1) {
      assert k + 1 < |m| ==> m[k + 1] == l[k];
      if k > 0 {
        assert m[k] == l[k - 1] && l[k - 1] in l;
        assert next[l[k - 1]] == At(l, k);
      }
    }
  }

  lemma PushBack(next: seq<int>, l: seq<nat>, x: nat)
    requires Chained(next, l) && NoDup(l) && x < |next| && x !in l
    ensures l != [] ==> Chained(next[Last(l) := x][x := NIL], l + [x])
    ensures l == [] ==> Chained(next[x := NIL], [x])
  {
    if l != [] {
      var n, m := next[Last(l) := x][x := NIL], l + [x];
      forall k | 0 <= k < |m| ensures n[m[k]] == At(m, k + 1) {
        if k < |l| {
          assert m[k] == l[k] && l[k] in l;
          assert next[l[k]] == At(l, k + 1);
        }
      }
    }
  }

  // Taking out element k: the element before it now leads to the one after it.
  lemma Unlink(next: seq<int>, l: seq<nat>, k: nat)
    requires Chained(next, l) && NoDup(l) && k < |l|
    ensures k == 0 ==> Chained(next, RemoveAt(l, k)) && next[l[k]] == At(RemoveAt(l, k), 0)
    ensures k > 0 ==> Chained(next[l[k - 1] := next[l[k]]], RemoveAt(l, k))
    ensures Last(RemoveAt(l, k)) == if k == |l| - 1 then (if k == 0 then NIL else l[k - 1]) else Last(l)
  {
    var m := RemoveAt(l, k);
    var n := if k > 0 then next[l[k - 1] := next[l[k]]] else next;
    forall j | 0 <= j < |m| ensures n[m[j]] == At(m, j + 1) {
      UnlinkAt(next, l, k, j);
    }
    assert next[l[k]] == At(l, k + 1);
  }

  lemma UnlinkAt(next: seq<int>, l: seq<nat>, k: nat, j: nat)
    requires Chained(next, l) && NoDup(l) && k < |l| && j < |l| - 1
    ensures var m := RemoveAt(l, k);
      var n := if k > 0 then next[l[k - 1] := next[l[k]]] else next;
      n[m[j]] == At(m, j + 1)
  {
    var i := if j < k then j else j + 1;
    assert next[l[k]] == At(l, k + 1);
    assert next[l[i]] == At(l, i + 1);
  }

  // ------------------------------------------------------- a family of lists

  ghost predicate ListOk(next: seq<int>, head: int, tail: int, l: seq<nat>) {
    ListAt(next, head, l) && NoDup(l) && (l != [] ==> tail == Last(l))
  }

  ghost predicate Disjoint(lists: seq<seq<nat>>) {
    forall q, r, x: nat :: 0 <= q < |lists| && 0 <= r < |lists| && x in lists[q] && x in lists[r] ==> q == r
  }

  // Heads and tails for lists that share one table and no slot.
  ghost predicate Family(next: seq<int>, head: seq<int>, tail: seq<int>, lists: seq<seq<nat>>) {
    && |head| == |tail| == |lists|
    && (forall q {:trigger ListOk(next, head[q], tail[q], lists[q])} :: 0 <= q < |lists| ==> ListOk(next, head[q], tail[q], lists[q]))
    && Disjoint(lists)
  }

  // Links of slots of list q change: the other lists stay as they are.
  lemma OthersStay(next: seq<int>, next': seq<int>, head: seq<int>, tail: seq<int>, lists: seq<seq<nat>>, q: int)
    requires Family(next, head, tail, lists) && 0 <= q < |lists| && |next'| == |next|
    requires forall x, r :: 0 <= x < |next| && 0 <= r < |lists| && r != q && x in lists[r] ==> next'[x] == next[x]
    ensures forall r :: 0 <= r < |lists| && r != q ==> ListOk(next', head[r], tail[r], lists[r])
  {
    forall r | 0 <= r < |lists| && r != q ensures ListOk(next', head[r], tail[r], lists[r]) {
      assert ListOk(next, head[r], tail[r], lists[r]);
      ChainFrame(next, next', lists[r]);
    }
  }

  // The links after element k of list l was taken out.
  function Cut(next: seq<int>, prev: int, x: nat): (r: seq<int>)
    requires x < |next| && prev < |next|
  {
    if prev < 0 then next else next[prev := next[x]]
  }

  lemma TakeOut(next: seq<int>, head: seq<int>, tail: seq<int>, lists: seq<seq<nat>>, q: int, k: nat)
    requires Family(next, head, tail, lists) && 0 <= q < |lists| && k < |lists[q]|
    ensures var l := lists[q];
      && l[k] < |next| && (k > 0 ==> l[k - 1] < |next|)
      && var prev := if k == 0 then NIL else l[k - 1];
      && Family(Cut(next, prev, l[k]),
                if k == 0 then head[q := next[l[k]]] else head,
                if l[k] == tail[q] then tail[q := prev] else tail,
                lists[q := RemoveAt(l, k)])
  {
    var l := lists[q];
    assert ListOk(next, head[q], tail[q], l);
    Unlink(next, l, k);
    RemoveAtKeeps(l, k);
    var prev := if k == 0 then NIL else l[k - 1];
    if k > 0 {
      assert l[k - 1] in l;
    }
    OthersStay(next, Cut(next, prev, l[k]), head, tail, lists, q);
  }

  lemma PutFirst(next: seq<int>, head: seq<int>, tail: seq<int>, lists: seq<seq<nat>>, q: int, x: nat)
    requires Family(next, head, tail, lists) && 0 <= q < |lists| && x < |next|
    requires forall r :: 0 <= r < |lists| ==> x !in lists[r]
    ensures Family(next[x := head[q]], head[q := x], if lists[q] == [] then tail[q := x] else tail,
                   lists[q := [x] + lists[q]])
  {
    assert ListOk(next, head[q], tail[q], lists[q]);
    PushFront(next, lists[q], x);
    AppendKeeps(lists[q], x);
    OthersStay(next, next[x := head[q]], head, tail, lists, q);
  }

  lemma PutLast(next: seq<int>, head: seq<int>, tail: seq<int>, lists: seq<seq<nat>>, q: int, x: nat)
    requires Family(next, head, tail, lists) && 0 <= q < |lists| && x < |next|
    requires lists[q] != [] && forall r :: 0 <= r < |lists| ==> x !in lists[r]
    ensures 0 <= tail[q] < |next|
      && Family(next[tail[q] := x][x := NIL], head, tail[q := x], lists[q := lists[q] + [x]])
  {
    var l := lists[q];
    assert ListOk(next, head[q], tail[q], l);
    assert l[|l| - 1] in l;
    PushBack(next, l, x);
    AppendKeeps(l, x);
    OthersStay(next, next[tail[q] := x][x := NIL], head, tail, lists, q);
  }
}
