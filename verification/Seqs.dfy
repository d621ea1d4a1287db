/** Facts about duplicate-free sequences, used for the queues of the kernel. */
module Seqs {

  predicate NoDup<T(==)>(q: seq<T>) {
    forall a, b :: 0 <= a < b < |q| ==> q[a] != q[b]
  }

  function RemoveAt<T>(q: seq<T>, k: nat): (r: seq<T>)
    requires k < |q|
    ensures |r| == |q| - 1
    ensures forall j :: 0 <= j < |r| ==> r[j] == if j < k then q[j] else q[j + 1]
  {
    q[..k] + q[k + 1..]
  }

  // The first position of x, or |q| when x does not occur.
  function Find<T(==)>(q: seq<T>, x: T): (k: nat)
    ensures k <= |q|
    ensures k < |q| ==> q[k] == x
    ensures forall j :: 0 <= j < k ==> q[j] != x
    ensures k < |q| <==> x in q
  {
    if q == [] then 0 else if q[0] == x then 0 else
      assert x in q <==> x in q[1..];
      1 + Find(q[1..], x)
  }

  function Remove<T(==)>(q: seq<T>, x: T): (r: seq<T>) {
    var k := Find(q, x);
    if k < |q| then RemoveAt(q, k) else q
  }

  lemma MemberAt<T>(q: seq<T>, x: T) returns (k: nat)
    requires x in q
    ensures k < |q| && q[k] == x
  {
    k :| 0 <= k < |q| && q[k] == x;
  }

  lemma SomeMember<T>(q: seq<T>)
    ensures q == [] || exists x :: x in q
  {
    if q != [] {
      assert q[0] in q;
    }
  }

  lemma RemoveAtKeeps<T>(q: seq<T>, k: nat)
    requires k < |q| && NoDup(q)
    ensures NoDup(RemoveAt(q, k))
    ensures forall x :: x in RemoveAt(q, k) <==> x in q && x != q[k]
  {
    var r := RemoveAt(q, k);
    forall x ensures x in r <==> x in q && x != q[k] {
      if x in r {
        var j := MemberAt(r, x);
        assert x == q[if j < k then j else j + 1];
      }
      if x in q && x != q[k] {
        var j := MemberAt(q, x);
        assert x == r[if j < k then j else j - 1];
      }
    }
  }

  lemma RemoveKeeps<T>(q: seq<T>, x: T)
    requires NoDup(q)
    ensures NoDup(Remove(q, x))
    ensures forall y :: y in Remove(q, x) <==> y in q && y != x
  {
    var k := Find(q, x);
    if k < |q| {
      RemoveAtKeeps(q, k);
    }
  }

  lemma AppendKeeps<T>(q: seq<T>, x: T)
    requires NoDup(q) && x !in q
    ensures NoDup(q + [x]) && NoDup([x] + q)
    ensures forall y :: y in q + [x] <==> y in q || y == x
    ensures forall y :: y in [x] + q <==> y in q || y == x
  {
    assert (q + [x])[|q|] == x;
  }
}
