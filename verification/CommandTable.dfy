/**
 The command hash table of the shell: chains of entries, with the place of the last
 lookup kept for a deletion that may follow.
 */
module CommandTable {
  import opened Options
  import opened PathSearch

  const CMDTABLESIZE := 31

  datatype Entry = Entry(name: string, cmd: Cmd, rehash: bool)

  function Sum(s: string): (n: nat) {
    if s == "" then 0 else s[0] as int + Sum(s[1..])
  }

  function Hash(name: string): (h: nat)
    ensures h < CMDTABLESIZE
  {
    ((if name == "" then 0 else name[0] as int * 16) + Sum(name)) % 0x8000 % CMDTABLESIZE
  }

  // -------------------------------------------------------------------- a chain

  // The position of a name in a chain, its length when it is not there.
  function IndexIn(ch: seq<Entry>, name: string): (k: nat)
    ensures k <= |ch| && (k < |ch| ==> ch[k].name == name)
    ensures forall j :: 0 <= j < k ==> ch[j].name != name
  {
    if ch == [] || ch[0].name == name then 0 else 1 + IndexIn(ch[1..], name)
  }

  function Find(ch: seq<Entry>, name: string): (r: Option<Entry>)
    ensures r.Some? ==> r.value.name == name
  {
    var k := IndexIn(ch, name);
    if k < |ch| then Some(ch[k]) else None
  }

  ghost predicate Distinct(ch: seq<Entry>) {
    forall i, j :: 0 <= i < j < |ch| ==> ch[i].name != ch[j].name
  }

  ghost predicate Hashed(ch: seq<Entry>, c: nat) {
    forall k {:trigger Hash(ch[k].name)} :: 0 <= k < |ch| ==> Hash(ch[k].name) == c
  }

  ghost predicate ChainOk(ch: seq<Entry>, c: nat) {
    Hashed(ch, c) && Distinct(ch)
  }

  lemma FindAt(ch: seq<Entry>, k: nat)
    requires Distinct(ch) && k < |ch|
    ensures Find(ch, ch[k].name) == Some(ch[k]) && IndexIn(ch, ch[k].name) == k
  {
    assert forall i :: 0 <= i < k ==> ch[i].name != ch[k].name;
    IndexIs(ch, k);
  }

  lemma {:induction false} IndexIs(ch: seq<Entry>, k: nat)
    requires k < |ch| && forall i :: 0 <= i < k ==> ch[i].name != ch[k].name
    ensures IndexIn(ch, ch[k].name) == k
  {
    if k > 0 {
      assert ch[0].name != ch[k].name;
      IndexIs(ch[1..], k - 1);
    }
  }

  lemma FindUpdate(ch: seq<Entry>, k: nat, e: Entry, n: string)
    requires Distinct(ch) && k < |ch| && e.name == ch[k].name
    ensures Distinct(ch[k := e])
    ensures Find(ch[k := e], n) == if n == e.name then Some(e) else Find(ch, n)
  {
    var ch' := ch[k := e];
    var a, b := IndexIn(ch, n), IndexIn(ch', n);
    assert a < |ch| ==> ch'[a].name == n;
    assert b < |ch| ==> ch[b].name == n;
    if n == e.name {
      FindAt(ch', k);
    }
  }

  lemma FindAppend(ch: seq<Entry>, e: Entry, n: string)
    requires Distinct(ch) && IndexIn(ch, e.name) == |ch|
    ensures Distinct(ch + [e])
    ensures Find(ch + [e], n) == if n == e.name then Some(e) else Find(ch, n)
  {
    var ch' := ch + [e];
    var a := IndexIn(ch, n);
    if a < |ch| {
      assert ch'[a] == ch[a];
      FindAt(ch', a);
    } else if n == e.name {
      assert ch'[|ch|] == e;
      FindAt(ch', |ch|);
    }
  }

  lemma FindRemove(ch: seq<Entry>, k: nat, n: string)
    requires Distinct(ch) && k < |ch|
    ensures Distinct(ch[..k] + ch[k + 1..])
    ensures Find(ch[..k] + ch[k + 1..], n) == if n == ch[k].name then None else Find(ch, n)
  {
    var ch' := ch[..k] + ch[k + 1..];
    assert forall j :: 0 <= j < |ch'| ==> ch'[j] == ch[if j < k then j else j + 1];
    var a, b := IndexIn(ch, n), IndexIn(ch', n);
    if b < |ch'| {
      FindAt(ch, if b < k then b else b + 1);
    }
    assert a < |ch| && a != k ==> ch'[if a < k then a else a - 1] == ch[a];
  }

  // ------------------------------------------------------------------ all chains

  ghost predicate TableOk(chains: seq<seq<Entry>>) {
    |chains| == CMDTABLESIZE && forall c {:trigger chains[c]} :: 0 <= c < CMDTABLESIZE ==> ChainOk(chains[c], c)
  }

  ghost function GetIn(chains: seq<seq<Entry>>, n: string): (r: Option<Entry>)
    requires |chains| == CMDTABLESIZE
    ensures r.Some? ==> r.value.name == n
  {
    Find(chains[Hash(n)], n)
  }

  function Without(ch: seq<Entry>, k: nat): (r: seq<Entry>)
    requires k < |ch|
  {
    ch[..k] + ch[k + 1..]
  }

  // A table without the k-th entry of chain c.
  lemma RemovedGet(chains: seq<seq<Entry>>, c: nat, k: nat, n: string)
    requires TableOk(chains) && c < CMDTABLESIZE && k < |chains[c]|
    ensures GetIn(chains[c := Without(chains[c], k)], n) == if n == chains[c][k].name then None else GetIn(chains, n)
  {
    var ch := chains[c];
    assert ChainOk(ch, c);
    FindRemove(ch, k, n);
    assert Hash(ch[k].name) == c;
  }

  lemma RemovedOk(chains: seq<seq<Entry>>, c: nat, k: nat)
    requires TableOk(chains) && c < CMDTABLESIZE && k < |chains[c]|
    ensures TableOk(chains[c := Without(chains[c], k)])
  {
    var ch, ch' := chains[c], Without(chains[c], k);
    assert ChainOk(ch, c);
    FindRemove(ch, k, "");
    forall j | 0 <= j < |ch'| ensures Hash(ch'[j].name) == c {
      assert ch'[j] == ch[if j < k then j else j + 1];
      assert Hash(ch[if j < k then j else j + 1].name) == c;
    }
  }

  // What hashcd makes of an entry.
  function Marked(e: Entry, builtinloc: int): (r: Entry)
    ensures r.name == e.name && r.cmd == e.cmd
  {
    if e.cmd.Normal? || (e.cmd.Builtin? && builtinloc >= 0) then e.(rehash := true) else e
  }

  lemma FindMarked(ch: seq<Entry>, ch': seq<Entry>, builtinloc: int, n: string)
    requires |ch'| == |ch| && forall k :: 0 <= k < |ch| ==> ch'[k] == Marked(ch[k], builtinloc)
    ensures Distinct(ch) ==> Distinct(ch')
    ensures Find(ch', n) == if Find(ch, n).Some? then Some(Marked(Find(ch, n).value, builtinloc)) else None
  {
    var a, b := IndexIn(ch, n), IndexIn(ch', n);
    assert a < |ch| ==> ch'[a].name == n;
    assert b < |ch| ==> ch[b].name == n;
  }

  // What clearcmdentry leaves of a chain.
  function Kept(ch: seq<Entry>, from: int, builtinloc: int): (r: seq<Entry>) {
    if ch == [] then [] else KeptOne(ch[0], from, builtinloc) + Kept(ch[1..], from, builtinloc)
  }

  function KeptOne(e: Entry, from: int, builtinloc: int): (r: seq<Entry>) {
    if Stale(e.cmd, from, builtinloc) then [] else [e]
  }

  lemma {:induction false} KeptMembers(ch: seq<Entry>, from: int, builtinloc: int)
    ensures forall e :: e in Kept(ch, from, builtinloc) <==> e in ch && !Stale(e.cmd, from, builtinloc)
  {
    if ch != [] {
      KeptMembers(ch[1..], from, builtinloc);
      assert forall e :: e in ch <==> e == ch[0] || e in ch[1..];
    }
  }

  lemma {:induction false} KeptAppend(ch: seq<Entry>, e: Entry, from: int, builtinloc: int)
    ensures Kept(ch + [e], from, builtinloc)
      == Kept(ch, from, builtinloc) + KeptOne(e, from, builtinloc)
  {
    if ch == [] {
      assert ch + [e] == [e] && [e][1..] == [];
    } else {
      assert (ch + [e])[1..] == ch[1..] + [e];
      KeptAppend(ch[1..], e, from, builtinloc);
      assert KeptOne(ch[0], from, builtinloc) + (Kept(ch[1..], from, builtinloc) + KeptOne(e, from, builtinloc))
        == Kept(ch, from, builtinloc) + KeptOne(e, from, builtinloc);
    }
  }

  lemma {:induction false} KeptDistinct(ch: seq<Entry>, from: int, builtinloc: int)
    requires Distinct(ch)
    ensures Distinct(Kept(ch, from, builtinloc))
  {
    if ch != [] {
      KeptDistinct(ch[1..], from, builtinloc);
      KeptMembers(ch[1..], from, builtinloc);
      var rest := Kept(ch[1..], from, builtinloc);
      forall j | 0 <= j < |rest| ensures rest[j].name != ch[0].name {
        assert rest[j] in rest;
        var i :| 0 <= i < |ch[1..]| && ch[1..][i] == rest[j];
        assert ch[i + 1] == rest[j];
      }
    }
  }

  lemma FindKept(ch: seq<Entry>, from: int, builtinloc: int, n: string)
    requires Distinct(ch)
    ensures Distinct(Kept(ch, from, builtinloc))
    ensures Find(Kept(ch, from, builtinloc), n) ==
      if Find(ch, n).Some? && !Stale(Find(ch, n).value.cmd, from, builtinloc) then Find(ch, n) else None
  {
    var r := Kept(ch, from, builtinloc);
    KeptMembers(ch, from, builtinloc);
    KeptDistinct(ch, from, builtinloc);
    var a, b := IndexIn(ch, n), IndexIn(r, n);
    if b < |r| {
      assert r[b] in r;
      var i :| 0 <= i < |ch| && ch[i] == r[b];
      FindAt(ch, i);
    }
    assert a < |ch| && !Stale(ch[a].cmd, from, builtinloc) ==> ch[a] in r;
  }

  lemma Middle(a: seq<Entry>, e: Entry, b: seq<Entry>)
    ensures var s := a + ([e] + b);
      && s[|a|] == e && s[..|a|] + s[|a| + 1..] == a + b && s == (a + [e]) + b
  {
  }

  lemma WalkStep(ch0: seq<Entry>, i: nat, from: int, builtinloc: int)
    requires i < |ch0|
    ensures var a, b := Kept(ch0[..i], from, builtinloc), Kept(ch0[..i + 1], from, builtinloc);
      var ch := a + ch0[i..];
      && ch[|a|] == ch0[i]
      && (if Stale(ch0[i].cmd, from, builtinloc)
          then b == a && ch[..|a|] + ch[|a| + 1..] == b + ch0[i + 1..]
          else |b| == |a| + 1 && ch == b + ch0[i + 1..])
  {
    assert ch0[..i + 1] == ch0[..i] + [ch0[i]] && ch0[i..] == [ch0[i]] + ch0[i + 1..];
    KeptAppend(ch0[..i], ch0[i], from, builtinloc);
    Middle(Kept(ch0[..i], from, builtinloc), ch0[i], ch0[i + 1..]);
  }

  // The walk of clearcmdentry along a chain.
  method ClearChain(ch0: seq<Entry>, from: int, builtinloc: int) returns (ch: seq<Entry>)
    ensures ch == Kept(ch0, from, builtinloc)
  {
    ch := ch0;
    var pos := 0;
    ghost var i := 0;
    while pos < |ch|
      invariant 0 <= i <= |ch0| && pos == |Kept(ch0[..i], from, builtinloc)|
      invariant ch == Kept(ch0[..i], from, builtinloc) + ch0[i..]
      decreases |ch0| - i
    {
      WalkStep(ch0, i, from, builtinloc);
      if Stale(ch[pos].cmd, from, builtinloc) {
        ch := ch[..pos] + ch[pos + 1..];
      } else {
        pos := pos + 1;
      }
      i := i + 1;
    }
    assert ch0[..i] == ch0;
  }

  // --------------------------------------------------------------------- the table

  class Table {
    var chains: seq<seq<Entry>>
    var lastChain: nat           // lastcmdentry: the link that was followed last
    var lastPos: nat

    constructor ()
      ensures Valid() && forall n: string :: Get(n) == None
    {
      chains := seq(CMDTABLESIZE, _ => []);
      lastChain, lastPos := 0, 0;
    }

    ghost predicate Valid()
      reads this
    {
      TableOk(chains)
    }

    ghost function Get(n: string): (r: Option<Entry>)
      reads this
      requires |chains| == CMDTABLESIZE
      ensures r.Some? ==> r.value.name == n
    {
      GetIn(chains, n)
    }

    // The last lookup was for this name.
    ghost predicate At(name: string)
      reads this
    {
      |chains| == CMDTABLESIZE && lastChain == Hash(name) && lastPos == IndexIn(chains[Hash(name)], name)
    }

    // cmdlookup without adding.
    method Lookup(name: string) returns (e: Option<Entry>)
      requires Valid()
      modifies this`lastChain, this`lastPos
      ensures Valid() && At(name) && e == Get(name) && forall n: string :: Get(n) == old(Get(n))
    {
      lastChain := Hash(name);
      var ch := chains[lastChain];
      var k := 0;
      while k < |ch| && ch[k].name != name
        invariant 0 <= k <= |ch| && forall j :: 0 <= j < k ==> ch[j].name != name
      {
        k := k + 1;
      }
      lastPos := k;
      assert k == IndexIn(ch, name);
      e := if k < |ch| then Some(ch[k]) else None;
    }

    // A chain is replaced: the names of the other chains keep their entries.
    lemma ChainReplaced(c: nat, was: seq<seq<Entry>>, ch: seq<Entry>)
      requires |was| == CMDTABLESIZE && c < CMDTABLESIZE && chains == was[c := ch] && ChainOk(ch, c)
      requires forall d {:trigger was[d]} :: 0 <= d < CMDTABLESIZE ==> ChainOk(was[d], d)
      ensures Valid()
      ensures forall n: string :: Get(n) == Find(if Hash(n) == c then ch else was[Hash(n)], n)
    {
    }

    // The entry of the last lookup is appended or overwritten.
    method Put(e: Entry)
      requires Valid() && At(e.name)
      modifies this`chains
      ensures Valid() && At(e.name)
      ensures forall n: string :: Get(n) == if n == e.name then Some(e) else old(Get(n))
    {
      ghost var was := chains;
      var c, ch := lastChain, chains[lastChain];
      var ch' := if lastPos == |ch| then ch + [e] else ch[lastPos := e];
      chains := chains[c := ch'];
      forall n: string ensures Distinct(ch') && Find(ch', n) == if n == e.name then Some(e) else Find(ch, n) {
        if lastPos == |ch| {
          FindAppend(ch, e, n);
        } else {
          FindUpdate(ch, lastPos, e, n);
        }
      }
      assert Hashed(ch', c) by {
        forall k | 0 <= k < |ch'| ensures Hash(ch'[k].name) == c {
          assert k < |ch| ==> Hash(ch[k].name) == c;
        }
      }
      FindAt(ch', lastPos);
      ChainReplaced(c, was, ch');
    }

    // cmdlookup with adding, and the assignments to the entry that follow it.
    method Enter(e: Entry)
      requires Valid()
      modifies this
      ensures Valid() && At(e.name)
      ensures forall n: string :: Get(n) == if n == e.name then Some(e) else old(Get(n))
    {
      var found := Lookup(e.name);
      if found.None? {
        Put(Entry(e.name, Unknown, false));
      }
      Put(e);
    }

    // delete_cmd_entry
    method DeleteLast(ghost name: string)
      requires Valid() && At(name) && Get(name).Some?
      modifies this`chains
      ensures Valid()
      ensures forall n: string :: Get(n) == if n == name then None else old(Get(n))
    {
      RemovedOk(chains, lastChain, lastPos);
      forall n: string ensures GetIn(chains[lastChain := Without(chains[lastChain], lastPos)], n)
                               == if n == name then None else GetIn(chains, n)
      {
        RemovedGet(chains, lastChain, lastPos, n);
      }
      chains := chains[lastChain := Without(chains[lastChain], lastPos)];
    }

    // hashcd
    method MarkAll(builtinloc: int)
      requires Valid()
      modifies this`chains
      ensures Valid()
      ensures forall n: string ::
        Get(n) == if old(Get(n)).Some? then Some(Marked(old(Get(n)).value, builtinloc)) else None
    {
      ghost var was := chains;
      var c := 0;
      while c < CMDTABLESIZE
        invariant 0 <= c <= CMDTABLESIZE && |chains| == CMDTABLESIZE
        invariant forall d :: c <= d < CMDTABLESIZE ==> chains[d] == was[d]
        invariant forall d :: 0 <= d < c ==> MarkedChain(was[d], chains[d], builtinloc)
      {
        var ch := chains[c];
        var k := 0;
        while k < |ch|
          invariant 0 <= k <= |ch| == |was[c]|
          invariant forall j :: 0 <= j < |ch| ==> ch[j] == if j < k then Marked(was[c][j], builtinloc) else was[c][j]
        {
          if ch[k].cmd.Normal? || (ch[k].cmd.Builtin? && builtinloc >= 0) {
            ch := ch[k := ch[k].(rehash := true)];
          }
          k := k + 1;
        }
        chains := chains[c := ch];
        c := c + 1;
      }
      forall d | 0 <= d < CMDTABLESIZE ensures ChainOk(chains[d], d) {
        MarkedChainOk(was[d], chains[d], d, builtinloc);
      }
      forall n: string
        ensures Get(n) == if Find(was[Hash(n)], n).Some? then Some(Marked(Find(was[Hash(n)], n).value, builtinloc)) else None
      {
        FindMarked(was[Hash(n)], chains[Hash(n)], builtinloc, n);
      }
    }

    // clearcmdentry
    method ClearFromEntry(from: int, builtinloc: int)
      requires Valid()
      modifies this`chains
      ensures Valid()
      ensures forall n: string ::
        Get(n) == if old(Get(n)).Some? && !Stale(old(Get(n)).value.cmd, from, builtinloc) then old(Get(n)) else None
    {
      ghost var was := chains;
      var c := 0;
      while c < CMDTABLESIZE
        invariant 0 <= c <= CMDTABLESIZE && |chains| == CMDTABLESIZE
        invariant forall d :: c <= d < CMDTABLESIZE ==> chains[d] == was[d]
        invariant forall d :: 0 <= d < c ==> chains[d] == Kept(was[d], from, builtinloc)
      {
        var ch := ClearChain(chains[c], from, builtinloc);
        chains := chains[c := ch];
        c := c + 1;
      }
      forall d | 0 <= d < CMDTABLESIZE ensures ChainOk(chains[d], d) {
        KeptChainOk(was[d], d, from, builtinloc);
      }
      forall n: string
        ensures Get(n) == if Find(was[Hash(n)], n).Some? && !Stale(Find(was[Hash(n)], n).value.cmd, from, builtinloc)
                          then Find(was[Hash(n)], n) else None
      {
        FindKept(was[Hash(n)], from, builtinloc, n);
      }
    }
  }

  ghost predicate MarkedChain(ch: seq<Entry>, ch': seq<Entry>, builtinloc: int) {
    |ch'| == |ch| && forall k :: 0 <= k < |ch| ==> ch'[k] == Marked(ch[k], builtinloc)
  }

  lemma MarkedChainOk(ch: seq<Entry>, ch': seq<Entry>, c: nat, builtinloc: int)
    requires ChainOk(ch, c) && MarkedChain(ch, ch', builtinloc)
    ensures ChainOk(ch', c)
  {
    FindMarked(ch, ch', builtinloc, "");
    forall k | 0 <= k < |ch'| ensures Hash(ch'[k].name) == c {
      assert Hash(ch[k].name) == c;
    }
  }

  lemma KeptChainOk(ch: seq<Entry>, c: nat, from: int, builtinloc: int)
    requires ChainOk(ch, c)
    ensures ChainOk(Kept(ch, from, builtinloc), c)
  {
    var r := Kept(ch, from, builtinloc);
    KeptDistinct(ch, from, builtinloc);
    KeptMembers(ch, from, builtinloc);
    forall k | 0 <= k < |r| ensures Hash(r[k].name) == c {
      assert r[k] in r;
      var i :| 0 <= i < |ch| && ch[i] == r[k];
      assert Hash(ch[i].name) == c;
    }
  }
}
