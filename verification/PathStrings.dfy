/**
 The walks of the shell over PATH strings, character by character, against the list of
 entries.
 */
module PathStrings {
  import opened Options
  import opened PathSearch

  // One more step of padvance.  `next` is where the rest of PATH starts, -1 when this was
  // the last entry.
  method Padvance(path: string, pos: nat, name: string) returns (next: int, full: string, opt: Option<string>)
    requires pos <= |path|
    ensures var es := Split(path[pos..]);
      && full == FullName(Dir(es[0]), name) && opt == Opt(es[0])
      && (next < 0 ==> |es| == 1)
      && (next >= 0 ==> next <= |path| && es[1..] == Split(path[next..]))
  {
    var d, p := EntryEnd(path, pos);
    EntryIs(path, pos, d, p);
    full := if d == pos then name else path[pos..d] + "/" + name;
    opt := if d < p then Some(path[d + 1..p]) else None;
    next := if p < |path| then p + 1 else -1;
  }

  // Where the directory of the entry at pos ends, and where the entry itself does.
  method EntryEnd(path: string, pos: nat) returns (d: nat, p: nat)
    requires pos <= |path|
    ensures pos <= d <= p <= |path| && (p < |path| ==> path[p] == ':') && (d < p ==> path[d] == '%')
    ensures forall j :: pos <= j < p ==> path[j] != ':'
    ensures forall j :: pos <= j < d ==> path[j] != '%'
  {
    p := pos;
    while p < |path| && path[p] != ':' && path[p] != '%'
      invariant pos <= p <= |path| && forall j :: pos <= j < p ==> path[j] != ':' && path[j] != '%'
    {
      p := p + 1;
    }
    d := p;
    if p < |path| && path[p] == '%' {
      p := p + 1;
      while p < |path| && path[p] != ':'
        invariant d < p <= |path| && forall j :: d < j < p ==> path[j] != ':'
      {
        p := p + 1;
      }
    }
  }

  // The entry that starts at pos has its directory up to d and ends at p.
  lemma EntryIs(path: string, pos: nat, d: nat, p: nat)
    requires pos <= d <= p <= |path| && (p < |path| ==> path[p] == ':')
    requires forall j :: pos <= j < p ==> path[j] != ':'
    requires forall j :: pos <= j < d ==> path[j] != '%'
    requires d < p ==> path[d] == '%'
    ensures var es := Split(path[pos..]);
      && es[0] == path[pos..p] && Dir(es[0]) == path[pos..d]
      && Opt(es[0]) == (if d < p then Some(path[d + 1..p]) else None)
      && (if p < |path| then es[1..] == Split(path[p + 1..]) else |es| == 1)
  {
    FirstEntry(path, pos, p);
    var e := path[pos..p];
    DirAndOpt(e, d - pos);
    assert e[..d - pos] == path[pos..d];
    assert d < p ==> e[d - pos + 1..] == path[d + 1..p];
  }

  lemma DirAndOpt(e: string, k: nat)
    requires k <= |e| && (k < |e| ==> e[k] == '%') && forall j :: 0 <= j < k ==> e[j] != '%'
    ensures Dir(e) == e[..k] && Opt(e) == if k < |e| then Some(e[k + 1..]) else None
  {
    PosIs(e, '%', k);
  }

  lemma FirstEntry(path: string, pos: nat, p: nat)
    requires pos <= p <= |path| && (p < |path| ==> path[p] == ':') && forall j :: pos <= j < p ==> path[j] != ':'
    ensures var es := Split(path[pos..]);
      es[0] == path[pos..p] && if p < |path| then es[1..] == Split(path[p + 1..]) else |es| == 1
  {
    var s := path[pos..];
    PosIs(s, ':', p - pos);
    assert s[..p - pos] == path[pos..p];
    assert p < |path| ==> s[p - pos + 1..] == path[p + 1..];
  }

  // ----------------------------------------------------------------- changepath

  function Colons(s: string): (n: nat)
  {
    if s == "" then 0 else (if s[0] == ':' then 1 else 0) + Colons(s[1..])
  }

  lemma {:induction false} ColonsAppend(s: string, c: char)
    ensures Colons(s + [c]) == Colons(s) + if c == ':' then 1 else 0
  {
    if s == "" {
      assert s + [c] == [c];
    } else {
      assert (s + [c])[1..] == s[1..] + [c];
      ColonsAppend(s[1..], c);
    }
  }

  lemma {:induction false} NoColons(s: string)
    requires ':' !in s
    ensures Colons(s) == 0
  {
    if s != "" {
      assert s[0] in s;
      NoColons(s[1..]);
    }
  }

  // Counting past the first entry.
  lemma {:induction false} ColonsSplit(s: string, k: nat)
    requires k < |s| && s[k] == ':' && forall j :: 0 <= j < k ==> s[j] != ':'
    ensures Colons(s) == 1 + Colons(s[k + 1..])
  {
    if k > 0 {
      ColonsSplit(s[1..], k - 1);
      assert s[1..][k..] == s[k + 1..];
    }
  }

  // Two PATHs that agree on their first i characters agree on the entries that end there.
  lemma {:induction false} SplitPrefix(a: string, b: string, i: nat)
    requires i <= |a| && i <= |b| && a[..i] == b[..i]
    ensures SameBefore(Split(a), Split(b), Colons(a[..i]))
    ensures Colons(a[..i]) < |Split(a)| && Colons(a[..i]) < |Split(b)|
    decreases |a|
  {
    var k := Pos(a, ':');
    if k < i {
      assert a[k] == a[..i][k] && b[k] == b[..i][k];
      forall j | 0 <= j < k ensures b[j] != ':' {
        assert a[..i][j] == b[..i][j];
      }
      PosIs(b, ':', k);
      ColonsSplit(a[..i], k);
      assert a[..i][k + 1..] == a[k + 1..][..i - k - 1] == b[k + 1..][..i - k - 1];
      SplitPrefix(a[k + 1..], b[k + 1..], i - k - 1);
      assert a[..k] == a[..i][..k] == b[..i][..k] == b[..k];
      OneMore(a[..k], Split(a[k + 1..]), Split(b[k + 1..]), Colons(a[k + 1..][..i - k - 1]));
    } else {
      NoColons(a[..i]);
    }
  }

  lemma OneMore(e: string, a: seq<string>, b: seq<string>, n: int)
    requires SameBefore(a, b, n)
    ensures SameBefore([e] + a, [e] + b, n + 1)
  {
    var a1, b1 := [e] + a, [e] + b;
    forall k: nat | k < n + 1 ensures SameAt(a1, b1, k) {
      if k > 0 {
        assert SameAt(a, b, k - 1);
      }
    }
  }

  lemma Symmetric(a: seq<string>, b: seq<string>, n: int)
    requires SameBefore(a, b, n)
    ensures SameBefore(b, a, n)
  {
    forall k: nat | k < n ensures SameAt(b, a, k) {
      assert SameAt(a, b, k);
    }
  }

  // One PATH is the other up to a colon: its last entry is complete in the other too.
  lemma {:induction false} SplitEnded(a: string, b: string)
    requires |a| < |b| && b[..|a|] == a && b[|a|] == ':'
    ensures SameBefore(Split(a), Split(b), Colons(a) + 1)
    decreases |a|
  {
    var k := Pos(a, ':');
    forall j | 0 <= j < |a| ensures a[j] == b[j] {
      assert b[..|a|][j] == b[j];
    }
    PosIs(b, ':', k);
    assert a[..k] == b[..k];
    if k < |a| {
      ColonsSplit(a, k);
      var a1, b1 := a[k + 1..], b[k + 1..];
      assert b1[..|a1|] == a1;
      SplitEnded(a1, b1);
      OneMore(a[..k], Split(a1), Split(b1), Colons(a1) + 1);
    } else {
      NoColons(a);
      assert a[..k] == a;
    }
  }

  // The first %builtin as changepath finds it; index counts the entries before s.
  function BuiltinFrom(s: string, index: nat): (r: int) {
    if s == "" then -1
    else if s[0] == '%' && IsPrefix("builtin", s[1..]) then index
    else BuiltinFrom(s[1..], if s[0] == ':' then index + 1 else index)
  }

  lemma {:induction false} ScanPast(s: string, k: nat, index: nat)
    requires k <= |s| && forall j :: 0 <= j < k ==> s[j] != ':' && s[j] != '%'
    ensures BuiltinFrom(s, index) == BuiltinFrom(s[k..], index)
  {
    if k > 0 {
      ScanPast(s[1..], k - 1, index);
      assert s[1..][k - 1..] == s[k..];
    }
  }

  // "builtin" behind a percent sign does not reach into the next entry.
  lemma PrefixInEntry(s: string, p: nat, k: nat)
    requires p < k <= |s| && (k < |s| ==> s[k] == ':')
    ensures IsPrefix("builtin", s[p + 1..]) <==> IsPrefix("builtin", s[p + 1..k])
  {
    var w := "builtin";
    if IsPrefix(w, s[p + 1..]) {
      var t := s[p + 1..];
      assert forall j :: 0 <= j < |w| ==> t[..|w|][j] == w[j] && w[j] != ':';
      assert forall j :: 0 <= j < |w| ==> t[j] != ':';
      assert k < |s| ==> t[k - p - 1] == ':';
      assert s[p + 1..k][..|w|] == s[p + 1..][..|w|];
    }
    if IsPrefix(w, s[p + 1..k]) {
      assert s[p + 1..][..|w|] == s[p + 1..k][..|w|];
    }
  }

  // The scan of one entry, which ends at k.
  lemma ScanEntry(s: string, k: nat, index: nat)
    requires k == Pos(s, ':') && OneOption(s[..k])
    ensures BuiltinFrom(s, index) == if BuiltinEntry(s[..k]) then index else BuiltinFrom(s[k..], index)
  {
    var e := s[..k];
    var p := Pos(e, '%');
    forall j | 0 <= j < p ensures s[j] != ':' && s[j] != '%' {
      assert e[j] == s[j];
    }
    ScanPast(s, p, index);
    if p < k {
      assert s[p] == '%' && s[p..][1..] == s[p + 1..] && e[p + 1..] == s[p + 1..k];
      PrefixInEntry(s, p, k);
      ScanOption(s, p, k, index);
    }
  }

  // The option of an entry, from its percent sign at p to its end at k, is passed over.
  lemma ScanOption(s: string, p: nat, k: nat, index: nat)
    requires p < k <= |s| && k == Pos(s, ':') && '%' !in s[p + 1..k]
    ensures BuiltinFrom(s[p + 1..], index) == BuiltinFrom(s[k..], index)
  {
    var t := s[p + 1..];
    forall j | 0 <= j < k - p - 1 ensures t[j] != ':' && t[j] != '%' {
      assert t[j] == s[p + 1 + j] && s[p + 1..k][j] == t[j];
    }
    ScanPast(t, k - p - 1, index);
    assert t[k - p - 1..] == s[k..];
  }

  lemma {:induction false} BuiltinFromIs(s: string, index: nat)
    requires forall k {:trigger Split(s)[k]} :: 0 <= k < |Split(s)| ==> OneOption(Split(s)[k])
    ensures var f := FirstBuiltin(Split(s)); BuiltinFrom(s, index) == if f < 0 then -1 else index + f
    decreases |s|
  {
    var k := Pos(s, ':');
    assert Split(s)[0] == s[..k];
    ScanEntry(s, k, index);
    if k < |s| {
      var rest := s[k + 1..];
      assert Split(s)[1..] == Split(rest) && s[k..][1..] == rest;
      forall j | 0 <= j < |Split(rest)| ensures OneOption(Split(rest)[j]) {
        assert Split(rest)[j] == Split(s)[j + 1];
      }
      BuiltinFromIs(rest, index + 1);
    } else {
      assert Split(s)[1..] == [];
    }
  }

  const NO_CHANGE := 9999

  // The loop of changepath: the first entry that changes, and the first %builtin.
  method CompareWalk(old_: string, new_: string) returns (firstchange: nat, bltin: int)
    ensures SameBefore(Split(old_), Split(new_), firstchange)
    ensures bltin == BuiltinFrom(new_, 0)
  {
    firstchange, bltin := NO_CHANGE, -1;
    var index, i, same := 0, 0, true;
    while true
      invariant 0 <= i <= |new_| && index == Colons(new_[..i])
      invariant same ==> i <= |old_| && old_[..i] == new_[..i]
      invariant !same ==> SameBefore(Split(old_), Split(new_), firstchange)
      invariant same ==> firstchange == NO_CHANGE
      invariant if bltin < 0 then BuiltinFrom(new_, 0) == BuiltinFrom(new_[i..], index) else bltin == BuiltinFrom(new_, 0)
      decreases |new_| - i
    {
      if same && Differ(old_, new_, i) {
        firstchange := ChangeAt(old_, new_, i, index);
        same := false;
      }
      if i == |new_| {
        break;
      }
      assert new_[i..][0] == new_[i] && new_[i..][1..] == new_[i + 1..];
      assert new_[..i + 1] == new_[..i] + [new_[i]];
      ColonsAppend(new_[..i], new_[i]);
      if new_[i] == '%' && bltin < 0 && IsPrefix("builtin", new_[i + 1..]) {
        bltin := index;
      }
      if new_[i] == ':' {
        index := index + 1;
      }
      i := i + 1;
    }
    assert same ==> old_ == new_;
  }

  // The first character that differs is at i, in entry index: that entry has changed,
  // unless one PATH ends there and the other goes on with a new entry.
  method ChangeAt(old_: string, new_: string, i: nat, index: nat) returns (firstchange: nat)
    requires i <= |old_| && i <= |new_| && old_[..i] == new_[..i] && index == Colons(new_[..i])
    ensures SameBefore(Split(old_), Split(new_), firstchange)
  {
    firstchange := index;
    SplitPrefix(old_, new_, i);
    if i == |old_| && i < |new_| && new_[i] == ':' {
      firstchange := firstchange + 1;
      assert new_[..|old_|] == old_;
      SplitEnded(old_, new_);
    } else if i == |new_| && i < |old_| && old_[i] == ':' {
      firstchange := firstchange + 1;
      assert new_[..i] == new_;
      SplitEnded(new_, old_);
      Symmetric(Split(new_), Split(old_), firstchange);
    }
  }

  // The characters at i differ; the end of a string counts as one.
  predicate Differ(a: string, b: string, i: nat)
    requires i <= |a| && i <= |b|
  {
    if i == |a| || i == |b| then |a| != |b| else a[i] != b[i]
  }
}
