/**
 PATH as the shell reads it, and the search for a command: functions and builtins aside,
 the first entry from left to right that holds a regular file of that name.
 */
module PathSearch {
  import opened Options

  datatype Cmd =
    | Unknown
    | Normal(index: int)     // CMDNORMAL: the entry of PATH
    | Builtin(code: int)     // CMDBUILTIN
    | Function(param: int)   // CMDFUNCTION: its definition, as a number

  // The files there are, by current directory and path name, and the builtins.
  datatype Env = Env(regular: (string, string) -> bool, builtin: string -> int)

  // Files stay, and an absolute name does not depend on the current directory.
  ghost predicate Fixed(env: Env) {
    forall c, d, f :: Absolute(f) ==> env.regular(c, f) == env.regular(d, f)
  }

  predicate Absolute(f: string) {
    f != "" && f[0] == '/'
  }

  // ------------------------------------------------------------------- entries

  // The first position of c, or |s|.
  function Pos(s: string, c: char): (k: nat)
    ensures k <= |s| && (k < |s| ==> s[k] == c) && forall j :: 0 <= j < k ==> s[j] != c
  {
    if s == "" || s[0] == c then 0 else 1 + Pos(s[1..], c)
  }

  lemma PosIs(s: string, c: char, k: nat)
    requires k <= |s| && (k < |s| ==> s[k] == c) && forall j :: 0 <= j < k ==> s[j] != c
    ensures Pos(s, c) == k
  {
  }

  // The entries of a PATH.
  function Split(s: string): (r: seq<string>)
    ensures |r| > 0
    decreases |s|
  {
    var k := Pos(s, ':');
    if k == |s| then [s] else [s[..k]] + Split(s[k + 1..])
  }

  // An entry is a directory and, behind a percent sign, an option.
  function Dir(e: string): (r: string) {
    e[..Pos(e, '%')]
  }

  function Opt(e: string): (r: Option<string>) {
    var k := Pos(e, '%');
    if k == |e| then None else Some(e[k + 1..])
  }

  function FullName(dir: string, name: string): (r: string) {
    if dir == "" then name else dir + "/" + name
  }

  predicate IsPrefix(p: string, s: string) {
    |p| <= |s| && s[..|p|] == p
  }

  predicate BuiltinEntry(e: string) {
    Opt(e).Some? && IsPrefix("builtin", Opt(e).value)
  }

  // The first %builtin entry, -1 if there is none.
  function FirstBuiltin(es: seq<string>): (r: int)
    ensures -1 <= r < |es|
    ensures r >= 0 ==> BuiltinEntry(es[r])
    ensures forall k :: 0 <= k < (if r >= 0 then r else |es|) ==> !BuiltinEntry(es[k])
  {
    if es == [] then -1
    else if BuiltinEntry(es[0]) then 0
    else
      var r := FirstBuiltin(es[1..]);
      if r < 0 then -1 else r + 1
  }

  // At most one option per entry, and none that names a directory of functions.
  ghost predicate Plain(es: seq<string>) {
    forall k {:trigger es[k]} :: 0 <= k < |es| ==> OneOption(es[k]) && !FuncEntry(es[k])
  }

  ghost predicate OneOption(e: string) {
    Opt(e).Some? ==> '%' !in Opt(e).value
  }

  predicate FuncEntry(e: string) {
    Opt(e).Some? && IsPrefix("func", Opt(e).value)
  }

  // -------------------------------------------------------------------- search

  // What entry e, number i, says about a name.
  function Hit(env: Env, cwd: string, e: string, i: nat, name: string): (r: Cmd) {
    if Opt(e).Some? then
      if IsPrefix("builtin", Opt(e).value) && env.builtin(name) >= 0 then Builtin(env.builtin(name)) else Unknown
    else if env.regular(cwd, FullName(Dir(e), name)) then Normal(i)
    else Unknown
  }

  // The first entry from i on that has the command.
  function Search(env: Env, cwd: string, es: seq<string>, i: nat, name: string): (r: Cmd)
    requires i <= |es|
    decreases |es| - i
  {
    if i == |es| then Unknown
    else
      var h := Hit(env, cwd, es[i], i, name);
      if h != Unknown then h else Search(env, cwd, es, i + 1, name)
  }

  // The command a name stands for, found afresh.
  function Resolve(env: Env, cwd: string, path: string, name: string): (r: Cmd) {
    if FirstBuiltin(Split(path)) < 0 && env.builtin(name) >= 0 then Builtin(env.builtin(name))
    else Search(env, cwd, Split(path), 0, name)
  }

  // The search found entry k if and only if k is the first that hits.
  lemma {:induction false} SearchFinds(env: Env, cwd: string, es: seq<string>, i: nat, k: nat, name: string)
    requires i <= k <= |es| && forall j :: i <= j < k ==> Hit(env, cwd, es[j], j, name) == Unknown
    ensures Search(env, cwd, es, i, name) == Search(env, cwd, es, k, name)
    decreases k - i
  {
    if i < k {
      SearchFinds(env, cwd, es, i + 1, k, name);
    }
  }

  lemma {:induction false} SearchMeans(env: Env, cwd: string, es: seq<string>, i: nat, name: string) returns (k: nat)
    requires i <= |es|
    ensures i <= k <= |es| && forall j :: i <= j < k ==> Hit(env, cwd, es[j], j, name) == Unknown
    ensures var r := Search(env, cwd, es, i, name);
      (k < |es| <==> r != Unknown) && (k < |es| ==> r == Hit(env, cwd, es[k], k, name))
    decreases |es| - i
  {
    if i == |es| || Hit(env, cwd, es[i], i, name) != Unknown {
      k := i;
    } else {
      k := SearchMeans(env, cwd, es, i + 1, name);
    }
  }

  // ------------------------------------------------------------ what a search says

  // The entries again as one string.
  function Joined(es: seq<string>): (r: string)
    requires |es| > 0
  {
    if |es| == 1 then es[0] else es[0] + ":" + Joined(es[1..])
  }

  /** The entries are what stands between the colons, and an entry is its directory and, after
      the first percent sign, its option. */
  lemma {:induction false} SplitIs(path: string)
    ensures Joined(Split(path)) == path
    ensures forall k {:trigger Split(path)[k]} :: 0 <= k < |Split(path)| ==> ':' !in Split(path)[k]
    decreases |path|
  {
    var k := Pos(path, ':');
    if k < |path| {
      SplitIs(path[k + 1..]);
      assert Split(path)[1..] == Split(path[k + 1..]);
      assert path == path[..k] + ":" + path[k + 1..];
    }
  }

  lemma EntryParts(e: string)
    ensures '%' !in Dir(e) && e == Dir(e) + if Opt(e).None? then "" else "%" + Opt(e).value
  {
    var k := Pos(e, '%');
    assert k < |e| ==> e == e[..k] + [e[k]] + e[k + 1..];
  }

  // Entry e has no option, and its directory holds a regular file of that name.
  predicate FileIn(env: Env, cwd: string, e: string, name: string) {
    Opt(e).None? && env.regular(cwd, if Dir(e) == "" then name else Dir(e) + "/" + name)
  }

  predicate NamesBuiltins(e: string) {
    Opt(e).Some? && |Opt(e).value| >= 7 && Opt(e).value[..7] == "builtin"
  }

  // Number k is the first entry with the file.
  ghost predicate FirstFile(env: Env, cwd: string, es: seq<string>, k: int, name: string) {
    0 <= k < |es| && FileIn(env, cwd, es[k], name) && forall j :: 0 <= j < k ==> !FileIn(env, cwd, es[j], name)
  }

  // Number b is the first %builtin.
  ghost predicate FirstNaming(es: seq<string>, b: int) {
    0 <= b < |es| && NamesBuiltins(es[b]) && forall j :: 0 <= j < b ==> !NamesBuiltins(es[j])
  }

  // What PATH says about a name: the first entry with the file, unless a builtin of that name
  // comes first, either because no entry says where builtins come or because one before it
  // does.
  ghost predicate Says(env: Env, cwd: string, es: seq<string>, name: string, r: Cmd) {
    var n := env.builtin(name);
    && (forall k :: r == Normal(k) <==>
          FirstFile(env, cwd, es, k, name) && (n < 0 || exists b :: FirstNaming(es, b) && k < b))
    && (forall c :: r == Builtin(c) <==>
          && c == n >= 0
          && forall b :: FirstNaming(es, b) ==> forall j :: 0 <= j < b ==> !FileIn(env, cwd, es[j], name))
    && !r.Function?
  }

  // None of the entries before m has the file or, if there is a builtin, names builtins.
  ghost predicate NothingBefore(env: Env, cwd: string, es: seq<string>, m: nat, name: string) {
    forall j :: 0 <= j < m && j < |es| ==>
      !FileIn(env, cwd, es[j], name) && (env.builtin(name) < 0 || !NamesBuiltins(es[j]))
  }

  lemma HitIs(env: Env, cwd: string, e: string, i: nat, name: string)
    ensures var h := Hit(env, cwd, e, i, name);
      h == if FileIn(env, cwd, e, name) then Normal(i)
           else if NamesBuiltins(e) && env.builtin(name) >= 0 then Builtin(env.builtin(name)) else Unknown
  {
    assert |"builtin"| == 7;
  }

  lemma SaysFile(env: Env, cwd: string, es: seq<string>, m: nat, name: string)
    requires m < |es| && NothingBefore(env, cwd, es, m, name) && FileIn(env, cwd, es[m], name)
    requires env.builtin(name) >= 0 ==> exists b :: FirstNaming(es, b)
    ensures Says(env, cwd, es, name, Normal(m))
  {
    assert FirstFile(env, cwd, es, m, name);
    if env.builtin(name) >= 0 {
      var b :| FirstNaming(es, b);
      assert m < b;
    }
  }

  lemma SaysBuiltin(env: Env, cwd: string, es: seq<string>, m: nat, name: string)
    requires m < |es| && NothingBefore(env, cwd, es, m, name) && NamesBuiltins(es[m]) && env.builtin(name) >= 0
    ensures Says(env, cwd, es, name, Builtin(env.builtin(name)))
  {
    assert forall b :: FirstNaming(es, b) <==> b == m;
  }

  lemma SaysNothing(env: Env, cwd: string, es: seq<string>, name: string)
    requires NothingBefore(env, cwd, es, |es|, name) && env.builtin(name) < 0
    ensures Says(env, cwd, es, name, Unknown)
  {
  }

  lemma SaysFirst(env: Env, cwd: string, es: seq<string>, name: string)
    requires env.builtin(name) >= 0 && forall b :: !FirstNaming(es, b)
    ensures Says(env, cwd, es, name, Builtin(env.builtin(name)))
  {
  }

  /** A fresh search finds what PATH says. */
  lemma ResolveSays(env: Env, cwd: string, path: string, name: string)
    ensures Says(env, cwd, Split(path), name, Resolve(env, cwd, path, name))
  {
    var es, n, f := Split(path), env.builtin(name), FirstBuiltin(Split(path));
    FirstBuiltinIs(es);
    if f < 0 && n >= 0 {
      SaysFirst(env, cwd, es, name);
    } else {
      var m := SearchMeans(env, cwd, es, 0, name);
      forall j | 0 <= j < m ensures !FileIn(env, cwd, es[j], name) && (n < 0 || !NamesBuiltins(es[j])) {
        HitIs(env, cwd, es[j], j, name);
      }
      assert NothingBefore(env, cwd, es, m, name);
      if m < |es| {
        HitIs(env, cwd, es[m], m, name);
        if FileIn(env, cwd, es[m], name) {
          assert n >= 0 ==> FirstNaming(es, f);
          SaysFile(env, cwd, es, m, name);
        } else {
          SaysBuiltin(env, cwd, es, m, name);
        }
      } else {
        assert n < 0 || FirstNaming(es, f);
        SaysNothing(env, cwd, es, name);
      }
    }
  }

  lemma FirstBuiltinIs(es: seq<string>)
    ensures var f := FirstBuiltin(es);
      if f < 0 then forall b :: !FirstNaming(es, b) else forall b :: FirstNaming(es, b) <==> b == f
  {
    assert |"builtin"| == 7;
    assert forall k :: 0 <= k < |es| ==> (NamesBuiltins(es[k]) <==> BuiltinEntry(es[k]));
  }

  // ------------------------------------------------------ what a cached entry means

  // Entry e can be passed over whatever the current directory is.
  predicate Passed(env: Env, e: string, name: string) {
    if Opt(e).Some? then !BuiltinEntry(e) || env.builtin(name) < 0
    else Absolute(FullName(Dir(e), name)) ==> !env.regular("", FullName(Dir(e), name))
  }

  // A command as the table has it: exact, or marked for another look at the relative
  // entries of PATH.
  ghost predicate Cached(env: Env, cwd: string, path: string, name: string, cmd: Cmd, rehash: bool) {
    var es := Split(path);
    match cmd
    case Unknown => false
    case Function(_) => !rehash
    case Normal(k) =>
      && 0 <= k < |es| && Opt(es[k]).None? && (FirstBuiltin(es) < 0 ==> env.builtin(name) < 0)
      && (forall i :: 0 <= i < k ==> Passed(env, es[i], name))
      && (Absolute(FullName(Dir(es[k]), name)) ==> env.regular("", FullName(Dir(es[k]), name)))
      && (!rehash ==> cmd == Resolve(env, cwd, path, name))
    case Builtin(c) =>
      && c == env.builtin(name) >= 0 && (rehash ==> FirstBuiltin(es) >= 0)
      && (forall i :: 0 <= i < FirstBuiltin(es) ==> Passed(env, es[i], name))
      && (!rehash ==> cmd == Resolve(env, cwd, path, name))
  }

  lemma HitPasses(env: Env, cwd: string, e: string, i: nat, name: string)
    requires Fixed(env) && Hit(env, cwd, e, i, name) == Unknown
    ensures Passed(env, e, name)
  {
  }

  /** What a fresh search found may be entered in the table. */
  lemma FoundIsCached(env: Env, cwd: string, path: string, name: string)
    requires Fixed(env) && Resolve(env, cwd, path, name) != Unknown
    ensures Cached(env, cwd, path, name, Resolve(env, cwd, path, name), false)
  {
    var es := Split(path);
    if !(FirstBuiltin(es) < 0 && env.builtin(name) >= 0) {
      var k := SearchMeans(env, cwd, es, 0, name);
      forall i | 0 <= i < k ensures Passed(env, es[i], name) {
        HitPasses(env, cwd, es[i], i, name);
      }
      if BuiltinEntry(es[k]) {
        assert FirstBuiltin(es) <= k;
      }
    }
  }

  /** After a change of the current directory the marked entry is still right about the
      entries it vouches for. */
  lemma MarkedIsCached(env: Env, cwd: string, cwd': string, path: string, name: string, cmd: Cmd, rehash: bool)
    requires Fixed(env) && Cached(env, cwd, path, name, cmd, rehash)
    ensures cmd.Normal? || (cmd.Builtin? && FirstBuiltin(Split(path)) >= 0) ==> Cached(env, cwd', path, name, cmd, true)
    ensures !(cmd.Normal? || (cmd.Builtin? && FirstBuiltin(Split(path)) >= 0)) ==>
      Cached(env, cwd', path, name, cmd, rehash)
  {
  }

  // --------------------------------------------------------------- a new PATH

  // The entries before number n are the same in both.
  ghost predicate SameBefore(a: seq<string>, b: seq<string>, n: int) {
    forall k: nat :: k < n ==> SameAt(a, b, k)
  }

  ghost predicate SameAt(a: seq<string>, b: seq<string>, k: nat) {
    (k < |a| <==> k < |b|) && (k < |a| && k < |b| ==> a[k] == b[k])
  }

  // What changepath works out: the first entry to distrust and where %builtin is taken
  // to be while entries are cleared.
  function ClearFrom(firstchange: int, oldB: int, newB: int): (r: int) {
    if oldB >= 0 && newB < 0 then 0 else firstchange
  }

  function ClearBuiltin(oldB: int, newB: int): (r: int) {
    if oldB < 0 && newB >= 0 then newB else oldB
  }

  // clearcmdentry drops the entry.
  predicate Stale(cmd: Cmd, from: int, builtinloc: int) {
    (cmd.Normal? && cmd.index >= from) || (cmd.Builtin? && builtinloc >= from)
  }

  lemma SameSearch(env: Env, cwd: string, a: seq<string>, b: seq<string>, k: nat, name: string)
    requires k < |a| && k < |b| && (forall i :: 0 <= i <= k ==> a[i] == b[i])
    requires (forall j :: 0 <= j < k ==> Hit(env, cwd, a[j], j, name) == Unknown)
    requires Hit(env, cwd, a[k], k, name) != Unknown
    ensures Search(env, cwd, b, 0, name) == Hit(env, cwd, a[k], k, name) == Search(env, cwd, a, 0, name)
  {
    SearchFinds(env, cwd, a, 0, k, name);
    SearchFinds(env, cwd, b, 0, k, name);
  }

  lemma NewBuiltinIsLater(a: seq<string>, b: seq<string>, n: int)
    requires SameBefore(a, b, n) && FirstBuiltin(a) < 0 <= FirstBuiltin(b)
    ensures FirstBuiltin(b) >= n
  {
    var k := FirstBuiltin(b);
    assert k < n ==> SameAt(a, b, k);
  }

  lemma SameBuiltin(a: seq<string>, b: seq<string>, n: int)
    requires SameBefore(a, b, n) && 0 <= FirstBuiltin(a) < n
    ensures FirstBuiltin(b) == FirstBuiltin(a)
  {
    var k := FirstBuiltin(a);
    assert SameAt(a, b, k);
    var j := FirstBuiltin(b);
    assert SameAt(a, b, j);
  }

  lemma NormalStays(env: Env, cwd: string, a: string, b: string, n: int, name: string, k: int, rehash: bool)
    requires SameBefore(Split(a), Split(b), n) && Cached(env, cwd, a, name, Normal(k), rehash) && k < n
    requires FirstBuiltin(Split(a)) >= 0 ==> FirstBuiltin(Split(b)) >= 0
    requires FirstBuiltin(Split(b)) < 0 ==> FirstBuiltin(Split(a)) < 0
    ensures Cached(env, cwd, b, name, Normal(k), rehash)
  {
    var es, fs := Split(a), Split(b);
    assert SameAt(es, fs, k);
    forall i: nat | i <= k ensures es[i] == fs[i] {
      assert SameAt(es, fs, i);
    }
    forall i | 0 <= i < k ensures Passed(env, fs[i], name) {
      assert es[i] == fs[i] && Passed(env, es[i], name);
    }
    if !rehash {
      var m := SearchMeans(env, cwd, es, 0, name);
      assert m == k;
      SameSearch(env, cwd, es, fs, k, name);
    }
  }

  lemma BuiltinStays(env: Env, cwd: string, a: string, b: string, n: int, name: string, c: int, rehash: bool)
    requires SameBefore(Split(a), Split(b), n) && Cached(env, cwd, a, name, Builtin(c), rehash)
    requires 0 <= FirstBuiltin(Split(a)) < n
    ensures Cached(env, cwd, b, name, Builtin(c), rehash)
  {
    var es, fs := Split(a), Split(b);
    var k := FirstBuiltin(es);
    SameBuiltin(es, fs, n);
    forall i: nat | i <= k ensures es[i] == fs[i] && (i < k ==> Passed(env, fs[i], name)) {
      assert SameAt(es, fs, i);
      assert i < k ==> Passed(env, es[i], name);
    }
    if !rehash {
      var m := SearchMeans(env, cwd, es, 0, name);
      BuiltinHit(env, cwd, es, m, name, c);
      SameSearch(env, cwd, es, fs, k, name);
    }
  }

  // A builtin found in PATH is found at the first %builtin.
  lemma BuiltinHit(env: Env, cwd: string, es: seq<string>, m: nat, name: string, c: int)
    requires m < |es| && Hit(env, cwd, es[m], m, name) == Builtin(c) && env.builtin(name) >= 0
    requires forall j :: 0 <= j < m ==> Hit(env, cwd, es[j], j, name) == Unknown
    ensures m == FirstBuiltin(es)
  {
    var k := FirstBuiltin(es);
    assert BuiltinEntry(es[m]);
    assert Hit(env, cwd, es[k], k, name) == Builtin(env.builtin(name));
  }

  /** Entries that survive a change of PATH are right about the new one. */
  lemma SurvivorIsCached(env: Env, cwd: string, a: string, b: string, n: int, name: string, cmd: Cmd, rehash: bool)
    requires SameBefore(Split(a), Split(b), n) && Cached(env, cwd, a, name, cmd, rehash)
    requires var oldB, newB := FirstBuiltin(Split(a)), FirstBuiltin(Split(b));
      !Stale(cmd, ClearFrom(n, oldB, newB), ClearBuiltin(oldB, newB))
    ensures Cached(env, cwd, b, name, cmd, rehash)
  {
    var oldB, newB := FirstBuiltin(Split(a)), FirstBuiltin(Split(b));
    match cmd
    case Function(_) =>
    case Normal(k) => NormalStays(env, cwd, a, b, n, name, k, rehash);
    case Builtin(c) =>
      if oldB >= 0 {
        BuiltinStays(env, cwd, a, b, n, name, c, rehash);
      } else if newB >= 0 {
        NewBuiltinIsLater(Split(a), Split(b), n);
      }
  }

  // -------------------------------------------------------------- searching again

  // What find_command makes of entry e, number i: an absolute name up to entry prev gets no
  // second look, and the one at prev is what the table has.
  function Look(env: Env, cwd: string, e: string, i: nat, name: string, prev: int, known: Cmd): (r: Option<Cmd>) {
    var h := Hit(env, cwd, e, i, name);
    if Opt(e).None? && Absolute(FullName(Dir(e), name)) && i <= prev then if i == prev then Some(known) else None
    else if h != Unknown then Some(h) else None
  }

  // Its search from entry i on.
  function SearchAgain(env: Env, cwd: string, es: seq<string>, i: nat, name: string, prev: int, known: Cmd): (r: Cmd)
    requires i <= |es|
    decreases |es| - i
  {
    if i == |es| then Unknown
    else
      var r := Look(env, cwd, es[i], i, name, prev, known);
      if r.Some? then r.value else SearchAgain(env, cwd, es, i + 1, name, prev, known)
  }

  // What the table knows about the entries up to prev.
  ghost predicate Vouched(env: Env, es: seq<string>, name: string, prev: int, known: Cmd) {
    prev < 0 ||
    (&& prev < |es| && (forall i :: 0 <= i < prev ==> Passed(env, es[i], name))
     && (Opt(es[prev]).None? ==>
           && known == Normal(prev)
           && (Absolute(FullName(Dir(es[prev]), name)) ==> env.regular("", FullName(Dir(es[prev]), name)))))
  }

  /** Skipping what the table vouches for makes no difference. */
  lemma {:induction false} AgainIsSearch(
    env: Env, cwd: string, es: seq<string>, i: nat, name: string, prev: int, known: Cmd)
    requires Fixed(env) && i <= |es| && Vouched(env, es, name, prev, known)
    ensures SearchAgain(env, cwd, es, i, name, prev, known) == Search(env, cwd, es, i, name)
    decreases |es| - i
  {
    if i < |es| {
      var full := FullName(Dir(es[i]), name);
      assert i < prev ==> Passed(env, es[i], name);
      assert Absolute(full) ==> env.regular(cwd, full) == env.regular("", full);
      AgainIsSearch(env, cwd, es, i + 1, name, prev, known);
    }
  }

  // The search for a name goes on past entry e, number i, when the table vouches for it.
  predicate GoesOn(env: Env, cwd: string, e: string, i: nat, name: string) {
    (Opt(e).None? && Absolute(FullName(Dir(e), name))) || Hit(env, cwd, e, i, name) == Unknown
  }

  /** A function defined over a marked entry is searched for as if its definition were an
      index into PATH.  It is found if and only if that is the index of an entry that makes
      an absolute name and no entry before it stops the search; otherwise it is forgotten. */
  lemma {:induction false} FunctionForgotten(env: Env, cwd: string, es: seq<string>, i: nat, name: string, definition: int)
    requires i <= |es|
    ensures SearchAgain(env, cwd, es, i, name, definition, Function(definition)).Function? <==>
      && i <= definition < |es| && Opt(es[definition]).None? && Absolute(FullName(Dir(es[definition]), name))
      && forall k :: i <= k < definition ==> GoesOn(env, cwd, es[k], k, name)
    decreases |es| - i
  {
    if i < |es| {
      FunctionForgotten(env, cwd, es, i + 1, name, definition);
    }
  }

  // What find_command finds for a function whose entry is marked: the number of its
  // definition is taken for the entry of PATH where it was.
  function Astray(env: Env, cwd: string, path: string, name: string, definition: int): (r: Cmd) {
    if FirstBuiltin(Split(path)) < 0 && env.builtin(name) >= 0 then Builtin(env.builtin(name))
    else SearchAgain(env, cwd, Split(path), 0, name, definition, Function(definition))
  }

  // ... when it is the function after all.
  ghost predicate FoundAgain(env: Env, cwd: string, path: string, name: string, definition: int) {
    var es := Split(path);
    && (FirstBuiltin(es) >= 0 || env.builtin(name) < 0)
    && 0 <= definition < |es| && Opt(es[definition]).None? && Absolute(FullName(Dir(es[definition]), name))
    && forall k :: 0 <= k < definition ==> GoesOn(env, cwd, es[k], k, name)
  }

  /** The lookup of a function defined over a marked entry returns it if and only if no builtin
      comes first and its definition is the index of an entry of PATH that makes an absolute
      name and that the search gets to. */
  lemma AstrayIff(env: Env, cwd: string, path: string, name: string, definition: int)
    ensures Astray(env, cwd, path, name, definition) == Function(definition) <==>
      FoundAgain(env, cwd, path, name, definition)
  {
    FunctionForgotten(env, cwd, Split(path), 0, name, definition);
    AstrayFunction(env, cwd, Split(path), 0, name, definition);
  }

  lemma {:induction false} AstrayFunction(env: Env, cwd: string, es: seq<string>, i: nat, name: string, definition: int)
    requires i <= |es|
    ensures var r := SearchAgain(env, cwd, es, i, name, definition, Function(definition));
      r.Function? ==> r == Function(definition)
    decreases |es| - i
  {
    if i < |es| {
      AstrayFunction(env, cwd, es, i + 1, name, definition);
    }
  }
}
