/**
 The shell's command lookup: a table in front of the search of PATH, partly searched again
 after a change of directory and partly cleared when PATH changes.  Every lookup finds
 what a fresh search of the whole PATH would find.
 */
module Shell {
  import opened Options
  import opened PathSearch
  import opened PathStrings
  import opened CommandTable

  class Lookup {
    const env: Env
    const table: Table
    var path: string             // pathval()
    var cwd: string
    var builtinloc: int

    constructor (env: Env, path: string, cwd: string)
      requires Fixed(env) && Plain(Split(path))
      ensures Valid() && fresh(table) && this.env == env && this.path == path && this.cwd == cwd
      ensures forall n: string :: table.Get(n) == None
    {
      this.env, this.path, this.cwd := env, path, cwd;
      builtinloc := FirstBuiltin(Split(path));
      table := new Table();
    }

    // The table agrees with PATH and the current directory.
    ghost predicate Valid()
      reads this, table
    {
      && Fixed(env) && Plain(Split(path)) && table.Valid() && builtinloc == FirstBuiltin(Split(path))
      && forall n: string {:trigger table.Get(n)} :: table.Get(n).Some? ==> Good(n, table.Get(n).value)
    }

    ghost predicate Good(n: string, e: Entry)
      reads this
    {
      '/' !in n && Cached(env, cwd, path, n, e.cmd, e.rehash)
    }

    // What a name means: a function if one is defined, and otherwise what PATH says.
    ghost function Meaning(name: string): (r: Cmd)
      reads this, table
      requires table.Valid()
    {
      if '/' in name then Normal(0)
      else if table.Get(name).Some? && table.Get(name).value.cmd.Function? then table.Get(name).value.cmd
      else Resolve(env, cwd, path, name)
    }

    // The loop of find_command over PATH.
    method SearchPath(name: string, prev: int, known: Cmd) returns (r: Cmd)
      ensures r == SearchAgain(env, cwd, Split(path), 0, name, prev, known)
    {
      ghost var es := Split(path);
      var pos, index := 0, -1;
      assert path[0..] == path && es[0..] == es;
      while pos >= 0
        invariant -1 <= index < |es| && pos <= |path|
        invariant pos >= 0 ==> index + 1 < |es| && Split(path[pos..]) == es[index + 1..]
        invariant pos < 0 ==> index + 1 == |es|
        invariant SearchAgain(env, cwd, es, 0, name, prev, known) == SearchAgain(env, cwd, es, index + 1, name, prev, known)
        decreases |es| - index
      {
        var full, opt;
        ghost var e := es[index + 1];
        pos, full, opt := Padvance(path, pos, name);
        index := index + 1;
        assert e == es[index] && es[index..][0] == e && es[index..][1..] == es[index + 1..];
        var here := LookAt(name, full, opt, index, prev, known, e);
        if here.Some? {
          return here.value;
        }
      }
      r := Unknown;
    }

    // One entry of PATH: whether the search ends there, and with what.
    method LookAt(name: string, full: string, opt: Option<string>, index: nat, prev: int, known: Cmd, ghost e: string)
      returns (r: Option<Cmd>)
      requires opt == Opt(e) && full == FullName(Dir(e), name)
      ensures r == Look(env, cwd, e, index, name, prev, known)
    {
      r := None;
      if opt.Some? {
        if IsPrefix("builtin", opt.value) {
          var i := env.builtin(name);
          if i >= 0 {
            r := Some(Builtin(i));
          }
        }
      } else if Absolute(full) && index <= prev {
        if index == prev {
          r := Some(known);
        }
      } else if env.regular(cwd, full) {
        r := Some(Normal(index));
      }
    }

    // A function under a mark, as Define can leave it.
    ghost predicate Stray(name: string)
      reads this, table
      requires table.Valid()
    {
      table.Get(name).Some? && table.Get(name).value.cmd.Function? && table.Get(name).value.rehash
    }

    // The table agrees with PATH as far as other names are concerned.
    ghost predicate OthersGood(name: string)
      reads this, table
      requires table.Valid()
    {
      forall n: string {:trigger table.Get(n)} :: n != name && table.Get(n).Some? ==> Good(n, table.Get(n).value)
    }

    // The name can be looked up: its entry agrees with PATH or is a function under a mark.
    ghost predicate Usable(name: string)
      reads this, table
    {
      && Fixed(env) && Plain(Split(path)) && table.Valid() && builtinloc == FirstBuiltin(Split(path))
      && (table.Get(name).Some? ==> Good(name, table.Get(name).value) || Stray(name))
    }

    // What a lookup returns.
    ghost function Answer(name: string): (r: Cmd)
      reads this, table
      requires table.Valid()
    {
      if '/' !in name && Stray(name) then Astray(env, cwd, path, name, table.Get(name).value.cmd.param) else Meaning(name)
    }

    // find_command.  A function under a mark is looked up as Astray says, and what is found
    // instead of it is entered, right or wrong.
    method FindCommand(name: string) returns (r: Cmd)
      requires Usable(name)
      modifies table
      ensures path == old(path) && cwd == old(cwd) && table.Valid() && r == old(Answer(name))
      ensures forall n: string :: n != name ==> table.Get(n) == old(table.Get(n))
      ensures if '/' in name then table.Get(name) == old(table.Get(name))
              else table.Get(name) == if r == Unknown then None else Some(Entry(name, r, false))
      ensures '/' !in name && old(table.Get(name).None? || (Valid() && !table.Get(name).value.cmd.Function?)) ==>
        Says(env, cwd, Split(path), name, r)
      ensures old(Valid()) ==> Valid() && r == old(Meaning(name))
      ensures '/' !in name && old(Stray(name)) && old(OthersGood(name)) ==>
        (Valid() <==> r.Function? || r == Unknown || r == old(Resolve(env, cwd, path, name)))
    {
      if '/' in name {
        return Normal(0);
      }
      ResolveSays(env, cwd, path, name);
      var e := table.Lookup(name);
      if e.Some? && !e.value.rehash {
        return e.value.cmd;
      }
      r := SearchFor(name, e);
      Record(name, r, e.Some?);
      RecordedIsGood(name, r);
    }

    // The name is not in the table, or under a mark.
    method SearchFor(name: string, e: Option<Entry>) returns (r: Cmd)
      requires Usable(name) && '/' !in name && e == table.Get(name) && (e.Some? ==> e.value.rehash)
      ensures r == Answer(name)
    {
      var i := env.builtin(name);
      if builtinloc < 0 && i >= 0 {
        return Builtin(i);
      }
      var prev, known := -1, Unknown;
      if e.Some? {
        known := e.value.cmd;
        prev := if known.Builtin? then builtinloc else if known.Function? then known.param else known.index;
      }
      r := SearchPath(name, prev, known);
      if !Stray(name) {
        AgainIsSearch(env, cwd, Split(path), 0, name, prev, known);
      }
    }

    // The outcome of a search goes into the table; a failure takes the name out of it.
    method Record(name: string, r: Cmd, present: bool)
      requires table.Valid() && table.At(name) && present == table.Get(name).Some?
      modifies table
      ensures table.Valid() && table.Get(name) == if r == Unknown then None else Some(Entry(name, r, false))
      ensures forall n: string :: n != name ==> table.Get(n) == old(table.Get(n))
    {
      if r != Unknown {
        table.Enter(Entry(name, r, false));
      } else if present {
        table.DeleteLast(name);
      }
    }

    // An outcome that is what PATH says, or a function, may stay in the table.
    lemma RecordedIsGood(name: string, r: Cmd)
      requires Fixed(env) && table.Valid() && '/' !in name
      requires table.Get(name) == if r == Unknown then None else Some(Entry(name, r, false))
      ensures (table.Get(name).Some? ==> Good(name, table.Get(name).value)) <==>
        r.Function? || r == Unknown || r == Resolve(env, cwd, path, name)
    {
      if r != Unknown && r == Resolve(env, cwd, path, name) {
        FoundIsCached(env, cwd, path, name);
      }
    }

    // cd, and hashcd after it.
    method ChangeDirectory(dir: string)
      requires Valid()
      modifies this`cwd, table
      ensures Valid() && path == old(path) && cwd == dir
      ensures forall n: string :: (
        table.Get(n) == if old(table.Get(n)).Some? then Some(Marked(old(table.Get(n)).value, builtinloc)) else None)
    {
      table.MarkAll(builtinloc);
      forall n: string | old(table.Get(n)).Some?
        ensures var e := old(table.Get(n)).value; var m := Marked(e, builtinloc);
          '/' !in n && Cached(env, dir, path, n, m.cmd, m.rehash)
      {
        var e := old(table.Get(n)).value;
        MarkedIsCached(env, cwd, dir, path, n, e.cmd, e.rehash);
      }
      cwd := dir;
    }

    // changepath, and the assignment to PATH after it.
    method ChangePath(newval: string)
      requires Valid() && Plain(Split(newval))
      modifies this`path, this`builtinloc, table
      ensures Valid() && path == newval && cwd == old(cwd)
    {
      ghost var es := Split(newval);
      forall k | 0 <= k < |es| ensures OneOption(es[k]) {
        assert es[k] == es[k];
      }
      BuiltinFromIs(newval, 0);
      var firstchange: int, bltin := CompareWalk(path, newval);
      ghost var n0, oldB := firstchange, builtinloc;
      if builtinloc < 0 && bltin >= 0 {
        builtinloc := bltin;
      }
      if builtinloc >= 0 && bltin < 0 {
        firstchange := 0;
      }
      table.ClearFromEntry(firstchange, builtinloc);
      forall n: string | table.Get(n).Some?
        ensures '/' !in n && Cached(env, cwd, newval, n, table.Get(n).value.cmd, table.Get(n).value.rehash)
      {
        var e := table.Get(n).value;
        assert old(table.Get(n)) == Some(e);
        SurvivorIsCached(env, cwd, path, newval, n0, n, e.cmd, e.rehash);
      }
      builtinloc := bltin;
      path := newval;
    }

    // addcmdentry: a function is defined.  Its entry keeps the mark of an earlier one, so
    // the table agrees with PATH afterwards if and only if there was no mark.
    method Define(name: string, definition: int)
      requires Valid() && '/' !in name
      modifies table
      ensures Valid() <==> !(old(table.Get(name)).Some? && old(table.Get(name)).value.rehash)
      ensures Usable(name) && OthersGood(name) && path == old(path) && cwd == old(cwd)
      ensures forall n: string :: n != name ==> table.Get(n) == old(table.Get(n))
      ensures table.Get(name) == Some(Entry(name, Function(definition),
                                            old(table.Get(name)).Some? && old(table.Get(name)).value.rehash))
    {
      var e := table.Lookup(name);
      var rehash := e.Some? && e.value.rehash;
      table.Enter(Entry(name, Function(definition), rehash));
      assert rehash ==> !Good(name, table.Get(name).value);
    }
  }

  /** A function is lost: a command found in PATH, a change of directory, the definition of a
      function of that name, and a lookup, which returns the function if and only if the number
      of its definition happens to be the index of the right entry of PATH. */
  method FunctionLost(env: Env, path: string, cwd: string, dir: string, name: string, definition: int) returns (r: Cmd)
    requires Fixed(env) && Plain(Split(path)) && '/' !in name && Resolve(env, cwd, path, name).Normal?
    ensures r == Astray(env, dir, path, name, definition)
    ensures r == Function(definition) <==> FoundAgain(env, dir, path, name, definition)
    ensures definition >= |Split(path)| ==> r != Function(definition)
  {
    var sh := new Lookup(env, path, cwd);
    var first := sh.FindCommand(name);
    assert first == Resolve(env, cwd, path, name);
    sh.ChangeDirectory(dir);
    sh.Define(name, definition);
    AstrayIff(env, dir, path, name, definition);
    r := sh.FindCommand(name);
  }

  /** With PATH a relative directory that holds the command, whatever the definition. */
  method FunctionLostOnce(dir: string, definition: int) returns (r: Cmd)
    ensures r == Normal(0)
  {
    var env := Env((c, f) => true, n => -1);
    PosIs("bin", ':', 3);
    PosIs("bin", '%', 3);
    assert Split("bin") == ["bin"];
    assert Hit(env, "", "bin", 0, "f") == Normal(0) == Hit(env, dir, "bin", 0, "f");
    r := FunctionLost(env, "bin", "", dir, "f", definition);
  }
}
