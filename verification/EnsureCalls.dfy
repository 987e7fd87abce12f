/**
 The system calls behind the directory chain: how many are made, what an error of the run says about the last of
 them, and how a path is put together from its components.
 */
module EnsureCalls {
  import opened Wrappers
  import opened Strings
  import opened EnsureDir

  /** None of the calls numbered from i up to j fails. */
  predicate Quiet(e: Env, i: nat, j: int) {
    forall k :: i <= k < j ==> !e.fails(k)
  }

  /** A file lies above the path. */
  predicate UnderFile(es: Entries, p: Path) {
    exists k :: 0 <= k < |p| && p[..k] in es && es[p[..k]] == File
  }

  /** What an error says of the path it is about and of the last call, in the tree as the run leaves it: it is that
      call which failed, unless a file is or lies above the path, or there is no directory to make it in. */
  predicate Explains(e: Env, s: State, p: Path, err: Error) {
    s.calls > 0 &&
    match err
    case StatFailed => e.fails(s.calls - 1) || (p !in s.entries && UnderFile(s.entries, p))
    case IsFile => !e.fails(s.calls - 1) && p in s.entries && s.entries[p] == File
    case MkdirFailed =>
      p !in s.entries && (e.fails(s.calls - 1) || p == [] || !IsDir(s.entries, p[..|p| - 1]))
    case ChownFailed => e.fails(s.calls - 1) && p in s.entries && s.entries[p] == Dir(e.user)
    case BadPath => !e.fails(s.calls - 1) && p !in s.entries && !UnderFile(s.entries, p)
  }

  lemma OneEntryMore(es: Entries, p: Path, first: Node, last: Node)
    requires p !in es
    ensures |es[p := first][p := last]| == |es| + 1
  {
    var made := es[p := first][p := last];
    assert made.Keys == es.Keys + {p};
    assert |made| == |made.Keys| && |es| == |es.Keys|;
  }

  /** Ensuring one directory: one call if it is there, three if it is made, and the first that fails is the last. */
  lemma OneCalls(e: Env, s: State, p: Path)
    ensures var (t, r) := EnsureOne(e, s, p);
      if r.Ok? then
        && t.calls == s.calls + 1 + 2 * (|t.entries| - |s.entries|)
        && |t.entries| >= |s.entries| && Quiet(e, s.calls, t.calls)
      else t.calls > s.calls && Quiet(e, s.calls, t.calls - 1) && !r.error.BadPath? && Explains(e, t, p, r.error)
  {
    if p !in s.entries {
      OneEntryMore(s.entries, p, Dir(e.user), Dir(e.owner));
    }
  }

  lemma {:induction false} AllCalls(e: Env, s: State, ps: seq<Path>)
    ensures var (t, r) := EnsureAll(e, s, ps);
      if r.Ok? then
        && t.calls == s.calls + |ps| + 2 * (|t.entries| - |s.entries|)
        && |t.entries| >= |s.entries| && Quiet(e, s.calls, t.calls)
      else
        && t.calls > s.calls && Quiet(e, s.calls, t.calls - 1)
        && !r.error.BadPath? && exists p :: p in ps && Explains(e, t, p, r.error)
    decreases |ps|
  {
    if ps != [] {
      var init, last := ps[..|ps| - 1], ps[|ps| - 1];
      AllCalls(e, s, init);
      var (t, r) := EnsureAll(e, s, init);
      if r.Ok? {
        OneCalls(e, t, last);
        assert last in ps;
      } else {
        var p :| p in init && Explains(e, t, p, r.error);
        assert p in ps;
      }
    }
  }

  /** A run that succeeds has made one call for its target and, unless that was there, one for every directory of the
      chain and two for every one it added, and no call has failed. */
  lemma CallsOfSuccess(e: Env, s: State, path: string)
    requires Ensured(e, s, path).1.Ok?
    ensures var t := Ensured(e, s, path).0;
      && Quiet(e, s.calls, t.calls)
      && t.calls == s.calls + 1 +
           if IsDir(s.entries, Target(e, path)) then 0
           else |Split(path, '/')| + 2 * (|t.entries| - |s.entries|)
  {
    var (t, _) := Ensured(e, s, path);
    if !IsDir(s.entries, Target(e, path)) {
      var s1 := State(s.entries, s.calls + 1);
      assert EnsureAll(e, s1, Chain(e, path)) == (t, Ok(())) && !e.fails(s.calls);
      AllCalls(e, s1, Chain(e, path));
      assert |Chain(e, path)| == |Split(path, '/')|;
    }
  }

  /** A run that fails has ended at its first failing call, or at what its error says. A path is only refused as a
      whole if its target is missing and it has no separator. */
  lemma ErrorsAreExplained(e: Env, s: State, path: string) returns (p: Path)
    requires Ensured(e, s, path).1.Err?
    ensures var (t, r) := Ensured(e, s, path);
      && t.calls > s.calls && Quiet(e, s.calls, t.calls - 1)
      && (r.error.BadPath? ==> '/' !in path && t == State(s.entries, s.calls + 1))
      && (p == Target(e, path) || (!r.error.BadPath? && p in Chain(e, path))) && Explains(e, t, p, r.error)
  {
    if DirExists(e, s, Target(e, path)).1 == Ok(false) && '/' in path {
      ChainIsRun(e, s, path);
      p := ChainErrors(e, State(s.entries, s.calls + 1), Chain(e, path));
    } else {
      p := Target(e, path);
      TargetErrors(e, s, path);
    }
  }

  lemma ChainIsRun(e: Env, s: State, path: string)
    requires DirExists(e, s, Target(e, path)).1 == Ok(false) && '/' in path
    ensures Ensured(e, s, path) == EnsureAll(e, State(s.entries, s.calls + 1), Chain(e, path)) && !e.fails(s.calls)
  {
  }

  lemma TargetErrors(e: Env, s: State, path: string)
    requires Ensured(e, s, path).1.Err? && !(DirExists(e, s, Target(e, path)).1 == Ok(false) && '/' in path)
    ensures Ensured(e, s, path).0 == State(s.entries, s.calls + 1)
    ensures Explains(e, State(s.entries, s.calls + 1), Target(e, path), Ensured(e, s, path).1.error)
    ensures Ensured(e, s, path).1.error.BadPath? ==> '/' !in path
  {
  }

  lemma ChainErrors(e: Env, s: State, ps: seq<Path>) returns (p: Path)
    requires EnsureAll(e, s, ps).1.Err?
    ensures var (t, r) := EnsureAll(e, s, ps);
      && t.calls > s.calls && Quiet(e, s.calls, t.calls - 1) && !r.error.BadPath?
      && p in ps && Explains(e, t, p, r.error)
  {
    AllCalls(e, s, ps);
    var (t, r) := EnsureAll(e, s, ps);
    p :| p in ps && Explains(e, t, p, r.error);
  }

  // ---------------------------------------------------------------------------------------------
  // Paths.
  // ---------------------------------------------------------------------------------------------

  /** A component that names an entry. */
  predicate IsName(part: string) {
    part != "" && part != "." && part != ".."
  }

  predicate IsClean(p: Path) {
    forall k :: 0 <= k < |p| ==> IsName(p[k])
  }

  /** How a joined path grows: a name goes down, ".." takes it back and stops at the root, and empty and "."
      components do nothing. */
  lemma JoinRules(base: Path, parts: seq<string>, name: string)
    requires IsName(name)
    ensures var p := JoinAll(base, parts);
      && JoinAll(base, parts + [name]) == p + [name]
      && JoinAll(base, parts + [name] + [".."]) == p
      && JoinAll(base, parts + ["."]) == p && JoinAll(base, parts + [""]) == p
      && (p == [] ==> JoinAll(base, parts + [".."]) == [])
  {
    JoinLast(base, parts, name);
    JoinLast(base, parts + [name], "..");
    JoinLast(base, parts, ".");
    JoinLast(base, parts, "");
    JoinLast(base, parts, "..");
  }

  lemma JoinLast(base: Path, parts: seq<string>, part: string)
    ensures JoinAll(base, parts + [part]) == Join(JoinAll(base, parts), part)
  {
    assert (parts + [part])[..|parts|] == parts;
  }

  /** What comes out has no such components left. */
  lemma {:induction false} JoinedIsClean(base: Path, parts: seq<string>)
    requires IsClean(base)
    ensures IsClean(JoinAll(base, parts))
    decreases |parts|
  {
    if parts != [] {
      JoinedIsClean(base, parts[..|parts| - 1]);
    }
  }
}
