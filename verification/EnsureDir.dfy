/**
 Creation of the directory chain below a mount point before a file is written there. Paths are lists of
 names from the file system's root; the file system is a map from paths to nodes without symbolic links.
 */
module EnsureDir {
  import opened Wrappers
  import opened Strings

  type Path = seq<string>

  /** owner stands for a user and a group. */
  datatype Node = File | Dir(owner: int)

  datatype Error = StatFailed | IsFile | BadPath | MkdirFailed | ChownFailed

  type Entries = map<Path, Node>

  /** fails tells which system calls fail for a reason outside the file tree, counted over the run;
      user is the owner of what this process creates. */
  datatype Env = Env(fails: nat -> bool, user: int, mount: Path, owner: int)

  datatype State = State(entries: Entries, calls: nat)

  // ---------------------------------------------------------------------------------------------
  // Paths.
  // ---------------------------------------------------------------------------------------------

  /** filepath.Join of a clean path and one component. */
  function Join(base: Path, part: string): Path {
    if part == "" || part == "." then base
    else if part == ".." then if base == [] then [] else base[..|base| - 1]
    else base + [part]
  }

  function JoinAll(base: Path, parts: seq<string>): Path {
    if parts == [] then base else Join(JoinAll(base, parts[..|parts| - 1]), parts[|parts| - 1])
  }

  /** The directories the loop looks at, in its order. */
  function Visited(mount: Path, parts: seq<string>): (ps: seq<Path>)
    ensures |ps| == |parts|
    ensures forall k :: 0 <= k < |parts| ==> ps[k] == mount + JoinAll([], parts[..k + 1])
  {
    seq(|parts|, k requires 0 <= k < |parts| => mount + JoinAll([], parts[..k + 1]))
  }

  /** No component climbs above the root of the path. */
  predicate NoRise(parts: seq<string>) {
    forall k :: 0 <= k < |parts| && parts[k] == ".." ==> JoinAll([], parts[..k]) != []
  }

  // ---------------------------------------------------------------------------------------------
  // The file system.
  // ---------------------------------------------------------------------------------------------

  datatype Stat = Found(node: Node) | Missing | Broken

  function StatOf(es: Entries, p: Path): Stat {
    if p in es then Found(es[p])
    else if exists k :: 0 <= k < |p| && p[..k] in es && es[p[..k]].File? then Broken
    else Missing
  }

  predicate IsDir(es: Entries, p: Path) {
    p in es && es[p].Dir?
  }

  predicate CanMake(es: Entries, p: Path) {
    p !in es && p != [] && IsDir(es, p[..|p| - 1])
  }

  /** A file tree: whatever exists lies in directories. */
  ghost predicate Tree(es: Entries) {
    IsDir(es, []) && forall p, k :: p in es && 0 <= k < |p| ==> IsDir(es, p[..k])
  }

  // ---------------------------------------------------------------------------------------------
  // Specification.
  // ---------------------------------------------------------------------------------------------

  function DirExists(e: Env, s: State, p: Path): (State, Result<bool, Error>) {
    (s.(calls := s.calls + 1),
     if e.fails(s.calls) then Err(StatFailed)
     else match StatOf(s.entries, p)
       case Broken => Err(StatFailed)
       case Missing => Ok(false)
       case Found(File) => Err(IsFile)
       case Found(Dir(_)) => Ok(true))
  }

  function EnsureOne(e: Env, s: State, p: Path): (State, Result<(), Error>) {
    var (s1, exists1) := DirExists(e, s, p);
    if exists1.Err? then (s1, Err(exists1.error))
    else if exists1.value then (s1, Ok(()))
    else
      var s2 := s1.(calls := s1.calls + 1);
      if e.fails(s1.calls) || !CanMake(s1.entries, p) then (s2, Err(MkdirFailed))
      else
        var s3 := State(s2.entries[p := Dir(e.user)], s2.calls + 1);
        if e.fails(s2.calls) then (s3, Err(ChownFailed))
        else (s3.(entries := s3.entries[p := Dir(e.owner)]), Ok(()))
  }

  function EnsureAll(e: Env, s: State, ps: seq<Path>): (State, Result<(), Error>) {
    if ps == [] then (s, Ok(()))
    else
      var (s1, r) := EnsureAll(e, s, ps[..|ps| - 1]);
      if r.Err? then (s1, r) else EnsureOne(e, s1, ps[|ps| - 1])
  }

  function Target(e: Env, path: string): Path {
    JoinAll(e.mount, Split(path, '/'))
  }

  function Chain(e: Env, path: string): seq<Path> {
    Visited(e.mount, Split(path, '/'))
  }

  function Ensured(e: Env, s: State, path: string): (State, Result<(), Error>) {
    var (s1, exists1) := DirExists(e, s, Target(e, path));
    if exists1.Err? then (s1, Err(exists1.error))
    else if exists1.value then (s1, Ok(()))
    else if '/' !in path then (s1, Err(BadPath))
    else EnsureAll(e, s1, Chain(e, path))
  }

  // ---------------------------------------------------------------------------------------------
  // The code.
  // ---------------------------------------------------------------------------------------------

  class Disk {
    const e: Env
    var entries: Entries
    var calls: nat

    constructor (e: Env, entries: Entries)
      ensures this.e == e && Now() == State(entries, 0)
    {
      this.e, this.entries, this.calls := e, entries, 0;
    }

    function Now(): State
      reads this
    {
      State(entries, calls)
    }

    method CallFails() returns (failed: bool)
      modifies this`calls
      ensures calls == old(calls) + 1 && failed == e.fails(old(calls))
    {
      failed := e.fails(calls);
      calls := calls + 1;
    }

    method DirExistsAt(p: Path) returns (r: Result<bool, Error>)
      modifies this
      ensures (Now(), r) == DirExists(e, old(Now()), p)
    {
      var failed := CallFails();
      var info := if failed then Broken else StatOf(entries, p);
      if info.Broken? {
        return Err(StatFailed);
      }
      if info.Found? && !info.node.Dir? {
        return Err(IsFile);
      }
      return Ok(!info.Missing?);
    }

    method EnsureDirAt(p: Path) returns (r: Result<(), Error>)
      modifies this
      ensures (Now(), r) == EnsureOne(e, old(Now()), p)
    {
      var existing := DirExistsAt(p);
      if existing.Err? {
        return Err(existing.error);
      }
      if existing.value {
        return Ok(());
      }
      var failed := CallFails();
      if failed || !CanMake(entries, p) {
        return Err(MkdirFailed);
      }
      entries := entries[p := Dir(e.user)];
      failed := CallFails();
      if failed {
        return Err(ChownFailed);
      }
      entries := entries[p := Dir(e.owner)];
      return Ok(());
    }

    method RecursiveEnsureDir(path: string) returns (r: Result<(), Error>)
      modifies this
      ensures (Now(), r) == Ensured(e, old(Now()), path)
    {
      var existing := DirExistsAt(Target(e, path));
      if existing.Err? {
        return Err(existing.error);
      }
      if existing.value {
        return Ok(());
      }
      var pathParts := Split(path, '/');
      if |pathParts| == 1 && pathParts[0] == path {
        return Err(BadPath);
      }
      r := EnsureParts(pathParts);
    }

    method EnsureParts(pathParts: seq<string>) returns (r: Result<(), Error>)
      modifies this
      ensures (Now(), r) == EnsureAll(e, old(Now()), Visited(e.mount, pathParts))
    {
      var basePath: Path := [];
      ghost var ps := Visited(e.mount, pathParts);
      ghost var s := Now();
      for i := 0 to |pathParts|
        invariant basePath == JoinAll([], pathParts[..i])
        invariant (Now(), Ok(())) == EnsureAll(e, s, ps[..i])
      {
        JoinAllNext([], pathParts, i);
        EnsureAllNext(e, s, ps, i);
        basePath := Join(basePath, pathParts[i]);
        r := EnsureDirAt(e.mount + basePath);
        if r.Err? {
          FirstErrorStays(e, s, ps, i + 1);
          return r;
        }
      }
      assert ps[..|ps|] == ps;
      return Ok(());
    }
  }

  lemma JoinAllNext(base: Path, parts: seq<string>, i: nat)
    requires i < |parts|
    ensures JoinAll(base, parts[..i + 1]) == Join(JoinAll(base, parts[..i]), parts[i])
  {
    assert parts[..i + 1][..i] == parts[..i];
  }

  lemma EnsureAllNext(e: Env, s: State, ps: seq<Path>, i: nat)
    requires i < |ps| && EnsureAll(e, s, ps[..i]).1.Ok?
    ensures EnsureAll(e, s, ps[..i + 1]) == EnsureOne(e, EnsureAll(e, s, ps[..i]).0, ps[i])
  {
    assert ps[..i + 1][..i] == ps[..i];
  }

  lemma {:induction false} FirstErrorStays(e: Env, s: State, ps: seq<Path>, i: nat)
    requires i <= |ps| && EnsureAll(e, s, ps[..i]).1.Err?
    ensures EnsureAll(e, s, ps) == EnsureAll(e, s, ps[..i])
    decreases |ps|
  {
    if i == |ps| {
      assert ps[..i] == ps;
    } else {
      assert ps[..|ps| - 1][..i] == ps[..i];
      FirstErrorStays(e, s, ps[..|ps| - 1], i);
    }
  }

  // ---------------------------------------------------------------------------------------------
  // What is created.
  // ---------------------------------------------------------------------------------------------

  /** es with those of ps that it lacks, owned by owner. */
  function Made(es: Entries, ps: seq<Path>, owner: int): Entries {
    if ps == [] then es
    else
      var m := Made(es, ps[..|ps| - 1], owner);
      if ps[|ps| - 1] in m then m else m[ps[|ps| - 1] := Dir(owner)]
  }

  lemma {:induction false} MadeIsThese(es: Entries, ps: seq<Path>, owner: int)
    ensures var m := Made(es, ps, owner);
      forall p :: (p in es ==> p in m && m[p] == es[p]) && (p in m && p !in es <==> p in ps && p !in es)
    ensures forall p :: p in Made(es, ps, owner) && p !in es ==> Made(es, ps, owner)[p] == Dir(owner)
    decreases |ps|
  {
    if ps != [] {
      MadeIsThese(es, ps[..|ps| - 1], owner);
      assert ps == ps[..|ps| - 1] + [ps[|ps| - 1]];
    }
  }

  /** A failed run made the missing ones among the first k visited, and, exactly if a change of owner was
      what failed, the next one too, not yet handed to its owner. */
  predicate BrokeOffAt(e: Env, es: Entries, after: Entries, ps: seq<Path>, err: Error, k: nat) {
    k < |ps| &&
    var made := Made(es, ps[..k], e.owner);
    if err.ChownFailed? then ps[k] !in made && after == made[ps[k] := Dir(e.user)] else after == made
  }

  lemma {:induction false} AllMadeOrBrokeOff(e: Env, s: State, ps: seq<Path>) returns (k: nat)
    ensures var (s', r) := EnsureAll(e, s, ps);
      if r.Ok? then s'.entries == Made(s.entries, ps, e.owner) && (forall p :: p in ps ==> IsDir(s'.entries, p))
      else BrokeOffAt(e, s.entries, s'.entries, ps, r.error, k)
    decreases |ps|
  {
    k := 0;
    if ps != [] {
      var init, last := ps[..|ps| - 1], ps[|ps| - 1];
      k := AllMadeOrBrokeOff(e, s, init);
      var (s1, r1) := EnsureAll(e, s, init);
      if r1.Err? {
        assert init[..k] == ps[..k];
      } else {
        k := |ps| - 1;
        assert ps == init + [last];
      }
    }
  }

  predicate Kept(es: Entries, after: Entries) {
    forall p :: p in es ==> p in after && after[p] == es[p]
  }

  predicate AllMade(e: Env, es: Entries, after: Entries, ps: seq<Path>) {
    after == Made(es, ps, e.owner) && forall p :: p in ps ==> IsDir(after, p)
  }

  ghost predicate BrokeOff(e: Env, es: Entries, after: Entries, ps: seq<Path>, err: Error) {
    exists k :: BrokeOffAt(e, es, after, ps, err, k)
  }

  lemma OutcomeOfChain(e: Env, s: State, ps: seq<Path>)
    ensures var (s', r) := EnsureAll(e, s, ps);
      && Kept(s.entries, s'.entries)
      && if r.Ok? then AllMade(e, s.entries, s'.entries, ps) else BrokeOff(e, s.entries, s'.entries, ps, r.error)
  {
    var k := AllMadeOrBrokeOff(e, s, ps);
    MadeIsThese(s.entries, ps, e.owner);
    if EnsureAll(e, s, ps).1.Err? {
      MadeIsThese(s.entries, ps[..k], e.owner);
    }
  }

  /** Whatever fails, what existed is untouched. Success finds the target there or makes exactly the missing
      directories of the chain; failure has made an initial part of them, all with the right owner unless
      handing one over is what failed. */
  lemma OutcomeOfEnsure(e: Env, s: State, path: string)
    ensures var (s', r) := Ensured(e, s, path); var ps := Chain(e, path);
      && Kept(s.entries, s'.entries)
      && if r.Err?
         then (s'.entries == s.entries && !r.error.ChownFailed?) || BrokeOff(e, s.entries, s'.entries, ps, r.error)
         else if IsDir(s.entries, Target(e, path)) then s'.entries == s.entries
         else AllMade(e, s.entries, s'.entries, ps)
  {
    OutcomeOfChain(e, DirExists(e, s, Target(e, path)).0, Chain(e, path));
  }

  // ---------------------------------------------------------------------------------------------
  // The result is a file tree.
  // ---------------------------------------------------------------------------------------------

  lemma MakeKeepsTree(es: Entries, p: Path, owner: int)
    requires Tree(es) && CanMake(es, p)
    ensures Tree(es[p := Dir(owner)])
  {
    var es' := es[p := Dir(owner)];
    forall q, k | q in es' && 0 <= k < |q| ensures IsDir(es', q[..k]) {
      if q == p && k < |p| - 1 {
        assert p[..|p| - 1][..k] == q[..k];
      }
    }
  }

  lemma EnsureOneKeepsTree(e: Env, s: State, p: Path)
    requires Tree(s.entries)
    ensures Tree(EnsureOne(e, s, p).0.entries)
  {
    if CanMake(s.entries, p) {
      MakeKeepsTree(s.entries, p, e.user);
      MakeKeepsTree(s.entries, p, e.owner);
      assert s.entries[p := Dir(e.user)][p := Dir(e.owner)] == s.entries[p := Dir(e.owner)];
    }
  }

  lemma {:induction false} EnsureAllKeepsTree(e: Env, s: State, ps: seq<Path>)
    requires Tree(s.entries)
    ensures Tree(EnsureAll(e, s, ps).0.entries)
    decreases |ps|
  {
    if ps != [] {
      EnsureAllKeepsTree(e, s, ps[..|ps| - 1]);
      EnsureOneKeepsTree(e, EnsureAll(e, s, ps[..|ps| - 1]).0, ps[|ps| - 1]);
    }
  }

  lemma EnsuredKeepsTree(e: Env, s: State, path: string)
    requires Tree(s.entries)
    ensures Tree(Ensured(e, s, path).0.entries)
  {
    EnsureAllKeepsTree(e, DirExists(e, s, Target(e, path)).0, Chain(e, path));
  }

  // ---------------------------------------------------------------------------------------------
  // Which directory the chain ends at.
  // ---------------------------------------------------------------------------------------------

  lemma NoRiseLast(parts: seq<string>)
    requires parts != []
    ensures var init := parts[..|parts| - 1];
      NoRise(parts) <==> NoRise(init) && (parts[|parts| - 1] == ".." ==> JoinAll([], init) != [])
  {
    var init := parts[..|parts| - 1];
    assert forall k :: 0 <= k < |init| ==> init[k] == parts[k] && init[..k] == parts[..k];
  }

  lemma {:induction false} JoinAllFrom(mount: Path, parts: seq<string>)
    ensures |JoinAll(mount, parts)| <= |mount| + |JoinAll([], parts)|
    ensures NoRise(parts) || mount == [] ==> JoinAll(mount, parts) == mount + JoinAll([], parts)
    ensures !NoRise(parts) && mount != [] ==> |JoinAll(mount, parts)| < |mount| + |JoinAll([], parts)|
    decreases |parts|
  {
    if parts != [] {
      var init, part := parts[..|parts| - 1], parts[|parts| - 1];
      JoinAllFrom(mount, init);
      NoRiseLast(parts);
      JoinFrom(mount, JoinAll(mount, init), JoinAll([], init), part);
    }
  }

  /** The step of it: a is where the walk from the mount point has got, b where the one from the root has. */
  lemma JoinFrom(mount: Path, a: Path, b: Path, part: string)
    requires |a| <= |mount| + |b|
    ensures |Join(a, part)| <= |mount| + |Join(b, part)|
    ensures a == mount + b && (part == ".." ==> b != [] || mount == []) ==> Join(a, part) == mount + Join(b, part)
    ensures mount != [] && (|a| < |mount| + |b| || (part == ".." && b == [])) ==>
      |Join(a, part)| < |mount| + |Join(b, part)|
  {
  }

  /** The directory looked for first is the one the chain ends at exactly when no component climbs above
      the path's root: the first lookup is not confined to the mount point, the chain is. */
  lemma TargetEndsTheChainIff(e: Env, path: string)
    requires e.mount != []
    ensures var parts := Split(path, '/'); var ps := Visited(e.mount, parts);
      ps[|ps| - 1] == Target(e, path) <==> NoRise(parts)
  {
    var parts := Split(path, '/');
    assert parts[..|parts|] == parts;
    JoinAllFrom(e.mount, parts);
  }

  /** After success, the directory the file is written to is there with all its parents exactly when it
      was there before or the chain passes through it, and so always if no component climbs too high. */
  lemma TargetReadyIff(e: Env, s: State, path: string)
    requires Tree(s.entries) && Ensured(e, s, path).1.Ok? && e.mount != []
    ensures var s' := Ensured(e, s, path).0; var t := Target(e, path); var ps := Chain(e, path);
      && (IsDir(s'.entries, t) <==> IsDir(s.entries, t) || t in ps)
      && (IsDir(s'.entries, t) ==> forall k :: 0 <= k < |t| ==> IsDir(s'.entries, t[..k]))
      && (NoRise(Split(path, '/')) ==> t in ps && IsDir(s'.entries, t))
  {
    OutcomeOfEnsure(e, s, path);
    EnsuredKeepsTree(e, s, path);
    MadeIsThese(s.entries, Chain(e, path), e.owner);
    TargetEndsTheChainIff(e, path);
  }

  lemma SplitRisingPath()
    ensures Split("/../a", '/') == ["", "..", "a"]
  {
    assert "/../a"[1..] == "../a" && "../a"[1..] == "./a" && "./a"[1..] == "/a" && "/a"[1..] == "a";
    assert Split("a", '/') == ["a"];
    assert Split("/a", '/') == [""] + Split("a", '/') == ["", "a"];
    assert ["", "a"][1..] == ["a"] && [".", "a"][1..] == ["a"] && ['.'] + "" == "." && ['.'] + "." == "..";
    assert Split("./a", '/') == [".", "a"];
    assert Split("../a", '/') == ["..", "a"];
  }

  lemma Steps(base: Path, parts: seq<string>)
    requires |parts| == 3
    ensures JoinAll(base, parts[..1]) == Join(base, parts[0])
    ensures JoinAll(base, parts[..2]) == Join(Join(base, parts[0]), parts[1])
    ensures JoinAll(base, parts[..3]) == JoinAll(base, parts) == Join(Join(Join(base, parts[0]), parts[1]), parts[2])
  {
    assert parts[..3] == parts && parts[..1][..0] == [];
    assert parts[..3][..2] == parts[..2] && parts[..2][..1] == parts[..1];
  }

  // ---------------------------------------------------------------------------------------------
  // When it succeeds.
  // ---------------------------------------------------------------------------------------------

  predicate NoFileAmong(es: Entries, ps: seq<Path>) {
    forall k :: 0 <= k < |ps| && ps[k] in es ==> es[ps[k]].Dir?
  }

  /** Every directory above a visited one was visited before it. */
  lemma {:induction false} ParentsComeFirst(parts: seq<string>, j: nat) returns (i: nat)
    requires j <= |JoinAll([], parts)|
    ensures i <= |parts| && JoinAll([], parts[..i]) == JoinAll([], parts)[..j]
    ensures j < |JoinAll([], parts)| ==> i < |parts|
    decreases |parts|
  {
    var cur := JoinAll([], parts);
    if j == |cur| {
      i := |parts|;
      assert parts[..i] == parts && cur[..j] == cur;
    } else {
      var init := parts[..|parts| - 1];
      i := ParentsComeFirst(init, j);
      assert init[..i] == parts[..i];
    }
  }

  lemma {:induction false} AllEnsuredIff(e: Env, s: State, parts: seq<string>, n: nat)
    requires Tree(s.entries) && IsDir(s.entries, e.mount) && n <= |parts| && forall c :: !e.fails(c)
    ensures var ps := Visited(e.mount, parts)[..n]; EnsureAll(e, s, ps).1.Ok? <==> NoFileAmong(s.entries, ps)
    decreases n
  {
    if n > 0 {
      var ps := Visited(e.mount, parts);
      AllEnsuredIff(e, s, parts, n - 1);
      assert ps[..n][..n - 1] == ps[..n - 1];
      NoFileLast(s.entries, ps[..n]);
      if EnsureAll(e, s, ps[..n - 1]).1.Ok? {
        OneMoreEnsuredIff(e, s, parts, n);
      }
    }
  }

  lemma NoFileLast(es: Entries, ps: seq<Path>)
    requires ps != []
    ensures var last := ps[|ps| - 1];
      NoFileAmong(es, ps) <==> NoFileAmong(es, ps[..|ps| - 1]) && (last in es ==> es[last].Dir?)
  {
  }

  /** After an initial part of the chain, the next directory is refused exactly if a file was there before. */
  lemma OneMoreEnsuredIff(e: Env, s: State, parts: seq<string>, n: nat)
    requires Tree(s.entries) && IsDir(s.entries, e.mount) && 0 < n <= |parts| && forall c :: !e.fails(c)
    requires EnsureAll(e, s, Visited(e.mount, parts)[..n - 1]).1.Ok?
    ensures var ps := Visited(e.mount, parts); var s1 := EnsureAll(e, s, ps[..n - 1]).0;
      EnsureOne(e, s1, ps[n - 1]).1.Ok? <==> (ps[n - 1] in s.entries ==> s.entries[ps[n - 1]].Dir?)
  {
    var ps := Visited(e.mount, parts);
    var s1 := EnsureAll(e, s, ps[..n - 1]).0;
    EnsureAllKeepsTree(e, s, ps[..n - 1]);
    OutcomeOfChain(e, s, ps[..n - 1]);
    MadeIsThese(s.entries, ps[..n - 1], e.owner);
    ParentIsThere(e, s1, parts, n);
    NextEnsuredIff(e, s1, ps[n - 1]);
  }

  lemma ParentIsThere(e: Env, s: State, parts: seq<string>, n: nat)
    requires Tree(s.entries) && IsDir(s.entries, e.mount) && 0 < n <= |parts|
    requires forall p :: p in Visited(e.mount, parts)[..n - 1] ==> IsDir(s.entries, p)
    ensures var p := Visited(e.mount, parts)[n - 1]; p in s.entries || CanMake(s.entries, p)
  {
    var ps := Visited(e.mount, parts);
    var cur := JoinAll([], parts[..n]);
    if cur == [] {
      assert ps[n - 1] == e.mount;
    } else {
      var i := ParentsComeFirst(parts[..n], |cur| - 1);
      assert parts[..n][..i] == parts[..i];
      assert ps[n - 1][..|ps[n - 1]| - 1] == e.mount + cur[..|cur| - 1];
      if i == 0 {
        assert e.mount + [] == e.mount;
      } else {
        assert ps[..n - 1][i - 1] == e.mount + cur[..|cur| - 1];
      }
    }
  }

  lemma NextEnsuredIff(e: Env, s: State, p: Path)
    requires Tree(s.entries) && (forall c :: !e.fails(c)) && (p in s.entries || CanMake(s.entries, p))
    ensures EnsureOne(e, s, p).1.Ok? <==> (p in s.entries ==> s.entries[p].Dir?)
  {
    if p !in s.entries {
      forall k | 0 <= k < |p| && p[..k] in s.entries ensures s.entries[p[..k]].Dir? {
        if k < |p| - 1 {
          assert p[..|p| - 1][..k] == p[..k];
        }
      }
      assert StatOf(s.entries, p).Missing?;
    }
  }

  /** Unless a system call fails, only a file in the way or a path without separator makes it fail. */
  lemma SucceedsIff(e: Env, s: State, path: string)
    requires Tree(s.entries) && IsDir(s.entries, e.mount) && forall c :: !e.fails(c)
    ensures Ensured(e, s, path).1.Ok? <==>
      || IsDir(s.entries, Target(e, path))
      || (StatOf(s.entries, Target(e, path)).Missing? && '/' in path && NoFileAmong(s.entries, Chain(e, path)))
  {
    var parts := Split(path, '/');
    var ps := Visited(e.mount, parts);
    AllEnsuredIff(e, DirExists(e, s, Target(e, path)).0, parts, |parts|);
    assert ps[..|parts|] == ps;
  }

  /** The path "/../a" under /m: success without the directory it is about. */
  lemma RisingPathMissesItsTarget(e: Env, s: State)
    requires e.mount == ["m"] && (forall c :: !e.fails(c)) && s.entries == map[[] := Dir(0), ["m"] := Dir(0)]
    ensures Ensured(e, s, "/../a").1.Ok? && !IsDir(Ensured(e, s, "/../a").0.entries, Target(e, "/../a"))
  {
    SplitRisingPath();
    RisingMisses(e, s, "/../a");
  }

  lemma RisingMisses(e: Env, s: State, path: string)
    requires e.mount == ["m"] && (forall c :: !e.fails(c)) && s.entries == map[[] := Dir(0), ["m"] := Dir(0)]
    requires Split(path, '/') == ["", "..", "a"]
    ensures Ensured(e, s, path).1.Ok? && !IsDir(Ensured(e, s, path).0.entries, Target(e, path))
  {
    RisingChain(e, path);
    assert Tree(s.entries);
    SucceedsIff(e, s, path);
    TargetReadyIff(e, s, path);
  }

  lemma RisingJoin(base: Path, parts: seq<string>)
    requires parts == ["", "..", "a"] && |base| <= 1
    ensures JoinAll(base, parts[..1]) == base && JoinAll(base, parts[..2]) == []
    ensures JoinAll(base, parts[..3]) == JoinAll(base, parts) == ["a"]
  {
    Steps(base, parts);
    assert Join(base, "") == base && Join(base, "..") == [] && Join([], "a") == ["a"];
  }

  lemma VisitedThree(mount: Path, parts: seq<string>)
    requires |parts| == 3
    ensures Visited(mount, parts)
         == [mount + JoinAll([], parts[..1]), mount + JoinAll([], parts[..2]), mount + JoinAll([], parts[..3])]
  {
  }

  lemma RisingChain(e: Env, path: string)
    requires e.mount == ["m"] && Split(path, '/') == ["", "..", "a"]
    ensures Target(e, path) == ["a"] && Chain(e, path) == [["m"], ["m"], ["m", "a"]]
  {
    RisingJoin(e.mount, ["", "..", "a"]);
    RisingJoin([], ["", "..", "a"]);
    VisitedThree(e.mount, ["", "..", "a"]);
    assert e.mount + [] == ["m"] && e.mount + ["a"] == ["m", "a"];
  }

  // ---------------------------------------------------------------------------------------------
  // Running it again.
  // ---------------------------------------------------------------------------------------------

  /** A second run that meets no failure succeeds and changes nothing, whoever should own the chain. */
  lemma EnsureIsIdempotent(e: Env, e2: Env, s: State, path: string)
    requires Ensured(e, s, path).1.Ok? && e2.mount == e.mount && (forall c :: !e2.fails(c))
    requires Tree(s.entries) && IsDir(s.entries, e.mount)
    ensures var s' := Ensured(e, s, path).0;
      Ensured(e2, s', path).1.Ok? && Ensured(e2, s', path).0.entries == s'.entries
  {
    var s' := Ensured(e, s, path).0;
    OutcomeOfEnsure(e, s, path);
    if !IsDir(s.entries, Target(e, path)) {
      RerunIsReady(e, s, path);
      EnsuredKeepsTree(e, s, path);
      SucceedsIff(e2, s', path);
      MadeNothing(s'.entries, Chain(e, path), e2.owner);
    }
    OutcomeOfEnsure(e2, s', path);
  }

  lemma RerunIsReady(e: Env, s: State, path: string)
    requires Ensured(e, s, path).1.Ok? && !IsDir(s.entries, Target(e, path))
    ensures var es' := Ensured(e, s, path).0.entries; var t := Target(e, path);
      && (IsDir(es', t) || StatOf(es', t).Missing?) && '/' in path
      && NoFileAmong(es', Chain(e, path)) && forall p :: p in Chain(e, path) ==> p in es'
  {
    OutcomeOfEnsure(e, s, path);
    MissingStaysReachable(e, s, path);
    var ps := Chain(e, path);
    forall k | 0 <= k < |ps| ensures IsDir(Ensured(e, s, path).0.entries, ps[k]) {
      assert ps[k] in ps;
    }
  }

  lemma {:induction false} MadeNothing(es: Entries, ps: seq<Path>, owner: int)
    requires forall p :: p in ps ==> p in es
    ensures Made(es, ps, owner) == es
    decreases |ps|
  {
    if ps != [] {
      MadeNothing(es, ps[..|ps| - 1], owner);
    }
  }

  lemma MadeAddsDirs(es: Entries, ps: seq<Path>, owner: int)
    ensures OnlyDirsAdded(es, Made(es, ps, owner))
  {
    MadeIsThese(es, ps, owner);
  }

  predicate OnlyDirsAdded(es: Entries, after: Entries) {
    forall p :: p in after && p !in es ==> after[p].Dir?
  }

  lemma EnsuredAddsDirs(e: Env, s: State, path: string)
    ensures OnlyDirsAdded(s.entries, Ensured(e, s, path).0.entries)
  {
    var ps := Chain(e, path);
    var (s', r) := Ensured(e, s, path);
    OutcomeOfEnsure(e, s, path);
    MadeAddsDirs(s.entries, ps, e.owner);
    if r.Err? && s'.entries != s.entries {
      var k: nat :| BrokeOffAt(e, s.entries, s'.entries, ps, r.error, k);
      MadeAddsDirs(s.entries, ps[..k], e.owner);
    }
  }

  /** A run adds no file, so a target it found missing is afterwards missing or a directory. */
  lemma MissingStaysReachable(e: Env, s: State, path: string)
    requires StatOf(s.entries, Target(e, path)).Missing?
    ensures var es' := Ensured(e, s, path).0.entries; var t := Target(e, path);
      IsDir(es', t) || StatOf(es', t).Missing?
  {
    OutcomeOfEnsure(e, s, path);
    EnsuredAddsDirs(e, s, path);
    var es', t := Ensured(e, s, path).0.entries, Target(e, path);
    forall k | 0 <= k < |t| && t[..k] in es' ensures es'[t[..k]].Dir? {
      if t[..k] in s.entries {
        assert es'[t[..k]] == s.entries[t[..k]];
      }
    }
  }

  lemma NoFileIsAdded(es: Entries, after: Entries, ps: seq<Path>)
    requires NoFileAmong(es, ps) && Kept(es, after) && OnlyDirsAdded(es, after)
    ensures NoFileAmong(after, ps)
  {
  }

  /** A directory whose change of owner failed is taken as it is by every later run, even by one that
      meets no failure and reports success. */
  lemma FailedChownIsForgotten(e: Env, e2: Env, s: State, path: string)
    requires Ensured(e, s, path).1 == Err(ChownFailed) && e2.mount == e.mount && (forall c :: !e2.fails(c))
    requires Tree(s.entries) && IsDir(s.entries, e.mount) && NoFileAmong(s.entries, Chain(e, path))
    ensures var s' := Ensured(e, s, path).0; var again := Ensured(e2, s', path);
      again.1.Ok? && exists p :: p in Chain(e, path) && p !in s.entries && p in again.0.entries
                                 && again.0.entries[p] == Dir(e.user)
  {
    var s' := Ensured(e, s, path).0;
    EnsuredKeepsTree(e, s, path);
    MissingStaysReachable(e, s, path);
    OutcomeOfEnsure(e, s, path);
    EnsuredAddsDirs(e, s, path);
    NoFileIsAdded(s.entries, s'.entries, Chain(e, path));
    SucceedsIff(e2, s', path);
    var p := NotHandedOver(e, s, path);
    OutcomeOfEnsure(e2, s', path);
  }

  lemma BrokeOffOwners(e: Env, es: Entries, after: Entries, ps: seq<Path>, err: Error) returns (k: nat)
    requires BrokeOff(e, es, after, ps, err)
    ensures k < |ps|
    ensures if err.ChownFailed? then ps[k] !in es && ps[k] in after && after[ps[k]] == Dir(e.user)
            else forall p :: p in after && p !in es ==> after[p] == Dir(e.owner)
  {
    k :| BrokeOffAt(e, es, after, ps, err, k);
    MadeIsThese(es, ps[..k], e.owner);
  }

  /** The directory that a failed change of owner left behind. */
  lemma NotHandedOver(e: Env, s: State, path: string) returns (p: Path)
    requires Ensured(e, s, path).1 == Err(ChownFailed)
    ensures var es := Ensured(e, s, path).0.entries;
      p in Chain(e, path) && p !in s.entries && p in es && es[p] == Dir(e.user)
  {
    OutcomeOfEnsure(e, s, path);
    var k := BrokeOffOwners(e, s.entries, Ensured(e, s, path).0.entries, Chain(e, path), ChownFailed);
    p := Chain(e, path)[k];
  }

  /** Unless handing over failed, everything a run added belongs to the right owner. */
  lemma AddedAreOwned(e: Env, s: State, path: string)
    requires Ensured(e, s, path).1 != Err(ChownFailed)
    ensures var es := Ensured(e, s, path).0.entries; forall p :: p in es && p !in s.entries ==> es[p] == Dir(e.owner)
  {
    var ps := Chain(e, path);
    var (s', r) := Ensured(e, s, path);
    OutcomeOfEnsure(e, s, path);
    MadeIsThese(s.entries, ps, e.owner);
    if r.Err? && s'.entries != s.entries {
      var k := BrokeOffOwners(e, s.entries, s'.entries, ps, r.error);
    }
  }

  /** After a failed or successful run and a successful one, everything the two added belongs to the right
      owner if and only if the first did not fail in handing a directory over. */
  lemma OwnersAreRightIff(e: Env, e2: Env, s: State, path: string)
    requires e2.mount == e.mount && e2.owner == e.owner != e.user
    requires Ensured(e2, Ensured(e, s, path).0, path).1.Ok?
    ensures var es := Ensured(e2, Ensured(e, s, path).0, path).0.entries;
      (forall p :: p in es && p !in s.entries ==> es[p] == Dir(e.owner)) <==> Ensured(e, s, path).1 != Err(ChownFailed)
  {
    var s' := Ensured(e, s, path).0;
    OutcomeOfEnsure(e, s, path);
    OutcomeOfEnsure(e2, s', path);
    if Ensured(e, s, path).1 == Err(ChownFailed) {
      var p := NotHandedOver(e, s, path);
    } else {
      AddedAreOwned(e, s, path);
      AddedAreOwned(e2, s', path);
    }
  }
}
