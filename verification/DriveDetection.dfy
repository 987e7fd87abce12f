/**
 Choice of the installation drive: eligible drives are sorted in place by type, size and name, and the
 first one is taken.
 */
module DriveDetection {
  import opened Wrappers

  datatype Drive = Drive(name: string, size: nat, kind: string, tran: string, removable: bool)

  predicate Eligible(d: Drive) {
    d.size != 0 && d.kind == "disk" && !d.removable
  }

  datatype DiskType = Nvme | Sd | Other

  function GetDiskType(d: Drive): DiskType {
    if "nvme" <= d.name then Nvme
    else if "sd" <= d.name then Sd
    else Other
  }

  /** SATA and SCSI before NVMe before anything else. */
  function Rank(d: Drive): nat {
    match GetDiskType(d)
    case Sd => 0
    case Nvme => 1
    case Other => 2
  }

  /** Go's order on strings: lexicographic. */
  predicate NameLess(s: string, t: string) {
    t != "" && (s == "" || s[0] < t[0] || (s[0] == t[0] && NameLess(s[1..], t[1..])))
  }

  predicate Less(a: Drive, b: Drive) {
    if Rank(a) == Rank(b) then
      if a.size == b.size then NameLess(a.name, b.name)
      else a.size < b.size
    else Rank(a) < Rank(b)
  }

  // ---------------------------------------------------------------------------------------------
  // The order.
  // ---------------------------------------------------------------------------------------------

  lemma {:induction false} NamesAreOrdered(s: string, t: string)
    ensures !(NameLess(s, t) && NameLess(t, s))
    ensures NameLess(s, t) || NameLess(t, s) || s == t
    ensures !NameLess(s, s)
    decreases s, t
  {
    if s != "" && t != "" {
      NamesAreOrdered(s[1..], t[1..]);
      assert s == [s[0]] + s[1..] && t == [t[0]] + t[1..];
    }
    if s != "" {
      NamesAreOrdered(s[1..], s[1..]);
    }
  }

  lemma {:induction false} NamesAreTransitive(s: string, t: string, u: string)
    requires NameLess(s, t) && NameLess(t, u)
    ensures NameLess(s, u)
    decreases s
  {
    if s != "" && s[0] == t[0] == u[0] {
      NamesAreTransitive(s[1..], t[1..], u[1..]);
    }
  }

  /** Less is a strict order, and total on drives that differ in name. */
  lemma LessIsStrictTotal(a: Drive, b: Drive, c: Drive)
    ensures !Less(a, a) && !(Less(a, b) && Less(b, a))
    ensures Less(a, b) && Less(b, c) ==> Less(a, c)
    ensures Less(a, b) || Less(b, a) || a.name == b.name
    ensures !Less(a, b) && !Less(b, a) ==> a.name == b.name && a.size == b.size
  {
    NamesAreOrdered(a.name, b.name);
    if NameLess(a.name, b.name) && NameLess(b.name, c.name) {
      NamesAreTransitive(a.name, b.name, c.name);
    }
  }

  lemma NotLessIsTransitive(a: Drive, b: Drive, c: Drive)
    requires !Less(b, a) && !Less(c, b)
    ensures !Less(c, a)
  {
    LessIsStrictTotal(c, a, b);
    LessIsStrictTotal(a, b, c);
  }

  predicate Ordered(s: seq<Drive>) {
    forall p, q :: 0 <= p < q < |s| ==> !Less(s[q], s[p])
  }

  // ---------------------------------------------------------------------------------------------
  // The code. For up to twelve drives Go's sort is the insertion sort below; for more its result is the
  // same (OrderedIsUnique).
  // ---------------------------------------------------------------------------------------------

  method FilterDrives(drives: seq<Drive>) returns (filtered: seq<Drive>)
    ensures filtered == Filtered(drives)
  {
    filtered := [];
    for i := 0 to |drives|
      invariant filtered == Filtered(drives[..i])
    {
      assert drives[..i + 1][..i] == drives[..i];
      if drives[i].size != 0 && drives[i].kind == "disk" && !drives[i].removable {
        filtered := filtered + [drives[i]];
      }
    }
    assert drives[..|drives|] == drives;
  }

  function Filtered(drives: seq<Drive>): (r: seq<Drive>)
    ensures forall d :: d in r <==> d in drives && Eligible(d)
  {
    if drives == [] then [] else
      var last := drives[|drives| - 1];
      assert drives == drives[..|drives| - 1] + [last];
      Filtered(drives[..|drives| - 1]) + if Eligible(last) then [last] else []
  }

  method Swap(a: array<Drive>, i: nat, j: nat)
    requires i < a.Length && j < a.Length
    modifies a
    ensures a[i] == old(a[j]) && a[j] == old(a[i])
    ensures forall k :: 0 <= k < a.Length && k != i && k != j ==> a[k] == old(a[k])
    ensures multiset(a[..]) == old(multiset(a[..]))
  {
    a[i], a[j] := a[j], a[i];
  }

  method Sort(a: array<Drive>)
    modifies a
    ensures Ordered(a[..])
    ensures multiset(a[..]) == old(multiset(a[..]))
  {
    var i := 1;
    while i < a.Length
      invariant 1 <= i
      invariant forall p, q :: 0 <= p < q < i && q < a.Length ==> !Less(a[q], a[p])
      invariant multiset(a[..]) == old(multiset(a[..]))
    {
      SiftDown(a, i);
      i := i + 1;
    }
  }

  /** Moves a[i] down to its place among the ordered ones before it. */
  method SiftDown(a: array<Drive>, i: nat)
    requires i < a.Length && forall p, q :: 0 <= p < q < i ==> !Less(a[q], a[p])
    modifies a
    ensures forall p, q :: 0 <= p < q <= i ==> !Less(a[q], a[p])
    ensures multiset(a[..]) == old(multiset(a[..]))
  {
    var j := i;
    while j > 0 && Less(a[j], a[j - 1])
      invariant j <= i
      invariant forall p, q :: 0 <= p < q <= i && q != j ==> !Less(a[q], a[p])
      invariant multiset(a[..]) == old(multiset(a[..]))
    {
      LessIsStrictTotal(a[j], a[j - 1], a[j]);
      Swap(a, j, j - 1);
      j := j - 1;
    }
    forall p | 0 <= p < j ensures !Less(a[j], a[p]) {
      if p < j - 1 {
        NotLessIsTransitive(a[p], a[j - 1], a[j]);
      }
    }
  }

  method DetectDrive(drives: seq<Drive>) returns (r: Result<string, string>)
    ensures r.Err? <==> forall d :: d in drives ==> !Eligible(d)
    ensures r.Ok? ==> exists d :: IsBest(drives, d) && r.value == "/dev/" + d.name
  {
    var filtered := FilterDrives(drives);
    var a := new Drive[|filtered|](k requires 0 <= k < |filtered| => filtered[k]);
    assert a[..] == filtered;
    Sort(a);
    if a.Length >= 1 {
      SortedKeeps(filtered, a[..]);
      FirstIsBest(drives, a[..]);
      return Ok("/dev/" + a[0].name);
    }
    return Err("No valid drives found.");
  }

  // ---------------------------------------------------------------------------------------------
  // What is chosen.
  // ---------------------------------------------------------------------------------------------

  /** An eligible drive that no eligible drive precedes. */
  ghost predicate IsBest(drives: seq<Drive>, d: Drive) {
    d in drives && Eligible(d) && forall o :: o in drives && Eligible(o) ==> !Less(o, d)
  }

  lemma SortedKeeps(s: seq<Drive>, t: seq<Drive>)
    requires multiset(s) == multiset(t)
    ensures |s| == |t| && forall d :: d in s <==> d in t
  {
    assert |multiset(s)| == |s| && |multiset(t)| == |t|;
    forall d ensures d in s <==> d in t {
      assert d in s <==> d in multiset(s);
      assert d in t <==> d in multiset(t);
    }
  }

  lemma FirstIsBest(drives: seq<Drive>, s: seq<Drive>)
    requires s != [] && Ordered(s) && forall d :: d in s <==> d in drives && Eligible(d)
    ensures IsBest(drives, s[0])
  {
    LessIsStrictTotal(s[0], s[0], s[0]);
    forall o | o in drives && Eligible(o) ensures !Less(o, s[0]) {
      var k :| 0 <= k < |s| && s[k] == o;
    }
  }

  /** The choice does not depend on how the drives are listed: not on their order, nor on repetitions. */
  lemma ChoiceIgnoresOrder(drives: seq<Drive>, other: seq<Drive>, d: Drive, o: Drive)
    requires forall x :: x in drives <==> x in other
    requires IsBest(drives, d) && IsBest(other, o)
    ensures d.name == o.name && d.size == o.size
  {
    LessIsStrictTotal(d, o, d);
  }

  /** Go's order on strings: a proper prefix comes first, else the first character that differs decides. */
  lemma {:induction false} NameLessIff(s: string, t: string)
    ensures NameLess(s, t) <==> s < t || exists k :: DiffersAt(s, t, k)
    decreases |s|
  {
    if s != "" && t != "" && s[0] == t[0] {
      NameLessIff(s[1..], t[1..]);
      assert s == [s[0]] + s[1..] && t == [t[0]] + t[1..];
      assert s < t <==> s[1..] < t[1..];
      SameFirst(s, t);
    } else if s != "" && t != "" {
      assert s[0] < t[0] ==> DiffersAt(s, t, 0);
      forall k: nat | 0 < k < |s| && k < |t| ensures s[..k] != t[..k] {
        assert s[..k][0] != t[..k][0];
      }
    }
  }

  /** s and t agree up to the k-th character, which is smaller in s. */
  predicate DiffersAt(s: string, t: string, k: nat) {
    k < |s| && k < |t| && s[..k] == t[..k] && s[k] < t[k]
  }

  lemma SameFirst(s: string, t: string)
    requires s != "" && t != "" && s[0] == t[0]
    ensures (exists k :: DiffersAt(s, t, k)) <==> exists k :: DiffersAt(s[1..], t[1..], k)
  {
    forall k: nat | DiffersAt(s, t, k) ensures k > 0 && DiffersAt(s[1..], t[1..], k - 1) {
      assert k > 0 ==> s[1..][..k - 1] == s[..k][1..] && t[1..][..k - 1] == t[..k][1..];
    }
    forall k: nat | DiffersAt(s[1..], t[1..], k) ensures DiffersAt(s, t, k + 1) {
      assert s[..k + 1] == [s[0]] + s[1..][..k] && t[..k + 1] == [t[0]] + t[1..][..k];
    }
  }

  /** A disk to install on: of some size and not removable. */
  predicate Usable(d: Drive) {
    d.size > 0 && d.kind == "disk" && !d.removable
  }

  predicate SameType(d: Drive, o: Drive) {
    ("sd" <= d.name <==> "sd" <= o.name) && ("nvme" <= d.name <==> "nvme" <= o.name)
  }

  /** The best drive is SATA or SCSI if there is one, else NVMe if there is one; it is the smallest of its type,
      and of these the first by name. */
  lemma BestIffForemost(drives: seq<Drive>, d: Drive)
    ensures IsBest(drives, d) <==>
      && d in drives && Usable(d)
      && (forall o :: o in drives && Usable(o) && "sd" <= o.name ==> "sd" <= d.name)
      && (forall o :: o in drives && Usable(o) && "nvme" <= o.name ==> "nvme" <= d.name || "sd" <= d.name)
      && (forall o :: o in drives && Usable(o) && SameType(d, o) ==> d.size <= o.size)
      && (forall o :: o in drives && Usable(o) && SameType(d, o) && o.size == d.size && o.name != d.name ==>
            NameLess(d.name, o.name))
  {
    forall o: Drive ensures o.name != d.name ==> (NameLess(d.name, o.name) <==> !NameLess(o.name, d.name)) {
      NamesAreOrdered(o.name, d.name);
    }
    NamesAreOrdered(d.name, d.name);
    forall o: Drive ensures !("sd" <= o.name && "nvme" <= o.name) {
      assert "sd" <= o.name ==> o.name[0] == 's';
      assert "nvme" <= o.name ==> o.name[0] == 'n';
    }
    assert forall o: Drive :: SameType(d, o) <==> Rank(d) == Rank(o);
  }

  /** A drive is found exactly if one can be installed on. */
  lemma FoundIff(drives: seq<Drive>)
    ensures Filtered(drives) == [] <==> forall d :: d in drives ==> !Usable(d)
  {
    if Filtered(drives) != [] {
      assert Filtered(drives)[0] in Filtered(drives);
    }
  }

  predicate DistinctNames(s: seq<Drive>) {
    forall j, k :: 0 <= j < k < |s| ==> s[j].name != s[k].name
  }

  lemma SameHead(s: seq<Drive>, t: seq<Drive>)
    requires Ordered(s) && Ordered(t) && multiset(s) == multiset(t) && DistinctNames(s) && s != []
    ensures t != [] && s[0] == t[0]
  {
    SortedKeeps(s, t);
    assert s[0] in t && t[0] in s;
    LessIsStrictTotal(s[0], t[0], s[0]);
  }

  lemma TailKeeps(s: seq<Drive>)
    requires s != []
    ensures multiset(s[1..]) == multiset(s) - multiset{s[0]}
  {
    assert s == [s[0]] + s[1..];
  }

  /** Ordering leaves no choice: any sort of distinctly named drives gives the same list. */
  lemma {:induction false} OrderedIsUnique(s: seq<Drive>, t: seq<Drive>)
    requires Ordered(s) && Ordered(t) && multiset(s) == multiset(t) && DistinctNames(s)
    ensures s == t
    decreases |s|
  {
    SortedKeeps(s, t);
    if s != [] {
      SameHead(s, t);
      TailKeeps(s);
      TailKeeps(t);
      OrderedIsUnique(s[1..], t[1..]);
      assert s == [s[0]] + s[1..] && t == [t[0]] + t[1..];
    }
  }
}
