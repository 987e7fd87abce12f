/**
 Flattening of a nested template input into a string map: every exported field that is not itself a
 struct becomes an entry under the concatenation of the field names on the way to it.
 */
module FlattenStruct {
  import opened Wrappers

  /** A reflected value: a scalar with its printed form, a struct, or a pointer with its printed form. */
  datatype Value =
    | Scalar(text: string)
    | Struct(fields: seq<Field>)
    | Nil
    | Pointer(address: string, to: Value)

  datatype Field = Field(name: string, exported: bool, value: Value)

  function Target(v: Value): Value {
    if v.Pointer? then v.to else v
  }

  /** A field of this form is entered; every other form, a nil pointer included, is printed. */
  predicate Nested(v: Value) {
    Target(v).Struct?
  }

  function Print(v: Value): string
    requires !Nested(v)
  {
    match v
    case Scalar(text) => text
    case Nil => "<nil>"
    case Pointer(address, _) => address
  }

  // ---------------------------------------------------------------------------------------------
  // Reference: what a chain of field numbers leads to, and when one chain is visited before another.
  // ---------------------------------------------------------------------------------------------

  /** The text of a leaf; a struct, or a pointer to one, is none. */
  function LeafText(v: Value): Option<string> {
    match v
    case Scalar(text) => Some(text)
    case Nil => Some("<nil>")
    case Struct(_) => None
    case Pointer(address, to) => if to.Struct? then None else Some(address)
  }

  function At(v: Value, path: seq<nat>, prefix: string): Option<(string, string)>
    decreases v
  {
    if v.Pointer? && v.to.Struct? then At(v.to, path, prefix)
    else if !v.Struct? || path == [] || path[0] >= |v.fields| || !v.fields[path[0]].exported then None
    else
      var f := v.fields[path[0]];
      if path[1..] != [] then At(f.value, path[1..], prefix + f.name)
      else match LeafText(f.value) case None => None case Some(text) => Some((prefix + f.name, text))
  }

  predicate Before(p: seq<nat>, q: seq<nat>) {
    p != [] && q != [] && (p[0] < q[0] || (p[0] == q[0] && Before(p[1..], q[1..])))
  }

  predicate Names(v: Value, prefix: string, path: seq<nat>, key: string) {
    At(v, path, prefix).Some? && At(v, path, prefix).value.0 == key
  }

  /** path is the last leaf with this key, and text is what it prints. */
  ghost predicate Wins(v: Value, prefix: string, path: seq<nat>, key: string, text: string) {
    && At(v, path, prefix) == Some((key, text))
    && forall q :: Names(v, prefix, q, key) ==> q == path || Before(q, path)
  }

  // ---------------------------------------------------------------------------------------------
  // Visited leaves, and what writing them leaves in a map.
  // ---------------------------------------------------------------------------------------------

  datatype Entry = Entry(path: seq<nat>, key: string, text: string)

  function Under(i: nat, es: seq<Entry>): (r: seq<Entry>)
    ensures |r| == |es|
    ensures forall k :: 0 <= k < |es| ==> r[k] == es[k].(path := [i] + es[k].path)
  {
    seq(|es|, k requires 0 <= k < |es| => es[k].(path := [i] + es[k].path))
  }

  function Leaves(v: Value, prefix: string): seq<Entry>
    decreases v, 0
  {
    match v
    case Struct(fields) => FieldLeaves(v, |fields|, prefix)
    case Pointer(_, to) => if to.Struct? then FieldLeaves(to, |to.fields|, prefix) else []
    case _ => []
  }

  function LeavesOf(f: Field, i: nat, prefix: string): seq<Entry>
    decreases f, 1
  {
    if !f.exported then []
    else if Nested(f.value) then Under(i, Leaves(f.value, prefix + f.name))
    else [Entry([i], prefix + f.name, Print(f.value))]
  }

  function FieldLeaves(v: Value, n: nat, prefix: string): seq<Entry>
    requires v.Struct? && n <= |v.fields|
    decreases v, 0, n
  {
    if n == 0 then [] else FieldLeaves(v, n - 1, prefix) + LeavesOf(v.fields[n - 1], n - 1, prefix)
  }

  function Put(m: map<string, string>, es: seq<Entry>): map<string, string> {
    if es == [] then m
    else Put(m, es[..|es| - 1])[es[|es| - 1].key := es[|es| - 1].text]
  }

  lemma {:induction false} PutConcat(m: map<string, string>, es: seq<Entry>, fs: seq<Entry>)
    ensures Put(m, es + fs) == Put(Put(m, es), fs)
    decreases |fs|
  {
    if fs == [] {
      assert es + fs == es;
    } else {
      assert (es + fs)[..|es + fs| - 1] == es + fs[..|fs| - 1];
      PutConcat(m, es, fs[..|fs| - 1]);
    }
  }

  lemma {:induction false} PutUnder(m: map<string, string>, i: nat, es: seq<Entry>)
    ensures Put(m, Under(i, es)) == Put(m, es)
    decreases |es|
  {
    if es != [] {
      assert Under(i, es)[..|es| - 1] == Under(i, es[..|es| - 1]);
      PutUnder(m, i, es[..|es| - 1]);
    }
  }

  /** What visiting one more field does to the map. */
  lemma PutField(m: map<string, string>, v: Value, i: nat, prefix: string)
    requires v.Struct? && i < |v.fields|
    ensures var f := v.fields[i]; var m1 := Put(m, FieldLeaves(v, i, prefix)); var key := prefix + f.name;
      Put(m, FieldLeaves(v, i + 1, prefix)) ==
        if !f.exported then m1
        else if Nested(f.value) then Put(m1, Leaves(f.value, key))
        else m1[key := Print(f.value)]
  {
    var f := v.fields[i];
    PutConcat(m, FieldLeaves(v, i, prefix), LeavesOf(f, i, prefix));
    if f.exported && Nested(f.value) {
      PutUnder(Put(m, FieldLeaves(v, i, prefix)), i, Leaves(f.value, prefix + f.name));
    }
  }

  // ---------------------------------------------------------------------------------------------
  // The code.
  // ---------------------------------------------------------------------------------------------

  class Flattener {
    var result: map<string, string>

    constructor ()
      ensures result == map[]
    {
      result := map[];
    }

    method FlattenStruct(input: Value, prefix: string)
      modifies this
      ensures result == Put(old(result), Leaves(input, prefix))
      decreases input
    {
      var val := input;
      if val.Nil? {
        return;
      }
      if val.Pointer? {
        val := val.to;
      }
      if !val.Struct? {
        return;
      }
      for i := 0 to |val.fields|
        invariant result == Put(old(result), FieldLeaves(val, i, prefix))
      {
        var field := val.fields[i];
        PutField(old(result), val, i, prefix);
        if !field.exported {
          continue;
        }
        var key := field.name;
        if prefix != "" {
          key := prefix + key;
        }
        assert key == prefix + field.name;
        if Nested(field.value) {
          FlattenStruct(field.value, key);
        } else {
          result := result[key := Print(field.value)];
        }
      }
    }
  }

  method StructToMapStringString(input: Value) returns (r: map<string, string>)
    ensures r == Put(map[], Leaves(input, ""))
  {
    var f := new Flattener();
    f.FlattenStruct(input, "");
    r := f.result;
  }

  // ---------------------------------------------------------------------------------------------
  // The visited leaves are those of the reference, in its order.
  // ---------------------------------------------------------------------------------------------

  predicate Sound(v: Value, prefix: string, es: seq<Entry>) {
    forall k :: 0 <= k < |es| ==> At(v, es[k].path, prefix) == Some((es[k].key, es[k].text))
  }

  predicate Ascending(es: seq<Entry>) {
    forall j, k :: 0 <= j < k < |es| ==> Before(es[j].path, es[k].path)
  }

  lemma {:induction false} LeavesAreSound(v: Value, prefix: string)
    ensures Sound(v, prefix, Leaves(v, prefix)) && Ascending(Leaves(v, prefix))
    decreases v, 0
  {
    if Target(v).Struct? {
      FieldLeavesAreSound(Target(v), |Target(v).fields|, prefix);
      assert forall p :: At(v, p, prefix) == At(Target(v), p, prefix);
    }
  }

  lemma {:induction false} FieldLeavesAreSound(v: Value, n: nat, prefix: string)
    requires v.Struct? && n <= |v.fields|
    ensures var es := FieldLeaves(v, n, prefix);
      Sound(v, prefix, es) && Ascending(es) && forall k :: 0 <= k < |es| ==> es[k].path != [] && es[k].path[0] < n
    decreases v, 0, n
  {
    if n > 0 {
      FieldLeavesAreSound(v, n - 1, prefix);
      LeavesOfAreSound(v, n - 1, prefix);
      AscendingConcat(FieldLeaves(v, n - 1, prefix), LeavesOf(v.fields[n - 1], n - 1, prefix), n - 1);
    }
  }

  lemma AscendingConcat(a: seq<Entry>, b: seq<Entry>, i: nat)
    requires Ascending(a) && Ascending(b)
    requires forall k :: 0 <= k < |a| ==> a[k].path != [] && a[k].path[0] < i
    requires forall k :: 0 <= k < |b| ==> b[k].path != [] && b[k].path[0] == i
    ensures Ascending(a + b)
  {
  }

  /** The leaves of one field. */
  lemma {:induction false} LeavesOfAreSound(v: Value, i: nat, prefix: string)
    requires v.Struct? && i < |v.fields|
    ensures var es := LeavesOf(v.fields[i], i, prefix);
      Sound(v, prefix, es) && Ascending(es) && forall k :: 0 <= k < |es| ==> es[k].path != [] && es[k].path[0] == i
    decreases v, 0, i
  {
    var f := v.fields[i];
    if f.exported && Nested(f.value) {
      LeavesAreSound(f.value, prefix + f.name);
      var es, sub := LeavesOf(f, i, prefix), Leaves(f.value, prefix + f.name);
      forall k | 0 <= k < |es| ensures At(v, es[k].path, prefix) == Some((es[k].key, es[k].text)) {
        assert es[k].path[1..] == sub[k].path;
        assert At(f.value, sub[k].path, prefix + f.name) == At(Target(f.value), sub[k].path, prefix + f.name);
      }
    }
  }

  lemma {:induction false} LeavesAreComplete(v: Value, path: seq<nat>, prefix: string)
    requires At(v, path, prefix).Some?
    ensures var (key, text) := At(v, path, prefix).value; Entry(path, key, text) in Leaves(v, prefix)
    decreases v
  {
    var s, i := Target(v), path[0];
    var f := s.fields[i];
    var (key, text) := At(v, path, prefix).value;
    var es := LeavesOf(f, i, prefix);
    if Nested(f.value) {
      LeavesAreComplete(f.value, path[1..], prefix + f.name);
      var sub := Leaves(f.value, prefix + f.name);
      var k :| 0 <= k < |sub| && sub[k] == Entry(path[1..], key, text);
      assert es[k].path == [i] + path[1..] == path;
      assert es[k] == Entry(path, key, text);
    } else {
      assert At(f.value, path[1..], prefix + f.name) == None;
      assert path == [i];
      assert es[0] == Entry(path, key, text);
    }
    FieldLeavesInclude(s, |s.fields|, i, prefix, Entry(path, key, text));
  }

  lemma {:induction false} FieldLeavesInclude(v: Value, n: nat, i: nat, prefix: string, e: Entry)
    requires v.Struct? && i < n <= |v.fields| && e in LeavesOf(v.fields[i], i, prefix)
    ensures e in FieldLeaves(v, n, prefix)
    decreases n
  {
    if i < n - 1 {
      FieldLeavesInclude(v, n - 1, i, prefix, e);
    }
  }

  // ---------------------------------------------------------------------------------------------
  // Looking up a key.
  // ---------------------------------------------------------------------------------------------

  predicate LastWith(es: seq<Entry>, j: int, key: string) {
    0 <= j < |es| && es[j].key == key && forall k :: j < k < |es| ==> es[k].key != key
  }

  lemma {:induction false} PutLookup(m: map<string, string>, es: seq<Entry>, key: string) returns (j: int)
    ensures j == -1 || LastWith(es, j, key)
    ensures j >= 0 ==> key in Put(m, es) && Put(m, es)[key] == es[j].text
    ensures j == -1 ==> (forall k :: 0 <= k < |es| ==> es[k].key != key)
    ensures j == -1 ==> (key in Put(m, es) <==> key in m) && (key in m ==> Put(m, es)[key] == m[key])
    decreases |es|
  {
    if es == [] {
      j := -1;
    } else if es[|es| - 1].key == key {
      j := |es| - 1;
    } else {
      j := PutLookup(m, es[..|es| - 1], key);
    }
  }

  lemma {:induction false} BeforeIsAsymmetric(p: seq<nat>, q: seq<nat>)
    requires Before(p, q)
    ensures !Before(q, p) && p != q
    decreases |p|
  {
    if p[0] == q[0] {
      BeforeIsAsymmetric(p[1..], q[1..]);
    }
  }

  /** What a lookup in the flattened map finds: the last leaf of that name, else what was there before. */
  lemma FlattenedLookup(m: map<string, string>, v: Value, prefix: string, key: string, text: string)
    ensures var r := Put(m, Leaves(v, prefix));
      key in r && r[key] == text <==>
      if exists p :: Names(v, prefix, p, key) then exists p :: Wins(v, prefix, p, key, text)
      else key in m && m[key] == text
  {
    var es := Leaves(v, prefix);
    LeavesAreSound(v, prefix);
    var j := PutLookup(m, es, key);
    if j == -1 {
      forall p ensures !Names(v, prefix, p, key) {
        if Names(v, prefix, p, key) {
          LeavesAreComplete(v, p, prefix);
        }
      }
    } else {
      LastWins(v, prefix, j, key);
      forall p, t | Wins(v, prefix, p, key, t) ensures t == es[j].text {
        if p != es[j].path {
          BeforeIsAsymmetric(p, es[j].path);
        }
      }
    }
  }

  lemma LastWins(v: Value, prefix: string, j: int, key: string)
    requires LastWith(Leaves(v, prefix), j, key)
    ensures var e := Leaves(v, prefix)[j]; Names(v, prefix, e.path, key) && Wins(v, prefix, e.path, key, e.text)
  {
    var es := Leaves(v, prefix);
    LeavesAreSound(v, prefix);
    forall q | Names(v, prefix, q, key) ensures q == es[j].path || Before(q, es[j].path) {
      LeavesAreComplete(v, q, prefix);
      var k :| 0 <= k < |es| && es[k].path == q && es[k].key == key;
    }
  }

  // ---------------------------------------------------------------------------------------------
  // Size.
  // ---------------------------------------------------------------------------------------------

  predicate DistinctKeys(es: seq<Entry>) {
    forall j, k :: 0 <= j < k < |es| ==> es[j].key != es[k].key
  }

  lemma {:induction false} PutSize(es: seq<Entry>)
    ensures |Put(map[], es)| <= |es|
    ensures |Put(map[], es)| == |es| <==> DistinctKeys(es)
    decreases |es|
  {
    if es != [] {
      var init, e := es[..|es| - 1], es[|es| - 1];
      PutSize(init);
      var j := PutLookup(map[], init, e.key);
      var m := Put(map[], init);
      assert m[e.key := e.text].Keys == m.Keys + {e.key};
      assert |m| == |m.Keys| && |m[e.key := e.text]| == |m[e.key := e.text].Keys|;
    }
  }

  /** No leaf is lost exactly when no two leaves have the same concatenated name. */
  lemma SizeIsNumberOfLeavesIff(v: Value)
    ensures |Put(map[], Leaves(v, ""))| == |Leaves(v, "")| <==>
      forall p, q, key :: Names(v, "", p, key) && Names(v, "", q, key) ==> p == q
  {
    var es := Leaves(v, "");
    PutSize(es);
    LeavesAreSound(v, "");
    forall p, q, key | DistinctKeys(es) && Names(v, "", p, key) && Names(v, "", q, key) ensures p == q {
      LeavesAreComplete(v, p, "");
      LeavesAreComplete(v, q, "");
    }
    forall j, k | 0 <= j < k < |es| && es[j].key == es[k].key
      ensures exists p, q, key :: Names(v, "", p, key) && Names(v, "", q, key) && p != q
    {
      BeforeIsAsymmetric(es[j].path, es[k].path);
      assert Names(v, "", es[j].path, es[j].key) && Names(v, "", es[k].path, es[j].key);
    }
  }
}
