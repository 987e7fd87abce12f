/** The library functions on strings that several parts of the system rely on. */
module Strings {
  /** The pieces of s between occurrences of c. */
  function Split(s: string, c: char): (parts: seq<string>)
    ensures parts != [] && (|parts| == 1 <==> c !in s) && (c !in s ==> parts[0] == s)
  {
    if s == "" then [""]
    else if s[0] == c then [""] + Split(s[1..], c)
    else OntoFirst(s[0], Split(s[1..], c))
  }

  function OntoFirst(a: char, parts: seq<string>): (r: seq<string>)
    requires parts != []
    ensures |r| == |parts| && r[0] == [a] + parts[0] && forall k :: 0 < k < |parts| ==> r[k] == parts[k]
  {
    [[a] + parts[0]] + parts[1..]
  }

  function Joined(parts: seq<string>, c: char): string
    requires parts != []
  {
    if |parts| == 1 then parts[0] else parts[0] + [c] + Joined(parts[1..], c)
  }

  lemma JoinedOnto(a: char, parts: seq<string>, c: char)
    requires parts != []
    ensures Joined([""] + parts, c) == [c] + Joined(parts, c)
    ensures Joined(OntoFirst(a, parts), c) == [a] + Joined(parts, c)
  {
    assert ([""] + parts)[1..] == parts;
    assert OntoFirst(a, parts)[1..] == parts[1..];
  }

  /** Split cuts at every c and loses nothing. */
  lemma {:induction false} SplitJoins(s: string, c: char)
    ensures forall k :: 0 <= k < |Split(s, c)| ==> c !in Split(s, c)[k]
    ensures Joined(Split(s, c), c) == s
    decreases |s|
  {
    if s != "" {
      SplitJoins(s[1..], c);
      JoinedOnto(s[0], Split(s[1..], c), c);
      assert s == [s[0]] + s[1..];
    }
  }

  lemma {:induction false} SplitConcat(s: string, t: string, c: char)
    ensures Split(s + [c] + t, c) == Split(s, c) + Split(t, c)
    decreases |s|
  {
    if s == "" {
      assert (s + [c] + t)[1..] == t;
    } else {
      assert (s + [c] + t)[1..] == s[1..] + [c] + t;
      SplitConcat(s[1..], t, c);
      if s[0] != c {
        OntoFirstConcat(s[0], Split(s[1..], c), Split(t, c));
      }
    }
  }

  lemma OntoFirstConcat(a: char, parts: seq<string>, more: seq<string>)
    requires parts != []
    ensures OntoFirst(a, parts + more) == OntoFirst(a, parts) + more
  {
  }

  /** Joining and splitting gives the parts back, if none has the separator in it. */
  lemma {:induction false} SplitOfJoined(parts: seq<string>, c: char)
    requires parts != [] && forall k :: 0 <= k < |parts| ==> c !in parts[k]
    ensures Split(Joined(parts, c), c) == parts
    decreases |parts|
  {
    if |parts| > 1 {
      SplitOfJoined(parts[1..], c);
      SplitConcat(parts[0], Joined(parts[1..], c), c);
      assert Split(parts[0], c) == [parts[0]];
      assert [parts[0]] + parts[1..] == parts;
    }
  }

  predicate IsSpace(c: char) {
    c == ' ' || '\t' <= c <= '\r'
  }

  /** Space, tab, line feed, vertical tab, form feed and carriage return. */
  lemma SpacesAre(c: char)
    ensures IsSpace(c) <==> c as int in {32, 9, 10, 11, 12, 13}
  {
  }

  function TrimLeft(s: string): (r: string)
    ensures r == "" || !IsSpace(r[0])
  {
    if s != "" && IsSpace(s[0]) then TrimLeft(s[1..]) else s
  }

  function TrimRight(s: string): (r: string)
    ensures r <= s && (r == "" || !IsSpace(r[|r| - 1]))
  {
    if s != "" && IsSpace(s[|s| - 1]) then TrimRight(s[..|s| - 1]) else s
  }

  function TrimSpace(s: string): (r: string)
    ensures r == "" || (!IsSpace(r[0]) && !IsSpace(r[|r| - 1]))
  {
    TrimRight(TrimLeft(s))
  }

  predicate OneWord(s: string) {
    forall k :: 0 <= k < |s| ==> !IsSpace(s[k])
  }

  function Trimmed(parts: seq<string>): (r: seq<string>)
    ensures |r| == |parts| && forall k :: 0 <= k < |parts| ==> r[k] == TrimSpace(parts[k])
  {
    seq(|parts|, k requires 0 <= k < |parts| => TrimSpace(parts[k]))
  }

  lemma {:induction false} TrimIgnoresLast(s: string, b: char)
    requires IsSpace(b)
    ensures TrimSpace(s + [b]) == TrimSpace(s)
    decreases |s|
  {
    if s == "" {
      assert TrimLeft([b]) == TrimLeft("");
    } else if IsSpace(s[0]) {
      assert (s + [b])[1..] == s[1..] + [b];
      TrimIgnoresLast(s[1..], b);
    } else {
      assert (s + [b])[..|s|] == s;
    }
  }

  function OntoLast(parts: seq<string>, b: char): seq<string>
    requires parts != []
  {
    parts[..|parts| - 1] + [parts[|parts| - 1] + [b]]
  }

  lemma OntoBoth(a: char, parts: seq<string>, b: char)
    requires parts != []
    ensures OntoFirst(a, OntoLast(parts, b)) == OntoLast(OntoFirst(a, parts), b)
    ensures [""] + OntoLast(parts, b) == OntoLast([""] + parts, b)
  {
    var l, r := OntoFirst(a, OntoLast(parts, b)), OntoLast(OntoFirst(a, parts), b);
    assert |l| == |r| == |parts|;
    forall k | 0 <= k < |parts| ensures l[k] == r[k] {
      if k == 0 && |parts| == 1 {
        assert [a] + (parts[0] + [b]) == [a] + parts[0] + [b];
      }
    }
  }

  lemma {:induction false} SplitLast(s: string, c: char, b: char)
    requires b != c
    ensures Split(s + [b], c) == OntoLast(Split(s, c), b)
    decreases |s|
  {
    if s == "" {
      assert Split([b], c) == OntoFirst(b, [""]);
    } else {
      assert (s + [b])[1..] == s[1..] + [b];
      SplitLast(s[1..], c, b);
      OntoBoth(s[0], Split(s[1..], c), b);
    }
  }

  lemma TrimIgnoresFirst(s: string, b: char)
    requires IsSpace(b)
    ensures TrimSpace([b] + s) == TrimSpace(s)
  {
    assert ([b] + s)[1..] == s;
  }

  lemma SameTrimmed(parts: seq<string>, others: seq<string>, i: nat)
    requires i < |parts| == |others| && TrimSpace(parts[i]) == TrimSpace(others[i])
    requires forall k :: 0 <= k < |parts| && k != i ==> parts[k] == others[k]
    ensures Trimmed(parts) == Trimmed(others)
  {
  }

  lemma TrimOnto(parts: seq<string>, b: char)
    requires parts != [] && IsSpace(b)
    ensures Trimmed(OntoFirst(b, parts)) == Trimmed(parts)
    ensures Trimmed(OntoLast(parts, b)) == Trimmed(parts)
  {
    TrimIgnoresFirst(parts[0], b);
    SameTrimmed(OntoFirst(b, parts), parts, 0);
    TrimIgnoresLast(parts[|parts| - 1], b);
    SameTrimmed(OntoLast(parts, b), parts, |parts| - 1);
  }

  lemma {:induction false} SplitTrimLeft(s: string, c: char)
    requires !IsSpace(c)
    ensures Trimmed(Split(TrimLeft(s), c)) == Trimmed(Split(s, c))
    decreases |s|
  {
    if s != "" && IsSpace(s[0]) {
      SplitTrimLeft(s[1..], c);
      TrimOnto(Split(s[1..], c), s[0]);
    }
  }

  lemma SplitBlankLast(s: string, c: char, b: char)
    requires b != c && IsSpace(b)
    ensures Trimmed(Split(s + [b], c)) == Trimmed(Split(s, c))
  {
    SplitLast(s, c, b);
    TrimOnto(Split(s, c), b);
  }

  lemma {:induction false} SplitTrimRight(s: string, c: char)
    requires !IsSpace(c)
    ensures Trimmed(Split(TrimRight(s), c)) == Trimmed(Split(s, c))
    decreases |s|
  {
    if s != "" && IsSpace(s[|s| - 1]) {
      var init, b := s[..|s| - 1], s[|s| - 1];
      SplitTrimRight(init, c);
      SplitBlankLast(init, c, b);
      assert init + [b] == s;
    }
  }

  lemma {:induction false} PartsAreWords(s: string, c: char)
    requires OneWord(s)
    ensures forall k :: 0 <= k < |Split(s, c)| ==> OneWord(Split(s, c)[k])
    decreases |s|
  {
    if s != "" {
      PartsAreWords(s[1..], c);
    }
  }

  lemma WordIsTrimmed(w: string)
    requires OneWord(w)
    ensures TrimSpace(w) == w
  {
  }

  /** Blanks around the parts of a list that is one word once trimmed are only at its ends. */
  lemma SplitOfTrimmed(s: string, c: char)
    requires !IsSpace(c) && OneWord(TrimSpace(s))
    ensures Split(TrimSpace(s), c) == Trimmed(Split(s, c))
  {
    SplitTrimLeft(s, c);
    SplitTrimRight(TrimLeft(s), c);
    var parts := Split(TrimSpace(s), c);
    PartsAreWords(TrimSpace(s), c);
    forall k | 0 <= k < |parts| ensures Trimmed(parts)[k] == parts[k] {
      WordIsTrimmed(parts[k]);
    }
    assert Trimmed(parts) == parts;
  }
}
