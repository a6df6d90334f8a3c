/** Splitting and joining strings. */
module Text {

  predicate Free(s: string, seps: set<char>) {
    forall i | 0 <= i < |s| :: s[i] !in seps
  }

  /** One more character on the last piece. */
  function Extend(parts: seq<string>, c: char): (r: seq<string>)
    requires parts != []
    ensures |r| == |parts|
  {
    parts[..|parts| - 1] + [parts[|parts| - 1] + [c]]
  }

  /** `str::split`: the pieces between separators, empty ones included. */
  function Split(s: string, seps: set<char>): (parts: seq<string>)
    ensures |parts| > 0
    ensures forall i | 0 <= i < |parts| :: Free(parts[i], seps)
  {
    if s == [] then [""]
    else
      var before, c := Split(s[..|s| - 1], seps), s[|s| - 1];
      if c in seps then before + [""] else Extend(before, c)
  }

  lemma SplitNext(s: string, c: char, seps: set<char>)
    ensures Split(s + [c], seps) == if c in seps then Split(s, seps) + [""] else Extend(Split(s, seps), c)
  {
    assert (s + [c])[..|s|] == s;
  }

  lemma ExtendAppend(a: seq<string>, b: seq<string>, c: char)
    requires b != []
    ensures Extend(a + b, c) == a + Extend(b, c)
  {
  }

  lemma LastApart(s: string, t: string)
    requires t != []
    ensures t == t[..|t| - 1] + [t[|t| - 1]]
    ensures s + t == s + t[..|t| - 1] + [t[|t| - 1]]
  {
  }

  lemma Regroup(a: seq<string>, b: seq<string>, c: seq<string>)
    ensures a + b + c == a + (b + c)
  {
  }

  /** One more character behind two pieces joined by a separator. */
  lemma SplitAppendNext(u: string, t: string, x: char, a: seq<string>, seps: set<char>)
    requires Split(u, seps) == a + Split(t, seps)
    ensures Split(u + [x], seps) == a + Split(t + [x], seps)
  {
    SplitNext(u, x, seps);
    SplitNext(t, x, seps);
    ExtendAppend(a, Split(t, seps), x);
    Regroup(a, Split(t, seps), [""]);
  }

  lemma {:induction false} SplitAppend(s: string, c: char, t: string, seps: set<char>)
    requires c in seps
    ensures Split(s + [c] + t, seps) == Split(s, seps) + Split(t, seps)
  {
    if t == [] {
      SplitNext(s, c, seps);
      assert s + [c] + t == s + [c];
    } else {
      var n := |t| - 1;
      SplitAppend(s, c, t[..n], seps);
      SplitAppendNext(s + [c] + t[..n], t[..n], t[n], Split(s, seps), seps);
      LastApart(s + [c], t);
    }
  }

  lemma {:induction false} SplitFree(s: string, seps: set<char>)
    requires Free(s, seps)
    ensures Split(s, seps) == [s]
  {
    if s != [] {
      SplitFree(s[..|s| - 1], seps);
      assert s == s[..|s| - 1] + [s[|s| - 1]];
    }
  }

  /** `filter(|s| !s.is_empty())` */
  function NonEmpty(parts: seq<string>): (r: seq<string>)
    ensures forall i | 0 <= i < |r| :: r[i] != ""
  {
    if parts == [] then []
    else NonEmpty(parts[..|parts| - 1]) + (if parts[|parts| - 1] == "" then [] else [parts[|parts| - 1]])
  }

  lemma {:induction false} NonEmptyAppend(a: seq<string>, b: seq<string>)
    ensures NonEmpty(a + b) == NonEmpty(a) + NonEmpty(b)
  {
    if b == [] {
      assert a + b == a;
    } else {
      assert (a + b)[..|a + b| - 1] == a + b[..|b| - 1];
      NonEmptyAppend(a, b[..|b| - 1]);
    }
  }

  lemma {:induction false} NonEmptyIn(parts: seq<string>, s: string)
    ensures s in NonEmpty(parts) <==> s in parts && s != ""
  {
    if parts != [] {
      NonEmptyIn(parts[..|parts| - 1], s);
      assert parts == parts[..|parts| - 1] + [parts[|parts| - 1]];
    }
  }

  lemma {:induction false} NonEmptySame(parts: seq<string>)
    requires forall i | 0 <= i < |parts| :: parts[i] != ""
    ensures NonEmpty(parts) == parts
  {
    if parts != [] {
      NonEmptySame(parts[..|parts| - 1]);
      assert parts == parts[..|parts| - 1] + [parts[|parts| - 1]];
    }
  }

  /** `[String]::join` with a one-character separator. */
  function Join(parts: seq<string>, sep: char): string {
    if parts == [] then ""
    else if |parts| == 1 then parts[0]
    else Join(parts[..|parts| - 1], sep) + [sep] + parts[|parts| - 1]
  }

  /** Splitting a joined string gives the parts back. */
  lemma {:induction false} SplitJoin(parts: seq<string>, sep: char, seps: set<char>)
    requires parts != [] && sep in seps
    requires forall i | 0 <= i < |parts| :: Free(parts[i], seps)
    ensures Split(Join(parts, sep), seps) == parts
  {
    var n := |parts| - 1;
    SplitFree(parts[n], seps);
    if n > 0 {
      SplitJoin(parts[..n], sep, seps);
      SplitAppend(Join(parts[..n], sep), sep, parts[n], seps);
    }
    assert parts == parts[..n] + [parts[n]];
  }
}
