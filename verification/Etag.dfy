/** Matching an `If-None-Match` header against an entity tag (sections 2.3, 2.3.2 and 3.2 of RFC 7232). */
module Etag {

  /** Unicode white space, as `str::trim` sees it. */
  predicate IsSpace(c: char) {
    var n := c as int;
    0x09 <= n <= 0x0D || n == 0x20 || n == 0x85 || n == 0xA0 || n == 0x1680 || 0x2000 <= n <= 0x200A
    || n == 0x2028 || n == 0x2029 || n == 0x202F || n == 0x205F || n == 0x3000
  }

  function TrimStart(s: string): (t: string)
    ensures |t| <= |s|
  {
    if s != [] && IsSpace(s[0]) then TrimStart(s[1..]) else s
  }

  function TrimEnd(s: string): (t: string)
    ensures |t| <= |s|
  {
    if s != [] && IsSpace(s[|s| - 1]) then TrimEnd(s[..|s| - 1]) else s
  }

  function Trim(s: string): (t: string)
    ensures |t| <= |s|
  {
    TrimEnd(TrimStart(s))
  }

  /** The characters that `scan_etag` passes over inside a tag. */
  predicate Passes(c: char) {
    c == '!' || 0x23 <= c as int < 0x7E || c as int >= 0x80
  }

  predicate IsWeak(s: string) {
    |s| >= 2 && s[0] == 'W' && s[1] == '/'
  }

  /** From the position behind the opening quote to the closing one. */
  function ScanFrom(s: string, i: nat): (r: (string, string))
    requires i <= |s|
    decreases |s| - i
    ensures |r.0| + |r.1| <= |s|
  {
    if i == |s| then ("", "")
    else if Passes(s[i]) then ScanFrom(s, i + 1)
    else if s[i] == '"' then (s[..i + 1], s[i + 1..])
    else ("", "")
  }

  function ScanText(s: string): (r: (string, string))
    ensures |r.0| + |r.1| <= |s|
  {
    var start := if IsWeak(s) then 2 else 0;
    if |s| - start < 2 || s[start] != '"' then ("", "") else ScanFrom(s, start + 1)
  }

  /** `scan_etag`: the tag at the start of the text and what follows it, or two empty strings. */
  function Scan(buf: string): (r: (string, string))
    ensures |r.0| + |r.1| <= |buf|
  {
    ScanText(Trim(buf))
  }

  /** `trim_start_matches("W/")`: every marker at the front. */
  function StripWeak(s: string): string {
    if IsWeak(s) then StripWeak(s[2..]) else s
  }

  /** `etag_weak_match` */
  predicate WeakMatch(a: string, b: string) {
    StripWeak(a) == StripWeak(b)
  }

  /** The loop of `etag_matches`. */
  predicate MatchFrom(buf: string, etag: string)
    decreases |buf|
  {
    if buf == "" then false
    else if buf[0] == ',' then MatchFrom(buf[1..], etag)
    else if buf[0] == '*' then true
    else
      var r := Scan(buf);
      if r.0 == "" then false else WeakMatch(r.0, etag) || MatchFrom(r.1, etag)
  }

  /** `etag_matches` */
  predicate Matches(header: string, etag: string) {
    MatchFrom(Trim(header), etag)
  }

  /* ---- The loops ---- */

  method ScanEtag(buf: string) returns (etag: string, remain: string)
    ensures (etag, remain) == Scan(buf)
  {
    var s := Trim(buf);
    var start := 0;
    if IsWeak(s) {
      start := 2;
    }
    if |s| - start < 2 || s[start] != '"' {
      return "", "";
    }
    for i := start + 1 to |s|
      invariant ScanFrom(s, start + 1) == ScanFrom(s, i)
    {
      var c := s[i];
      if Passes(c) {
        continue;
      }
      if c == '"' {
        return s[..i + 1], s[i + 1..];
      }
      return "", "";
    }
    return "", "";
  }

  method EtagMatches(header: string, etag: string) returns (found: bool)
    ensures found == Matches(header, etag)
  {
    var buf := Trim(header);
    while buf != ""
      invariant Matches(header, etag) == MatchFrom(buf, etag)
      decreases |buf|
    {
      if buf[0] == ',' {
        buf := buf[1..];
        continue;
      }
      if buf[0] == '*' {
        return true;
      }
      var tag, remain := ScanEtag(buf);
      if tag == "" {
        return false;
      }
      if WeakMatch(tag, etag) {
        return true;
      }
      buf := remain;
    }
    found := false;
  }

  /* ---- Entity-tag lists ---- */

  /** `etagc` of RFC 7232. */
  predicate TagChar(c: char) {
    c == '!' || 0x23 <= c as int <= 0x7E || c as int >= 0x80
  }

  datatype Tag = Tag(weak: bool, text: string)

  predicate WellFormed(t: Tag) {
    forall i | 0 <= i < |t.text| :: TagChar(t.text[i])
  }

  /** Without a tilde, which the standard allows and the scanner does not. */
  predicate Scannable(t: Tag) {
    forall i | 0 <= i < |t.text| :: Passes(t.text[i])
  }

  function Quoted(t: Tag): string {
    "\"" + t.text + "\""
  }

  function Show(t: Tag): string {
    if t.weak then "W/" + Quoted(t) else Quoted(t)
  }

  predicate Blank(s: string) {
    forall i | 0 <= i < |s| :: s[i] == ' ' || s[i] == '\t'
  }

  /** A further element of a list: the white space before its comma, the white space after it, the tag. */
  datatype Element = Element(before: string, after: string, tag: Tag)

  predicate ElementOk(e: Element) {
    Blank(e.before) && Blank(e.after) && WellFormed(e.tag)
  }

  predicate ElementsOk(es: seq<Element>) {
    forall i | 0 <= i < |es| :: ElementOk(es[i])
  }

  function ShowElements(es: seq<Element>): string {
    if es == [] then "" else es[0].before + "," + es[0].after + Show(es[0].tag) + ShowElements(es[1..])
  }

  /** What the code answers: a tag counts only if it and all tags before it can be scanned, and no comma
      up to it has white space in front. */
  predicate Answer(first: Tag, es: seq<Element>, etag: string)
    decreases |es|
  {
    Scannable(first)
    && (Quoted(first) == StripWeak(etag) || (es != [] && es[0].before == "" && Answer(es[0].tag, es[1..], etag)))
  }

  /* ---- Trimming ---- */

  lemma {:induction false} TrimStartBlank(a: string, x: string)
    requires Blank(a) && x != "" && !IsSpace(x[0])
    ensures TrimStart(a + x) == x
  {
    if a == "" {
      assert a + x == x;
    } else {
      TrimStartBlank(a[1..], x);
      assert (a + x)[0] == a[0] && (a + x)[1..] == a[1..] + x;
    }
  }

  lemma {:induction false} TrimEndBlank(x: string, b: string)
    requires Blank(b) && x != "" && !IsSpace(x[|x| - 1])
    ensures TrimEnd(x + b) == x
  {
    if b == "" {
      assert x + b == x;
    } else {
      var n := |b| - 1;
      TrimEndBlank(x, b[..n]);
      assert (x + b)[|x + b| - 1] == b[n] && (x + b)[..|x + b| - 1] == x + b[..n];
    }
  }

  lemma TrimBlank(a: string, x: string, b: string)
    requires Blank(a) && Blank(b) && x != "" && !IsSpace(x[0]) && !IsSpace(x[|x| - 1])
    ensures Trim(a + x + b) == x
  {
    TrimStartBlank(a, x + b);
    assert a + x + b == a + (x + b);
    TrimEndBlank(x, b);
  }

  /* ---- The shape of a printed list ---- */

  lemma ShowEnds(t: Tag)
    ensures |Show(t)| >= 2 && (Show(t)[0] == '"' || Show(t)[0] == 'W') && Show(t)[|Show(t)| - 1] == '"'
  {
  }

  lemma Regroup(a: string, b: string, c: string, d: string, e: string)
    ensures a + (b + c + d + e) == a + (b + c) + (d + e)
  {
  }

  lemma EndsOf(a: string, b: string)
    requires a != "" && b != ""
    ensures (a + b)[0] == a[0] && (a + b)[|a + b| - 1] == b[|b| - 1]
  {
  }

  lemma {:induction false} ListEnds(first: Tag, es: seq<Element>)
    ensures var s := Show(first) + ShowElements(es);
            |s| >= 2 && s[0] == Show(first)[0] && s[|s| - 1] == '"'
    decreases |es|
  {
    ShowEnds(first);
    if es != [] {
      ListEnds(es[0].tag, es[1..]);
      var u := Show(es[0].tag) + ShowElements(es[1..]);
      Regroup(Show(first), es[0].before + ",", es[0].after, Show(es[0].tag), ShowElements(es[1..]));
      EndsOf(Show(first) + (es[0].before + "," + es[0].after), u);
    } else {
      assert Show(first) + ShowElements(es) == Show(first);
    }
  }

  lemma {:induction false} ScanTag(s: string, t: Tag, lead: string, rest: string, i: nat)
    requires i <= |t.text| && s == lead + Quoted(t) + rest
    requires WellFormed(t)
    requires forall k | 0 <= k < i :: Passes(t.text[k])
    ensures |lead| + 1 + i <= |s|
    ensures ScanFrom(s, |lead| + 1 + i) == if Scannable(t) then (lead + Quoted(t), rest) else ("", "")
    decreases |t.text| - i
  {
    var q := lead + Quoted(t);
    assert |q| == |lead| + 2 + |t.text|;
    assert s[|lead| + 1 + i] == (t.text + "\"")[i];
    if i == |t.text| {
      assert s[..|q|] == q && s[|q|..] == rest;
    } else if Passes(t.text[i]) {
      ScanTag(s, t, lead, rest, i + 1);
    } else {
      assert t.text[i] == '~';
    }
  }

  lemma QuotedFront(lead: string, t: Tag, rest: string)
    ensures var s := lead + Quoted(t) + rest;
            |s| >= |lead| + 2 && s[|lead|] == '"' && (lead <= s)
  {
  }

  lemma NoLead(s: string)
    ensures "" + s == s && s + "" == s
  {
  }

  lemma ScanUnmarked(s: string)
    requires |s| >= 2 && s[0] == '"'
    ensures ScanText(s) == ScanFrom(s, 1)
  {
  }

  lemma ScanStrong(t: Tag, lead: string, rest: string)
    requires WellFormed(t) && |lead| == 0
    ensures ScanText(lead + Quoted(t) + rest) == if Scannable(t) then (lead + Quoted(t), rest) else ("", "")
  {
    QuotedFront(lead, t, rest);
    ScanUnmarked(lead + Quoted(t) + rest);
    ScanTag(lead + Quoted(t) + rest, t, lead, rest, 0);
  }

  lemma ScanWeak(t: Tag, rest: string)
    requires WellFormed(t)
    ensures ScanText("W/" + Quoted(t) + rest) == if Scannable(t) then ("W/" + Quoted(t), rest) else ("", "")
  {
    QuotedFront("W/", t, rest);
    ScanTag("W/" + Quoted(t) + rest, t, "W/", rest, 0);
  }

  lemma ScanShown(t: Tag, rest: string)
    requires WellFormed(t)
    ensures ScanText(Show(t) + rest) == if Scannable(t) then (Show(t), rest) else ("", "")
  {
    if t.weak {
      ScanWeak(t, rest);
    } else {
      NoLead(Quoted(t));
      ScanStrong(t, "", rest);
    }
  }

  lemma TrimList(lead: string, first: Tag, es: seq<Element>, trail: string)
    requires Blank(lead) && Blank(trail)
    ensures Trim(lead + (Show(first) + ShowElements(es)) + trail) == Show(first) + ShowElements(es)
  {
    ListEnds(first, es);
    ShowEnds(first);
    TrimBlank(lead, Show(first) + ShowElements(es), trail);
  }

  /** Scanning a list, white space in front or not, yields its first tag and the rest of the list, if the
      tag can be scanned. */
  lemma ScanList(lead: string, first: Tag, es: seq<Element>)
    requires Blank(lead) && WellFormed(first)
    ensures Scan(lead + (Show(first) + ShowElements(es))) ==
            if Scannable(first) then (Show(first), ShowElements(es)) else ("", "")
  {
    var s := Show(first) + ShowElements(es);
    TrimList(lead, first, es, "");
    assert lead + s + "" == lead + s;
    ScanShown(first, ShowElements(es));
  }

  lemma StripShow(t: Tag)
    ensures StripWeak(Show(t)) == Quoted(t)
  {
    assert Quoted(t)[0] == '"';
    if t.weak {
      assert Show(t)[2..] == Quoted(t);
    }
  }

  /** One turn of the loop at text that starts neither with a comma nor with a star. */
  lemma MatchTurn(buf: string, etag: string)
    requires buf != "" && buf[0] != ',' && buf[0] != '*'
    ensures MatchFrom(buf, etag) == (Scan(buf).0 != "" && (WeakMatch(Scan(buf).0, etag) || MatchFrom(Scan(buf).1, etag)))
  {
  }

  lemma ListFirstChar(lead: string, first: Tag, es: seq<Element>)
    requires Blank(lead)
    ensures var buf := lead + (Show(first) + ShowElements(es));
            buf != "" && buf[0] != ',' && buf[0] != '*'
  {
    ListEnds(first, es);
    ShowEnds(first);
    FirstChar(lead, Show(first) + ShowElements(es));
  }

  /** At a tag, possibly behind white space. */
  lemma {:induction false} MatchAtTag(lead: string, first: Tag, es: seq<Element>, etag: string)
    requires Blank(lead) && WellFormed(first) && ElementsOk(es)
    ensures MatchFrom(lead + (Show(first) + ShowElements(es)), etag) == Answer(first, es, etag)
    decreases |es|, 1
  {
    ListFirstChar(lead, first, es);
    MatchTurn(lead + (Show(first) + ShowElements(es)), etag);
    ScanList(lead, first, es);
    ShowEnds(first);
    StripShow(first);
    MatchAtComma(es, etag);
  }

  lemma FirstChar(lead: string, s: string)
    requires s != ""
    ensures (lead + s)[0] == if lead == "" then s[0] else lead[0]
  {
  }

  /** Behind a tag: white space before the comma ends the search. */
  lemma {:induction false} MatchAtComma(es: seq<Element>, etag: string)
    requires ElementsOk(es)
    ensures MatchFrom(ShowElements(es), etag) ==
            (es != [] && es[0].before == "" && Answer(es[0].tag, es[1..], etag))
    decreases |es|, 0
  {
    if es != [] {
      var e := es[0];
      assert ElementOk(e);
      var s := Show(e.tag) + ShowElements(es[1..]);
      ShowFront(es);
      if e.before == "" {
        assert ShowElements(es) == "," + (e.after + s);
        assert ShowElements(es)[0] == ',' && ShowElements(es)[1..] == e.after + s;
        MatchAtTag(e.after, e.tag, es[1..], etag);
      } else {
        ListEnds(e.tag, es[1..]);
        ScanAtComma(e.before, e.after + s);
        assert ShowElements(es) == e.before + ("," + (e.after + s));
        FirstChar(e.before, "," + (e.after + s));
      }
    }
  }

  lemma ShowFront(es: seq<Element>)
    requires es != []
    ensures var e, s := es[0], Show(es[0].tag) + ShowElements(es[1..]);
            ShowElements(es) == e.before + ("," + (e.after + s))
  {
  }

  lemma ScanAtComma(lead: string, s: string)
    requires Blank(lead) && s != "" && !IsSpace(s[|s| - 1])
    ensures Scan(lead + ("," + s)) == ("", "")
  {
    TrimBlank(lead, "," + s, "");
    assert lead + ("," + s) + "" == lead + ("," + s);
    assert ("," + s)[0] == ',';
  }

  /** The tag at the given place of the list, the first one at 0. */
  function TagAt(first: Tag, es: seq<Element>, i: nat): Tag
    requires i <= |es|
  {
    if i == 0 then first else es[i - 1].tag
  }

  /** The search gets to the tag: it and the tags before it can be scanned, and no comma before it has
      white space in front. */
  predicate Reached(first: Tag, es: seq<Element>, i: nat)
    requires i <= |es|
  {
    (forall j | 0 <= j <= i :: Scannable(TagAt(first, es, j))) && (forall j | 0 <= j < i :: es[j].before == "")
  }

  lemma {:induction false} AnswerIs(first: Tag, es: seq<Element>, etag: string)
    ensures Answer(first, es, etag) <==>
            exists i | 0 <= i <= |es| :: Reached(first, es, i) && Quoted(TagAt(first, es, i)) == StripWeak(etag)
    decreases |es|
  {
    if es != [] {
      AnswerIs(es[0].tag, es[1..], etag);
      forall i: nat | i < |es|
        ensures TagAt(es[0].tag, es[1..], i) == TagAt(first, es, i + 1)
      {
      }
      forall i: nat | i < |es|
        ensures Reached(first, es, i + 1) <==>
                Scannable(first) && es[0].before == "" && Reached(es[0].tag, es[1..], i)
      {
        ReachedNext(first, es, i);
      }
      if Answer(first, es, etag) {
        if Quoted(first) == StripWeak(etag) {
          assert Reached(first, es, 0);
        } else {
          var i :| 0 <= i <= |es[1..]| && Reached(es[0].tag, es[1..], i)
                   && Quoted(TagAt(es[0].tag, es[1..], i)) == StripWeak(etag);
          assert Reached(first, es, i + 1);
        }
      }
      if i :| 0 <= i <= |es| && Reached(first, es, i) && Quoted(TagAt(first, es, i)) == StripWeak(etag) {
        assert Scannable(TagAt(first, es, 0));
        if i > 0 {
          ReachedNext(first, es, i - 1);
        }
      }
    } else {
      assert Answer(first, es, etag) ==> Reached(first, es, 0);
      if i :| 0 <= i <= |es| && Reached(first, es, i) && Quoted(TagAt(first, es, i)) == StripWeak(etag) {
        assert Scannable(TagAt(first, es, 0));
      }
    }
  }

  lemma ReachedNext(first: Tag, es: seq<Element>, i: nat)
    requires i < |es|
    ensures Reached(first, es, i + 1) <==>
            Scannable(first) && es[0].before == "" && Reached(es[0].tag, es[1..], i)
  {
    var f, fs := es[0].tag, es[1..];
    assert forall j: nat | j <= i :: TagAt(f, fs, j) == TagAt(first, es, j + 1);
    if Reached(first, es, i + 1) {
      assert Scannable(TagAt(first, es, 0)) && es[0].before == "";
      forall j | 0 <= j <= i ensures Scannable(TagAt(f, fs, j)) {
        assert Scannable(TagAt(first, es, j + 1));
      }
      forall j | 0 <= j < i ensures fs[j].before == "" {
        assert es[j + 1].before == "";
      }
    }
    if Scannable(first) && es[0].before == "" && Reached(f, fs, i) {
      forall j | 0 <= j <= i + 1 ensures Scannable(TagAt(first, es, j)) {
        if j > 0 {
          assert Scannable(TagAt(f, fs, j - 1));
        }
      }
      forall j | 0 <= j < i + 1 ensures es[j].before == "" {
        if j > 0 {
          assert fs[j - 1].before == "";
        }
      }
    }
  }

  /** For every list of entity tags as the standard writes it, with any white space around its commas
      and around the whole, the header matches exactly when some tag weakly equal to the given one is
      reached. */
  lemma ListMatches(lead: string, first: Tag, es: seq<Element>, trail: string, etag: string)
    requires Blank(lead) && Blank(trail) && WellFormed(first) && ElementsOk(es)
    ensures Matches(lead + (Show(first) + ShowElements(es)) + trail, etag) <==>
            exists i | 0 <= i <= |es| :: Reached(first, es, i) && Quoted(TagAt(first, es, i)) == StripWeak(etag)
  {
    var s := Show(first) + ShowElements(es);
    TrimList(lead, first, es, trail);
    MatchAtTag("", first, es, etag);
    assert "" + s == s;
    AnswerIs(first, es, etag);
  }

  /** Weak comparison: the tags are equal up to the weakness marker. */
  lemma WeakEquality(t: Tag, u: Tag)
    ensures Quoted(t) == StripWeak(Show(u)) <==> t.text == u.text
  {
    StripShow(u);
    assert Quoted(t)[1..|Quoted(t)| - 1] == t.text && Quoted(u)[1..|Quoted(u)| - 1] == u.text;
  }

  /** Weak comparison of any two texts: markers at the front of either do not matter, and without markers it is
      equality. */
  lemma WeakMatchIs(a: string, b: string)
    ensures WeakMatch(a, b) <==> WeakMatch(b, a)
    ensures WeakMatch("W/" + a, b) <==> WeakMatch(a, b)
    ensures !IsWeak(a) && !IsWeak(b) ==> (WeakMatch(a, b) <==> a == b)
  {
    var u := "W/" + a;
    assert IsWeak(u) && u[2..] == a;
  }

  /** Nothing in the list stops the search. */
  predicate Compact(first: Tag, es: seq<Element>) {
    Scannable(first) && forall i | 0 <= i < |es| :: es[i].before == "" && Scannable(es[i].tag)
  }

  lemma CompactReached(first: Tag, es: seq<Element>, i: nat)
    requires Compact(first, es) && i <= |es|
    ensures Reached(first, es, i)
  {
  }

  /** On lists without tildes and without white space before commas the code does what section 3.2 of
      RFC 7232 asks: it matches exactly when some tag of the list weakly equals the given one. */
  lemma CompactListMatches(first: Tag, es: seq<Element>, given: Tag)
    requires WellFormed(first) && ElementsOk(es) && Compact(first, es)
    ensures Matches(Show(first) + ShowElements(es), Show(given)) <==>
            exists i | 0 <= i <= |es| :: TagAt(first, es, i).text == given.text
  {
    NoLead(Show(first) + ShowElements(es));
    ListMatches("", first, es, "", Show(given));
    forall i | 0 <= i <= |es|
      ensures Reached(first, es, i)
      ensures Quoted(TagAt(first, es, i)) == StripWeak(Show(given)) <==> TagAt(first, es, i).text == given.text
    {
      CompactReached(first, es, i);
      WeakEquality(TagAt(first, es, i), given);
    }
  }

  /** A star matches whatever the tag. */
  lemma StarMatches(lead: string, trail: string, etag: string)
    requires Blank(lead) && Blank(trail)
    ensures Matches(lead + "*" + trail, etag)
  {
    TrimBlank(lead, "*", trail);
  }

  /** Where the code falls short of the standard: a tag behind white space and a comma is not found, and
      neither is a tag with a tilde. */
  lemma MissedTags()
    ensures !Matches("\"a\" ,\"b\"", "\"b\"")
    ensures !Matches("\"~\"", "\"~\"")
  {
    var a, b, tilde := Tag(false, "a"), Tag(false, "b"), Tag(false, "~");
    var es := [Element(" ", "", b)];
    assert es[1..] == [] && ShowElements(es[1..]) == "";
    assert ShowElements(es) == " ," + Show(b);
    assert "" + (Show(a) + ShowElements(es)) + "" == "\"a\" ,\"b\"";
    ListMatches("", a, es, "", "\"b\"");
    assert Quoted(a)[1] == 'a' && StripWeak("\"b\"")[1] == 'b';
    assert "" + (Show(tilde) + ShowElements([])) + "" == "\"~\"";
    ListMatches("", tilde, [], "", "\"~\"");
    assert !Passes(tilde.text[0]);
    assert TagAt(tilde, [], 0) == tilde;
  }
}
