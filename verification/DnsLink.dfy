/** Writing a domain into one host-name label and reading it back. */
module DnsLink {
  import opened Options

  /** `str::replace` of one character. */
  function Replace(s: string, c: char, with: string): string {
    if s == [] then [] else Replace(s[..|s| - 1], c, with) + (if s[|s| - 1] == c then with else [s[|s| - 1]])
  }

  /** `recode_path_to_inlined_dns_link` of a domain. */
  function Inline(domain: string): string {
    Replace(Replace(domain, '-', "--"), '.', "-")
  }

  /** A dash strictly inside the label with no dash next to it. */
  predicate Alone(s: string, i: nat)
    requires i < |s|
  {
    0 < i < |s| - 1 && s[i] == '-' && s[i - 1] != '-' && s[i + 1] != '-'
  }

  /** Lone dashes become dots. */
  function Dotted(s: string): (t: string)
    ensures |t| == |s|
  {
    seq(|s|, i requires 0 <= i < |s| => if Alone(s, i) then '.' else s[i])
  }

  /** `str::replace("--", "-")`, left to right. */
  function Undouble(s: string): string {
    if s == [] then []
    else if |s| >= 2 && s[0] == '-' && s[1] == '-' then "-" + Undouble(s[2..])
    else [s[0]] + Undouble(s[1..])
  }

  /** `inlined_dns_link_to_dns_link`. On fewer than two characters its length computation underflows: with
      overflow checks that is a panic, without them the first and the last character are taken, which on one
      character is the same one twice. */
  function FromInlined(checked: bool, name: string): Option<string> {
    if |name| >= 2 then Some(Undouble(Dotted(name)))
    else if checked then None
    else Some(Undouble(name + name))
  }

  /* ---- Which domains survive ---- */

  /** A dot next to a dot or a dash. */
  predicate Clash(a: char, b: char) {
    (a == '.' && (b == '.' || b == '-')) || (b == '.' && a == '-')
  }

  predicate Smooth(s: string) {
    forall i | 0 <= i < |s| - 1 :: !Clash(s[i], s[i + 1])
  }

  /** No label is empty or starts or ends with a dash next to a dot: no dot is first, last, or next to
      a dot or a dash. */
  predicate Inlinable(domain: string) {
    Smooth(domain) && (domain != [] ==> domain[0] != '.' && domain[|domain| - 1] != '.')
  }

  function Doubled(s: string): string {
    Replace(s, '-', "--")
  }

  /** Dashes of the doubled form come in pairs; its ends and neighbours are those of the domain. */
  lemma {:induction false} DoubledFacts(d: string)
    ensures |Doubled(d)| >= |d|
    ensures d != [] ==> Doubled(d) != [] && Doubled(d)[0] == d[0] && Doubled(d)[|Doubled(d)| - 1] == d[|d| - 1]
    ensures Smooth(Doubled(d)) <==> Smooth(d)
  {
    if d != [] {
      var n := |d| - 1;
      DoubledFacts(d[..n]);
      SmoothAppend(d[..n], d[n]);
      assert d == d[..n] + [d[n]];
      var e := Doubled(d[..n]);
      SmoothAppend(e, d[n]);
      if d[n] == '-' {
        SmoothAppend(e + ['-'], '-');
        assert e + "--" == e + ['-'] + ['-'];
      }
      assert n > 0 ==> d[..n][n - 1] == d[n - 1];
    }
  }

  lemma SmoothAppend(s: string, c: char)
    ensures Smooth(s + [c]) <==> Smooth(s) && (s == [] || !Clash(s[|s| - 1], c))
  {
    var t := s + [c];
    if Smooth(t) {
      forall i | 0 <= i < |s| - 1 ensures !Clash(s[i], s[i + 1]) {
        assert t[i] == s[i] && t[i + 1] == s[i + 1];
      }
      if s != [] {
        assert !Clash(t[|s| - 1], t[|s| - 1 + 1]);
      }
    }
  }

  predicate HasPair(s: string, i: nat)
    requires i < |s|
  {
    (i > 0 && s[i - 1] == '-') || (i < |s| - 1 && s[i + 1] == '-')
  }

  /** Every dash has a dash next to it. */
  predicate Paired(s: string) {
    forall i: nat | i < |s| && s[i] == '-' :: HasPair(s, i)
  }

  lemma PairedAppend(e: string, t: string)
    requires Paired(e) && Paired(t)
    ensures Paired(e + t)
  {
    var f := e + t;
    forall i: nat | i < |f| && f[i] == '-' ensures HasPair(f, i) {
      if i < |e| {
        assert HasPair(e, i);
      } else {
        assert HasPair(t, i - |e|);
      }
    }
  }

  lemma {:induction false} DoubledPaired(d: string)
    ensures Paired(Doubled(d))
  {
    if d != [] {
      var n := |d| - 1;
      DoubledPaired(d[..n]);
      PairedAppend(Doubled(d[..n]), if d[n] == '-' then "--" else [d[n]]);
    }
  }

  lemma {:induction false} DashedIs(s: string)
    ensures |Replace(s, '.', "-")| == |s|
    ensures forall i | 0 <= i < |s| :: Replace(s, '.', "-")[i] == if s[i] == '.' then '-' else s[i]
  {
    if s != [] {
      DashedIs(s[..|s| - 1]);
    }
  }

  /** The label is the doubled form with dashes for dots. */
  predicate Dashes(s: string, e: string) {
    |s| == |e| && forall i | 0 <= i < |e| :: s[i] == if e[i] == '.' then '-' else e[i]
  }

  lemma DottedAt(s: string, e: string, i: nat)
    requires Dashes(s, e) && Paired(e) && i < |e|
    ensures e[i] != '.' ==> Dotted(s)[i] == e[i]
    ensures e[i] == '.' ==> Dotted(s)[i] == '.' || Dotted(s)[i] == '-'
    ensures e[i] == '.' ==>
              (Dotted(s)[i] == '.' <==> 0 < i < |e| - 1 && !Clash(e[i - 1], e[i]) && !Clash(e[i], e[i + 1]))
  {
    if e[i] == '-' {
      assert HasPair(e, i);
    }
  }

  lemma RestoredIsInlinable(s: string, e: string)
    requires Dashes(s, e) && Paired(e) && Dotted(s) == e
    ensures Inlinable(e)
  {
    forall i | 0 <= i < |e| - 1 ensures !Clash(e[i], e[i + 1]) {
      DottedAt(s, e, i);
      DottedAt(s, e, i + 1);
    }
    if e != [] {
      DottedAt(s, e, 0);
      DottedAt(s, e, |e| - 1);
    }
  }

  lemma InlinableIsRestored(s: string, e: string)
    requires Dashes(s, e) && Paired(e) && Inlinable(e)
    ensures Dotted(s) == e
  {
    forall i | 0 <= i < |e| ensures Dotted(s)[i] == e[i] {
      DottedAt(s, e, i);
      if e[i] == '.' {
        assert 0 < i < |e| - 1;
        assert !Clash(e[i - 1], e[i - 1 + 1]) && !Clash(e[i], e[i + 1]);
      }
    }
  }

  /** Reading the dashes back restores the doubled form exactly when the domain is inlinable; what is
      not restored has dashes where there were dots. */
  lemma DottedRestores(d: string)
    ensures var s, e := Inline(d), Doubled(d);
            && |s| == |e|
            && (forall i | 0 <= i < |e| :: Dotted(s)[i] == e[i] || (e[i] == '.' && Dotted(s)[i] == '-'))
            && (Dotted(s) == e <==> Inlinable(d))
  {
    var s, e := Inline(d), Doubled(d);
    DashedIs(e);
    DoubledPaired(d);
    DoubledFacts(d);
    assert Inlinable(e) <==> Inlinable(d);
    forall i | 0 <= i < |e| ensures Dotted(s)[i] == e[i] || (e[i] == '.' && Dotted(s)[i] == '-') {
      DottedAt(s, e, i);
    }
    if Inlinable(e) {
      InlinableIsRestored(s, e);
    } else if Dotted(s) == e {
      RestoredIsInlinable(s, e);
    }
  }

  lemma {:induction false} UndoubleFront(s: string, t: string)
    ensures Undouble(Doubled(s) + t) == s + Undouble(t)
  {
    if s == [] {
      assert Doubled(s) + t == t;
    } else {
      var n, c := |s| - 1, s[|s| - 1];
      var u := (if c == '-' then "--" else [c]) + t;
      assert Doubled(s) + t == Doubled(s[..n]) + u;
      UndoubleFront(s[..n], u);
      assert Undouble(u) == [c] + Undouble(t) by {
        if c == '-' {
          assert u[2..] == t;
        } else {
          assert u[1..] == t;
        }
      }
      assert s == s[..n] + [c];
    }
  }

  lemma UndoubleDoubled(d: string)
    ensures Undouble(Doubled(d)) == d
  {
    UndoubleFront(d, []);
    assert Doubled(d) + [] == Doubled(d) && d + [] == d;
  }

  /* ---- Counting dots ---- */

  function Dots(s: string): nat {
    if s == [] then 0 else (if s[0] == '.' then 1 else 0) + Dots(s[1..])
  }

  lemma {:induction false} UndoubleDots(s: string)
    ensures Dots(Undouble(s)) == Dots(s)
  {
    if s != [] {
      if |s| >= 2 && s[0] == '-' && s[1] == '-' {
        UndoubleDots(s[2..]);
        assert s[1..][1..] == s[2..];
        assert ("-" + Undouble(s[2..]))[1..] == Undouble(s[2..]);
      } else {
        UndoubleDots(s[1..]);
        assert ([s[0]] + Undouble(s[1..]))[1..] == Undouble(s[1..]);
      }
    }
  }

  lemma {:induction false} FewerDots(s: string, t: string)
    requires |s| == |t|
    requires forall i | 0 <= i < |s| :: s[i] == t[i] || (t[i] == '.' && s[i] == '-')
    ensures Dots(s) <= Dots(t)
    ensures s != t ==> Dots(s) < Dots(t)
  {
    if s != [] {
      FewerDots(s[1..], t[1..]);
      assert s == [s[0]] + s[1..] && t == [t[0]] + t[1..];
    }
  }

  /** No dot is first, last, or next to a dot or a dash, and the label has two characters; without overflow
      checks the empty domain is fine as well. */
  predicate Survives(checked: bool, domain: string) {
    Inlinable(domain) && (|Inline(domain)| >= 2 || (!checked && domain == ""))
  }

  /** Reading back an inlined domain gives the domain again if and only if it survives by that test; with
      overflow checks a shorter label is a panic. */
  lemma InlineRoundTrip(checked: bool, d: string)
    ensures FromInlined(checked, Inline(d)) == Some(d) <==> Survives(checked, d)
    ensures FromInlined(checked, Inline(d)) == None <==> checked && |Inline(d)| < 2
    ensures |d| >= 2 ==> |Inline(d)| >= 2
  {
    if |Inline(d)| >= 2 {
      LongRoundTrip(d);
    } else if d != "" {
      DoubledFacts(d);
      DashedIs(Doubled(d));
      OneCharacter(Inline(d));
    }
    DoubledFacts(d);
    DashedIs(Doubled(d));
  }

  lemma OneCharacter(s: string)
    requires |s| == 1
    ensures Undouble(s + s) == if s == "-" then "-" else s + s
  {
    var u := s + s;
    assert u[2..] == "" && u[1..] == s && s[1..] == "" && s == [s[0]];
    if s[0] == '-' {
      assert s == "-" && Undouble(u) == "-" + "";
    } else {
      assert Undouble(s) == [s[0]] + "" && Undouble(u) == [s[0]] + Undouble(s);
    }
  }

  /** The dot at the end of a fully qualified name is lost. */
  lemma TrailingDotIsLost(checked: bool)
    ensures Inline("a.") == "a-" && FromInlined(checked, "a-") == Some("a-")
  {
    assert "a."[..1] == "a" && "a"[..0] == "";
    assert Replace("a", '-', "--") == "a" && Doubled("a.") == "a.";
    DashedIs("a.");
    assert Inline("a.") == "a-";
    assert Dotted("a-") == "a-";
    assert "a-"[1..] == "-" && "-"[1..] == "";
    assert Undouble("-") == "-" && Undouble("a-") == "a-";
  }

  lemma LongRoundTrip(d: string)
    ensures Undouble(Dotted(Inline(d))) == d <==> Inlinable(d)
  {
    var e, t := Doubled(d), Dotted(Inline(d));
    DottedRestores(d);
    DoubledFacts(d);
    UndoubleDoubled(d);
    if !Inlinable(d) {
      FewerDots(t, e);
      UndoubleDots(t);
      UndoubleDots(e);
    }
  }

  /** The label has no dots, so a host name can be split after it. */
  lemma {:induction false} InlineHasNoDots(d: string)
    ensures '.' !in Inline(d)
  {
    DashedIs(Doubled(d));
  }

  lemma {:induction false} PlainIsUnchanged(s: string)
    requires '-' !in s
    ensures Undouble(s) == s && Dotted(s) == s
  {
    if s != [] {
      PlainIsUnchanged(s[1..]);
      assert s == [s[0]] + s[1..];
    }
  }
}
