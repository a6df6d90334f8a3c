/** The gateway's redirect of a path request to a subdomain, and how the subdomain handler reads it. */
module Redirect {
  import opened Text
  import opened Paths
  import opened Options
  import DnsLink

  /** Host and content path of the location that `redirect_path_handlers` answers with. */
  datatype Location = Location(host: string, content: string)

  /** `recode_path_to_inlined_dns_link` */
  function HostLabel(t: CidText, p: Path): string {
    match p.root
    case CidRoot(c) => if p.typ.Ipfs? then t.show(c) else t.base36(c)
    case Domain(d) => DnsLink.Inline(d)
  }

  function StripSlash(s: string): string {
    if s != "" && s[0] == '/' then s[1..] else s
  }

  function RedirectTo(t: CidText, p: Path, target: string): Location {
    Location(HostLabel(t, p) + "." + Scheme(p.typ) + "." + target, StripSlash(Join(p.tail, '/')))
  }

  /** The position of the first dot, or the length. */
  function FirstDot(s: string): (i: nat)
    ensures i <= |s|
    ensures forall j | 0 <= j < i :: s[j] != '.'
    ensures i < |s| ==> s[i] == '.'
  {
    if s == [] then 0 else if s[0] == '.' then 0 else 1 + FirstDot(s[1..])
  }

  datatype Subdomain = Subdomain(root: string, scheme: string, hostname: string)

  /** `IpfsSubdomain::try_from_str`: at most three pieces, the second naming the scheme. */
  function ParseHost(host: string): Option<Subdomain> {
    var i := FirstDot(host);
    if i == |host| then None
    else
      var rest := host[i + 1..];
      var j := FirstDot(rest);
      if j == |rest| then None
      else if rest[..j] == "ipns" || rest[..j] == "ipfs" then Some(Subdomain(host[..i], rest[..j], rest[j + 1..]))
      else None
  }

  /** The path that `subdomain_handler` works on; `None` is a refused request or, with overflow checks, a
      panic on a label of fewer than two characters. */
  function HandleSubdomain(t: CidText, checked: bool, host: string, content: string): Option<Path> {
    var s := ParseHost(host);
    if s.None? then None
    else
      var root := DnsLink.FromInlined(checked, s.value.root);
      if root.None? then None
      else FromParts(t, s.value.scheme, root.value, if content == "" then "/" else content)
  }

  /* ---- The host ---- */

  lemma FirstDotIs(s: string, rest: string)
    requires '.' !in s
    ensures FirstDot(s + "." + rest) == |s|
  {
    var u := s + "." + rest;
    assert u[|s|] == '.';
    forall j | 0 <= j < |s| ensures u[j] != '.' {
      assert u[j] == s[j];
    }
  }

  lemma CutAtDot(s: string, rest: string)
    ensures (s + "." + rest)[..|s|] == s && (s + "." + rest)[|s| + 1..] == rest
  {
  }

  lemma HostParses(name: string, scheme: string, target: string)
    requires '.' !in name && (scheme == "ipfs" || scheme == "ipns")
    ensures ParseHost(name + "." + scheme + "." + target) == Some(Subdomain(name, scheme, target))
  {
    var rest := scheme + "." + target;
    FirstDotIs(name, rest);
    CutAtDot(name, rest);
    FirstDotIs(scheme, target);
    CutAtDot(scheme, target);
    assert name + "." + scheme + "." + target == name + "." + rest;
  }

  /** A host is accepted exactly when it is a label without dots, `ipfs` or `ipns`, and a hostname, which may hold
      more dots, joined by dots; those three are the answer. */
  lemma ParseHostIs(host: string, s: Subdomain)
    ensures ParseHost(host) == Some(s) <==>
              && host == s.root + "." + s.scheme + "." + s.hostname
              && '.' !in s.root && (s.scheme == "ipfs" || s.scheme == "ipns")
  {
    if ParseHost(host) == Some(s) {
      var i := FirstDot(host);
      var rest := host[i + 1..];
      var j := FirstDot(rest);
      assert rest == rest[..j] + "." + rest[j + 1..];
      assert host == host[..i] + "." + rest;
      assert host == s.root + "." + s.scheme + "." + s.hostname;
    } else if '.' !in s.root && (s.scheme == "ipfs" || s.scheme == "ipns") {
      HostParses(s.root, s.scheme, s.hostname);
    }
  }

  lemma PlainLabel(checked: bool, s: string)
    requires Plain(s)
    ensures '.' !in s && DnsLink.FromInlined(checked, s) == Some(s)
  {
    DnsLink.PlainIsUnchanged(s);
  }

  lemma LabelHasNoDots(t: CidText, p: Path)
    requires Lawful(t)
    ensures '.' !in HostLabel(t, p)
  {
    match p.root
    case CidRoot(c) => PlainLabel(true, HostLabel(t, p));
    case Domain(d) => DnsLink.InlineHasNoDots(d);
  }

  /** A redirect names a CID in its default text on `ipfs` and in base 36 on `ipns`, and the type of the path. */
  lemma RedirectHost(t: CidText, p: Path, target: string)
    requires Lawful(t) && p.root.CidRoot?
    ensures var name := if p.typ.Ipfs? then t.show(p.root.cid) else t.base36(p.root.cid);
            ParseHost(RedirectTo(t, p, target).host) == Some(Subdomain(name, Scheme(p.typ), target))
  {
    LabelHasNoDots(t, p);
    HostParses(HostLabel(t, p), Scheme(p.typ), target);
  }

  /* ---- The content path ---- */

  /** A tail as `from_parts` builds it. */
  predicate Built(segments: seq<string>) {
    forall i | 0 <= i < |segments| :: segments[i] != "" && Free(segments[i], SEPARATORS)
  }

  function Content(content: string): string {
    if content == "" then "/" else content
  }

  lemma {:induction false} JoinEnds(parts: seq<string>)
    requires parts != [] && parts[0] != ""
    ensures Join(parts, '/') != "" && Join(parts, '/')[0] == parts[0][0]
    ensures parts[|parts| - 1] != "" ==>
              Join(parts, '/')[|Join(parts, '/')| - 1] == parts[|parts| - 1][|parts[|parts| - 1]| - 1]
    ensures parts[|parts| - 1] == "" ==> EndsWithSlash(Join(parts, '/'))
  {
    var n := |parts| - 1;
    if n > 0 {
      JoinEnds(parts[..n]);
      var j := Join(parts[..n], '/');
      assert Join(parts, '/') == j + ['/'] + parts[n];
    }
  }

  lemma JoinedParts(segments: seq<string>, slash: bool)
    requires Built(segments) && segments != []
    ensures Parts(Join(WithSlash(segments, slash), '/')) == segments
  {
    var tail := WithSlash(segments, slash);
    SplitJoin(tail, '/', SEPARATORS);
    NonEmptySame(segments);
    if slash {
      NonEmptyAppend(segments, [""]);
      assert [""][..0] == [] && NonEmpty([""]) == [];
    }
  }

  /** The content path of the redirect is read back as the same tail; an empty tail becomes a trailing
      slash. */
  lemma TailRoundTrip(segments: seq<string>, slash: bool)
    requires Built(segments)
    ensures var tail := WithSlash(segments, slash);
            var content := Content(StripSlash(Join(tail, '/')));
            WithSlash(Parts(content), EndsWithSlash(content)) == if tail == [] then [""] else tail
  {
    var tail := WithSlash(segments, slash);
    if segments == [] {
      assert Join(tail, '/') == "";
      PartsSlash("");
      assert Split("", SEPARATORS) == [""] && NonEmpty([""]) == [] by { assert [""][..0] == []; }
      assert "" + "/" == "/";
    } else {
      JoinEnds(tail);
      JoinedParts(segments, slash);
      assert Join(tail, '/')[0] != '/';
    }
  }

  /* ---- The round trip ---- */

  /** The subdomain handler finds the domain of the redirect again. */
  predicate RootSurvives(checked: bool, p: Path) {
    p.root.Domain? ==> DnsLink.Survives(checked, p.root.name)
  }

  /** Type and root are those of the path, whatever the tail. */
  predicate SameRoot(t: CidText, p: Path, root: Option<string>, tail: string) {
    root.Some? && var q := FromParts(t, Scheme(p.typ), root.value, tail);
    q.Some? && q.value.typ == p.typ && q.value.root == p.root
  }

  lemma CidRootAgain(t: CidText, p: Path, tail: string)
    requires Lawful(t) && p.root.CidRoot?
    ensures SameRoot(t, p, Some(HostLabel(t, p)), tail)
  {
    SchemesDiffer();
  }

  lemma DomainAgain(t: CidText, p: Path, root: Option<string>, tail: string)
    requires p.root.Domain? && p.typ.Ipns? && t.parse(p.root.name).None? && t.peerId(p.root.name).None?
    ensures SameRoot(t, p, root, tail) <==> root == Some(p.root.name)
  {
    SchemesDiffer();
  }

  lemma RootRoundTrip(t: CidText, checked: bool, p: Path, tail: string)
    requires Lawful(t)
    requires p.root.Domain? ==> p.typ.Ipns? && t.parse(p.root.name).None? && t.peerId(p.root.name).None?
    ensures SameRoot(t, p, DnsLink.FromInlined(checked, HostLabel(t, p)), tail) <==> RootSurvives(checked, p)
  {
    match p.root
    case CidRoot(c) =>
      PlainLabel(checked, HostLabel(t, p));
      CidRootAgain(t, p, tail);
    case Domain(d) =>
      DnsLink.InlineRoundTrip(checked, d);
      DomainAgain(t, p, DnsLink.FromInlined(checked, HostLabel(t, p)), tail);
  }

  /** The request after the redirect, with its host taken apart. */
  lemma Handled(t: CidText, checked: bool, p: Path, target: string)
    requires Lawful(t)
    ensures var l, root := RedirectTo(t, p, target), DnsLink.FromInlined(checked, HostLabel(t, p));
            HandleSubdomain(t, checked, l.host, l.content) ==
            if root.None? then None else FromParts(t, Scheme(p.typ), root.value, Content(l.content))
  {
    LabelHasNoDots(t, p);
    HostParses(HostLabel(t, p), Scheme(p.typ), target);
  }

  lemma BuiltPath(t: CidText, scheme: string, root: string, tail: string)
    requires FromParts(t, scheme, root, tail).Some?
    ensures var p := FromParts(t, scheme, root, tail).value;
            && p.tail == WithSlash(Parts(tail), EndsWithSlash(tail))
            && (p.root.Domain? ==> p.typ.Ipns? && t.parse(p.root.name).None? && t.peerId(p.root.name).None?)
  {
  }

  lemma RedirectRead(t: CidText, checked: bool, p: Path, segments: seq<string>, slash: bool, target: string)
    requires Lawful(t) && Built(segments) && p.tail == WithSlash(segments, slash)
    requires p.root.Domain? ==> p.typ.Ipns? && t.parse(p.root.name).None? && t.peerId(p.root.name).None?
    ensures var l := RedirectTo(t, p, target);
            HandleSubdomain(t, checked, l.host, l.content) == Some(p.(tail := if p.tail == [] then [""] else p.tail))
            <==> RootSurvives(checked, p)
  {
    var l, root := RedirectTo(t, p, target), DnsLink.FromInlined(checked, HostLabel(t, p));
    Handled(t, checked, p, target);
    RootRoundTrip(t, checked, p, Content(l.content));
    TailRoundTrip(segments, slash);
    if root.Some? && FromParts(t, Scheme(p.typ), root.value, Content(l.content)).Some? {
      BuiltPath(t, Scheme(p.typ), root.value, Content(l.content));
    }
  }

  /** For every path that `path_handler` redirects, the subdomain handler reads the location back as the
      same type, root and tail, with an empty tail turned into a trailing slash, if and only if the root
      is a CID or a domain that survives inlining. */
  lemma RedirectRoundTrip(t: CidText, checked: bool, scheme: string, root: string, tail: string, target: string)
    requires Lawful(t) && FromParts(t, scheme, root, tail).Some?
    ensures var p := FromParts(t, scheme, root, tail).value;
            var l := RedirectTo(t, p, target);
            HandleSubdomain(t, checked, l.host, l.content) == Some(p.(tail := if p.tail == [] then [""] else p.tail))
            <==> RootSurvives(checked, p)
  {
    BuiltPath(t, scheme, root, tail);
    RedirectRead(t, checked, FromParts(t, scheme, root, tail).value, Parts(tail), EndsWithSlash(tail), target);
  }

  /** A redirected domain that the subdomain handler does not find again. */
  lemma TrailingDotRedirect(t: CidText, checked: bool, target: string)
    requires Lawful(t) && t.parse("a.").None? && t.peerId("a.").None?
    ensures var p := Path(Ipns, Domain("a."), []);
            var l := RedirectTo(t, p, target);
            && FromParts(t, "ipns", "a.", "") == Some(p)
            && HandleSubdomain(t, checked, l.host, l.content) != Some(p.(tail := [""]))
  {
    assert Split("", SEPARATORS) == [""] && NonEmpty([""]) == [] by { assert [""][..0] == []; }
    RedirectRoundTrip(t, checked, "ipns", "a.", "", target);
    DnsLink.TrailingDotIsLost(checked);
    DnsLink.InlineRoundTrip(checked, "a.");
    assert "a-" != "a." by { assert "a-"[1] != "a."[1]; }
  }

  /* ---- Host names ---- */

  /** A label of a host name: not empty, no dot in it, no hyphen at its ends. */
  predicate HostNameLabel(s: string) {
    s != "" && '.' !in s && s[0] != '-' && s[|s| - 1] != '-'
  }

  /** Every host name of at least two characters survives the redirect. */
  lemma {:induction false} HostNamesSurvive(labels: seq<string>)
    requires labels != [] && forall i | 0 <= i < |labels| :: HostNameLabel(labels[i])
    ensures var d := Join(labels, '.');
            && DnsLink.Inlinable(d) && d != "" && d[|d| - 1] == labels[|labels| - 1][|labels[|labels| - 1]| - 1]
            && (|d| >= 2 ==> DnsLink.Survives(true, d) && DnsLink.Survives(false, d))
  {
    var n, d := |labels| - 1, Join(labels, '.');
    LabelSmooth(labels[n]);
    if n > 0 {
      HostNamesSurvive(labels[..n]);
      var e := Join(labels[..n], '.');
      SmoothConcat(e, labels[n]);
      assert d == e + ['.'] + labels[n];
    }
    DnsLink.InlineRoundTrip(true, d);
  }

  lemma LabelSmooth(s: string)
    requires HostNameLabel(s)
    ensures DnsLink.Inlinable(s)
  {
  }

  lemma SmoothConcat(e: string, s: string)
    requires DnsLink.Inlinable(e) && e != "" && e[|e| - 1] != '-' && HostNameLabel(s)
    ensures DnsLink.Inlinable(e + ['.'] + s)
  {
    var d := e + ['.'] + s;
    forall i | 0 <= i < |d| - 1 ensures !DnsLink.Clash(d[i], d[i + 1]) {
      if i < |e| - 1 {
        assert !DnsLink.Clash(e[i], e[i + 1]);
      } else if i > |e| {
        assert d[i] == s[i - |e| - 1] && d[i + 1] == s[i - |e|];
      }
    }
  }
}
