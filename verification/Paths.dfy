/** Content paths: printing, parsing, and building from the parts of a request. */
module Paths {
  import opened Cids
  import opened Text
  import opened Options

  /** The text forms of CIDs: the default one, base 36, what parses as a CID, and what parses as a
      peer id (given as the multihash it stands for). */
  datatype CidText = CidText(show: Cid -> string, base36: Cid -> string, parse: string -> Option<Cid>,
                             peerId: string -> Option<Hash>)

  const SEPARATORS := {'/', '\\'}
  const LIBP2P_KEY := 0x72

  /** Letters and digits only, and longer than the names of the schemes. */
  predicate Plain(s: string) {
    |s| > 4 && Free(s, {'/', '\\', '.', '-'})
  }

  /** Both text forms parse back and consist of letters and digits. */
  ghost predicate Lawful(t: CidText) {
    forall c: Cid :: t.parse(t.show(c)) == Some(c) && t.parse(t.base36(c)) == Some(c)
                     && Plain(t.show(c)) && Plain(t.base36(c))
  }

  datatype PathType = Ipfs | Ipns

  datatype Root = CidRoot(cid: Cid) | Domain(name: string)

  datatype Path = Path(typ: PathType, root: Root, tail: seq<string>)

  function Scheme(t: PathType): string {
    if t.Ipfs? then "ipfs" else "ipns"
  }

  function RootText(t: CidText, r: Root): string {
    match r case CidRoot(c) => t.show(c) case Domain(d) => d
  }

  function Lower(c: char): char {
    if 'A' <= c <= 'Z' then (c as int + 32) as char else c
  }

  predicate SameIgnoringCase(a: string, b: string) {
    |a| == |b| && forall i | 0 <= i < |a| :: Lower(a[i]) == Lower(b[i])
  }

  predicate HasTrailingSlash(tail: seq<string>) {
    tail != [] && tail[|tail| - 1] == ""
  }

  predicate EndsWithSlash(s: string) {
    s != [] && s[|s| - 1] == '/'
  }

  function Parts(s: string): (r: seq<string>)
    ensures forall i | 0 <= i < |r| :: r[i] != "" && Free(r[i], SEPARATORS)
  {
    var parts := Split(s, SEPARATORS);
    var r := NonEmpty(parts);
    assert forall i | 0 <= i < |r| :: Free(r[i], SEPARATORS) by {
      forall i | 0 <= i < |r| ensures Free(r[i], SEPARATORS) {
        NonEmptyIn(parts, r[i]);
      }
    }
    r
  }

  /** Adds the empty segment that stands for a trailing slash. */
  function WithSlash(tail: seq<string>, slash: bool): seq<string> {
    if slash then tail + [""] else tail
  }

  /** The segments between empty ones, with a trailing slash kept. */
  function Normal(tail: seq<string>): seq<string> {
    WithSlash(NonEmpty(tail), HasTrailingSlash(tail))
  }

  /* ---- Printing and parsing ---- */

  function PrintTail(tail: seq<string>): string {
    if tail == [] then ""
    else
      var n := |tail| - 1;
      PrintTail(tail[..n]) + (if tail[n] == "" then "" else "/" + tail[n])
  }

  function Head(t: CidText, p: Path): string {
    "/" + Scheme(p.typ) + "/" + RootText(t, p.root)
  }

  /** `Display` */
  function Print(t: CidText, p: Path): string {
    Head(t, p) + PrintTail(p.tail) + (if HasTrailingSlash(p.tail) then "/" else "")
  }

  /** The root of a parsed path and how many parts it took; `None` when the parts are too few or the
      root of an `ipfs` path is not a CID. */
  function ParseRoot(t: CidText, parts: seq<string>): Option<(PathType, Root, nat)> {
    if parts == [] then None
    else if SameIgnoringCase(parts[0], "ipns") then
      if |parts| < 2 then None
      else
        var c := t.parse(parts[1]);
        Some((Ipns, if c.Some? then CidRoot(c.value) else Domain(parts[1]), 2))
    else
      var n := if SameIgnoringCase(parts[0], "ipfs") then 1 else 0;
      if n >= |parts| || t.parse(parts[n]).None? then None
      else Some((Ipfs, CidRoot(t.parse(parts[n]).value), n + 1))
  }

  /** `FromStr` */
  function Parse(t: CidText, s: string): Option<Path> {
    var parts := Parts(s);
    var root := ParseRoot(t, parts);
    if root.None? then None
    else Some(Path(root.value.0, root.value.1, WithSlash(parts[root.value.2..], EndsWithSlash(s))))
  }

  /** `Path::from_parts`: on `ipns` a CID, a peer id or a domain; otherwise a CID. */
  function FromParts(t: CidText, scheme: string, root: string, tail: string): Option<Path> {
    var segments := WithSlash(Parts(tail), EndsWithSlash(tail));
    if SameIgnoringCase(scheme, "ipns") then
      Some(Path(Ipns,
                if t.parse(root).Some? then CidRoot(t.parse(root).value)
                else if t.peerId(root).Some? then CidRoot(MakeCid(V1, LIBP2P_KEY, t.peerId(root).value))
                else Domain(root),
                segments))
    else if t.parse(root).Some? then Some(Path(Ipfs, CidRoot(t.parse(root).value), segments))
    else None
  }

  /* ---- The parts of a printed path ---- */

  lemma PartsAppend(s: string, segment: string)
    requires segment != "" && Free(segment, SEPARATORS)
    ensures Parts(s + "/" + segment) == Parts(s) + [segment]
  {
    SplitAppend(s, '/', segment, SEPARATORS);
    SplitFree(segment, SEPARATORS);
    NonEmptyAppend(Split(s, SEPARATORS), [segment]);
    NonEmptySame([segment]);
  }

  lemma PartsSlash(s: string)
    ensures Parts(s + "/") == Parts(s)
  {
    SplitAppend(s, '/', "", SEPARATORS);
    assert s + ['/'] + "" == s + "/";
    NonEmptyAppend(Split(s, SEPARATORS), [""]);
    assert [""][..0] == [] && NonEmpty([""]) == [];
  }

  predicate AllFree(tail: seq<string>) {
    forall i | 0 <= i < |tail| :: Free(tail[i], SEPARATORS)
  }

  lemma PrintTailNext(s: string, tail: seq<string>)
    requires tail != []
    ensures var n := |tail| - 1;
            s + PrintTail(tail) == s + PrintTail(tail[..n]) + (if tail[n] == "" then "" else "/" + tail[n])
  {
    var n := |tail| - 1;
    Glue(s, PrintTail(tail[..n]), if tail[n] == "" then "" else "/" + tail[n]);
  }

  lemma Glue(a: string, b: string, c: string)
    ensures a + (b + c) == a + b + c
  {
  }

  lemma {:induction false} PartsOfTail(s: string, tail: seq<string>)
    requires AllFree(tail)
    ensures Parts(s + PrintTail(tail)) == Parts(s) + NonEmpty(tail)
  {
    if tail == [] {
      assert s + PrintTail(tail) == s;
    } else {
      var n := |tail| - 1;
      PartsOfTail(s, tail[..n]);
      PrintTailNext(s, tail);
      var u := s + PrintTail(tail[..n]);
      if tail[n] != "" {
        PartsAppend(u, tail[n]);
        assert u + ("/" + tail[n]) == u + "/" + tail[n];
        Text.Regroup(Parts(s), NonEmpty(tail[..n]), [tail[n]]);
      } else {
        assert u + "" == u;
      }
    }
  }

  lemma {:induction false} TailHasNoSlash(s: string, tail: seq<string>)
    requires AllFree(tail) && s != "" && !EndsWithSlash(s)
    ensures !EndsWithSlash(s + PrintTail(tail))
  {
    if tail == [] {
      assert s + PrintTail(tail) == s;
    } else {
      var n := |tail| - 1;
      var u := s + PrintTail(tail);
      if tail[n] != "" {
        assert u[|u| - 1] == tail[n][|tail[n]| - 1];
      } else {
        TailHasNoSlash(s, tail[..n]);
        assert u == s + PrintTail(tail[..n]);
      }
    }
  }

  /** Slash and backslash both separate. */
  lemma PartsCat(a: string, c: char, b: string)
    requires c == '/' || c == '\\'
    ensures Parts(a + [c] + b) == Parts(a) + Parts(b)
  {
    SplitAppend(a, c, b, SEPARATORS);
    NonEmptyAppend(Split(a, SEPARATORS), Split(b, SEPARATORS));
  }

  lemma HeadParts(scheme: string, root: string)
    requires scheme == "ipfs" || scheme == "ipns"
    requires root != "" && Free(root, SEPARATORS)
    ensures Parts("/" + scheme + "/" + root) == [scheme, root]
  {
    assert Split("", SEPARATORS) == [""] && NonEmpty([""]) == [] by { assert [""][..0] == []; }
    assert Parts("") == [];
    PartsAppend("", scheme);
    assert "" + "/" + scheme == "/" + scheme;
    PartsAppend("/" + scheme, root);
    assert "/" + scheme + "/" + root == "/" + scheme + ("/" + root);
  }

  lemma PartsOfHead(t: CidText, p: Path)
    requires var r := RootText(t, p.root); r != "" && Free(r, SEPARATORS)
    ensures Parts(Head(t, p)) == [Scheme(p.typ), RootText(t, p.root)]
    ensures Head(t, p) != "" && !EndsWithSlash(Head(t, p))
  {
    var r := RootText(t, p.root);
    HeadParts(Scheme(p.typ), r);
    assert Head(t, p)[|Head(t, p)| - 1] == r[|r| - 1];
  }

  /** Paths as they exist: a CID root, or on `ipns` a domain that is not empty, has no separator and is
      not itself a CID. */
  predicate Printable(t: CidText, p: Path) {
    p.root.Domain? ==>
      p.typ.Ipns? && p.root.name != "" && Free(p.root.name, SEPARATORS) && t.parse(p.root.name).None?
  }

  lemma PlainIsFree(s: string)
    requires Plain(s)
    ensures s != "" && Free(s, SEPARATORS)
  {
  }

  lemma RootParses(t: CidText, p: Path, rest: seq<string>)
    requires Lawful(t) && Printable(t, p)
    ensures ParseRoot(t, [Scheme(p.typ), RootText(t, p.root)] + rest) == Some((p.typ, p.root, 2))
  {
    var parts := [Scheme(p.typ), RootText(t, p.root)] + rest;
    assert parts[0] == Scheme(p.typ) && parts[1] == RootText(t, p.root);
    assert !SameIgnoringCase("ipfs", "ipns") by { assert Lower("ipfs"[2]) != Lower("ipns"[2]); }
  }

  lemma PrintedParts(t: CidText, p: Path)
    requires Lawful(t) && Printable(t, p) && AllFree(p.tail)
    ensures Parts(Print(t, p)) == [Scheme(p.typ), RootText(t, p.root)] + NonEmpty(p.tail)
    ensures EndsWithSlash(Print(t, p)) <==> HasTrailingSlash(p.tail)
  {
    var r := RootText(t, p.root);
    if p.root.CidRoot? {
      PlainIsFree(r);
    }
    PartsOfHead(t, p);
    PartsOfTail(Head(t, p), p.tail);
    TailHasNoSlash(Head(t, p), p.tail);
    var u := Head(t, p) + PrintTail(p.tail);
    PartsSlash(u);
    assert u + "" == u;
  }

  lemma PrintParseFree(t: CidText, p: Path)
    requires Lawful(t) && Printable(t, p) && AllFree(p.tail)
    ensures Parse(t, Print(t, p)) == Some(p.(tail := Normal(p.tail)))
  {
    PrintedParts(t, p);
    RootParses(t, p, NonEmpty(p.tail));
    assert ([Scheme(p.typ), RootText(t, p.root)] + NonEmpty(p.tail))[2..] == NonEmpty(p.tail);
  }

  /** Printing a path and parsing it gives the path without its interior empty segments and with its
      trailing slash, if and only if no segment contains a separator. */
  lemma PrintParse(t: CidText, p: Path)
    requires Lawful(t) && Printable(t, p)
    ensures Parse(t, Print(t, p)) == Some(p.(tail := Normal(p.tail))) <==> AllFree(p.tail)
  {
    if AllFree(p.tail) {
      PrintParseFree(t, p);
    } else if Parse(t, Print(t, p)) == Some(p.(tail := Normal(p.tail))) {
      var i :| 0 <= i < |p.tail| && !Free(p.tail[i], SEPARATORS);
      NonEmptyIn(p.tail, p.tail[i]);
      var tail := Normal(p.tail);
      assert p.tail[i] in tail;
      var j :| 0 <= j < |tail| && tail[j] == p.tail[i];
      ParsedTailFree(t, Print(t, p));
      assert false;
    }
  }

  lemma ParsedTailFree(t: CidText, s: string)
    ensures var p := Parse(t, s);
            p.Some? ==> AllFree(p.value.tail) && Normal(p.value.tail) == p.value.tail
  {
    var p := Parse(t, s);
    if p.Some? {
      var rest := Parts(s)[ParseRoot(t, Parts(s)).value.2..];
      NormalStays(rest, EndsWithSlash(s));
    }
  }

  lemma NormalStays(rest: seq<string>, slash: bool)
    requires forall i | 0 <= i < |rest| :: rest[i] != ""
    ensures Normal(WithSlash(rest, slash)) == WithSlash(rest, slash)
  {
    NonEmptySame(rest);
    if slash {
      NonEmptyAppend(rest, [""]);
      assert [""][..0] == [] && NonEmpty([""]) == [];
    }
  }

  /** Every parsed path survives printing and parsing unchanged. */
  lemma ParsePrintParse(t: CidText, s: string)
    requires Lawful(t) && Parse(t, s).Some?
    ensures Parse(t, Print(t, Parse(t, s).value)) == Parse(t, s)
  {
    var p := Parse(t, s).value;
    ParsedTailFree(t, s);
    assert Printable(t, p);
    PrintParseFree(t, p);
  }

  /** A segment with a separator comes back as two. */
  lemma SlashSplitsSegment(t: CidText, c: Cid)
    requires Lawful(t)
    ensures var p := Path(Ipfs, CidRoot(c), ["a/b"]);
            Parse(t, Print(t, p)) == Some(p.(tail := ["a", "b"]))
  {
    var p, q := Path(Ipfs, CidRoot(c), ["a/b"]), Path(Ipfs, CidRoot(c), ["a", "b"]);
    assert ["a/b"][..0] == [] && ["a", "b"][..1] == ["a"] && ["a"][..0] == [];
    assert PrintTail(["a"]) == "/a" && PrintTail(["a", "b"]) == "/a/b" && PrintTail(["a/b"]) == "/a/b";
    assert Print(t, p) == Print(t, q);
    PrintParseFree(t, q);
    NonEmptySame(q.tail);
  }

  /* ---- What every string parses to ---- */

  predicate IsIpns(part: string) {
    SameIgnoringCase(part, "ipns")
  }

  predicate IsIpfs(part: string) {
    SameIgnoringCase(part, "ipfs")
  }

  /** How many parts come before the root: one if the first names a scheme, in upper or lower case. */
  function RootAt(parts: seq<string>): nat {
    if parts != [] && (IsIpns(parts[0]) || IsIpfs(parts[0])) then 1 else 0
  }

  /** Every string, by its non-empty parts. It is refused exactly when no part is left for the root, or the root
      of anything but an `ipns` path is not a CID. The type is that of the scheme, and `ipfs` without one. The
      root is the CID that the root part is the text of, or else the part itself as a domain. The tail is the
      rest of the parts, and a final slash is kept. */
  lemma ParseIs(t: CidText, s: string)
    ensures var parts, n, p := Parts(s), RootAt(Parts(s)), Parse(t, s);
            && (p.None? <==> n >= |parts| || (t.parse(parts[n]).None? && !IsIpns(parts[0])))
            && (p.Some? ==>
                  && n < |parts|
                  && (p.value.typ.Ipns? <==> IsIpns(parts[0]))
                  && (p.value.root.CidRoot? <==> t.parse(parts[n]).Some?)
                  && (p.value.root.CidRoot? ==> t.parse(parts[n]) == Some(p.value.root.cid))
                  && (p.value.root.Domain? ==> p.value.root.name == parts[n])
                  && p.value.tail == WithSlash(parts[n + 1..], EndsWithSlash(s)))
  {
    SchemesDiffer();
    if Parts(s) != [] && IsIpns(Parts(s)[0]) {
      assert !IsIpfs(Parts(s)[0]) by { NotBoth(Parts(s)[0]); }
    }
  }

  lemma SchemesDiffer()
    ensures !SameIgnoringCase("ipfs", "ipns") && SameIgnoringCase("ipns", "ipns")
  {
    assert Lower("ipfs"[2]) != Lower("ipns"[2]);
  }

  lemma NotBoth(part: string)
    requires IsIpns(part)
    ensures !IsIpfs(part)
  {
    assert Lower(part[2]) == Lower("ipns"[2]) && Lower("ipfs"[2]) != Lower("ipns"[2]);
  }

  lemma CidIsOnePart(t: CidText, c: Cid)
    requires Lawful(t)
    ensures var s := t.show(c);
            s != "" && Parts(s) == [s] && !EndsWithSlash(s) && !IsIpns(s) && !IsIpfs(s)
  {
    var s := t.show(c);
    PlainIsFree(s);
    SplitFree(s, SEPARATORS);
    NonEmptySame([s]);
    assert s[|s| - 1] != '/';
  }

  /** The text of a CID on its own, with any tail, is an `ipfs` path. */
  lemma BareCidIsIpfs(t: CidText, c: Cid, tail: seq<string>)
    requires Lawful(t) && AllFree(tail)
    ensures Parse(t, t.show(c) + PrintTail(tail)) == Some(Path(Ipfs, CidRoot(c), NonEmpty(tail)))
    ensures Parse(t, t.show(c) + PrintTail(tail) + "/") == Some(Path(Ipfs, CidRoot(c), NonEmpty(tail) + [""]))
  {
    var s := t.show(c);
    CidIsOnePart(t, c);
    PartsOfTail(s, tail);
    PartsSlash(s + PrintTail(tail));
    TailHasNoSlash(s, tail);
    assert ([s] + NonEmpty(tail))[1..] == NonEmpty(tail);
  }

  /** Building a path from a scheme, a root and a tail is parsing them written one behind the other, with every
      scheme but `ipns` taken as `ipfs`. A root which is not a CID but a peer id is the exception. */
  lemma FromPartsIsParse(t: CidText, scheme: string, root: string, tail: string)
    requires root != "" && Free(root, SEPARATORS) && (t.parse(root).Some? || t.peerId(root).None?)
    ensures FromParts(t, scheme, root, tail)
            == Parse(t, "/" + Scheme(if IsIpns(scheme) then Ipns else Ipfs) + "/" + root
                        + (if tail == "" then "" else "/" + tail))
  {
    var name := Scheme(if IsIpns(scheme) then Ipns else Ipfs);
    var head := "/" + name + "/" + root;
    HeadParts(name, root);
    SchemesDiffer();
    if tail == "" {
      assert head + "" == head;
      assert head[|head| - 1] == root[|root| - 1];
      assert Split("", SEPARATORS) == [""] && NonEmpty([""]) == [] by { assert [""][..0] == []; }
      assert [name, root][2..] == [];
    } else {
      PartsCat(head, '/', tail);
      assert head + "/" + tail == head + ("/" + tail);
      assert (head + ("/" + tail))[|head + ("/" + tail)| - 1] == tail[|tail| - 1];
      assert ([name, root] + Parts(tail))[2..] == Parts(tail);
    }
  }

  /** A peer id on `ipns` is the key it stands for, and on any other scheme it is refused. */
  lemma PeerIdIsKey(t: CidText, scheme: string, root: string, tail: string)
    requires t.parse(root).None? && t.peerId(root).Some?
    ensures var p := FromParts(t, scheme, root, tail);
            && (p.Some? <==> IsIpns(scheme))
            && (p.Some? ==>
                  && p.value.typ.Ipns?
                  && p.value.root == CidRoot(MakeCid(V1, LIBP2P_KEY, t.peerId(root).value))
                  && p.value.tail == WithSlash(Parts(tail), EndsWithSlash(tail)))
  {
  }
}
