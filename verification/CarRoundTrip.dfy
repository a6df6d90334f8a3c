/** Reading back what a CAR writer wrote, whole or cut short. */
module CarRoundTrip {
  import opened Bytes
  import opened Cids
  import opened Options
  import opened CarModel
  import Varint

  /** The length can be written at all. */
  predicate Sized(b: seq<Byte>) {
    |b| <= U64_MAX
  }

  function Lengths(blocks: seq<Block>): seq<nat> {
    seq(|blocks|, i requires 0 <= i < |blocks| => |Section(blocks[i])|)
  }

  /** The first `n` lengths are within the bound. */
  predicate Within(lengths: seq<nat>, n: nat, bound: nat)
    requires n <= |lengths|
  {
    forall i | 0 <= i < n :: lengths[i] <= bound
  }

  predicate AllSized(blocks: seq<Block>) {
    Within(Lengths(blocks), |blocks|, U64_MAX)
  }

  /** A reader makes room for the section. */
  predicate Fits(b: seq<Byte>) {
    |b| <= MAX_ALLOC
  }

  predicate FitUpTo(blocks: seq<Block>, n: nat)
    requires n <= |blocks|
  {
    Within(Lengths(blocks), n, MAX_ALLOC)
  }

  predicate AllFit(blocks: seq<Block>) {
    FitUpTo(blocks, |blocks|)
  }

  predicate GoodHeader(c: Cbor, h: Header) {
    h.roots != [] && h.version == 1 && Fits(c.encode(h))
  }

  /* ---- Sequences ---- */

  lemma Skip<T>(a: seq<T>, b: seq<T>)
    ensures (a + b)[|a|..] == b && (a + b)[..|a|] == a
  {
  }

  lemma CutLeft<T>(a: seq<T>, b: seq<T>, k: nat)
    requires k <= |a|
    ensures (a + b)[..k] == a[..k]
  {
  }

  lemma CutRight<T>(a: seq<T>, b: seq<T>, k: nat)
    requires |a| <= k <= |a| + |b|
    ensures (a + b)[..k] == a + b[..k - |a|]
  {
  }

  lemma Shift<T>(a: seq<T>, b: seq<T>, c: seq<T>)
    ensures a + b + c == a + (b + c)
  {
  }

  lemma TakeTake<T>(s: seq<T>, i: nat, j: nat)
    requires j <= i <= |s|
    ensures s[..i][..j] == s[..j]
  {
  }

  /* ---- One frame ---- */

  lemma LdReadFrame(b: seq<Byte>, rest: seq<Byte>)
    requires Sized(b)
    ensures LdRead(Frame(b) + rest)
            == if Fits(b) then Found(Success(Some(b)), rest) else Found(Failure(TooLarge(|b|)), b + rest)
  {
    var n := Varint.Encode(|b|);
    Varint.ReadEncode(|b|, b + rest);
    Shift(n, b, rest);
    Skip(n, b + rest);
    Skip(b, rest);
  }

  /** A frame cut short: inside its length it looks like the end of the input, after that it is an error. */
  lemma LdReadCut(b: seq<Byte>, k: nat)
    requires Fits(b) && k < |Frame(b)|
    ensures LdRead(Frame(b)[..k])
            == if k < |Varint.Encode(|b|)| then Found(Success(None), []) else Found(Failure(ShortRead), [])
  {
    var n := Varint.Encode(|b|);
    if k < |n| {
      CutLeft(n, b, k);
      Varint.ReadCut(|b|, k);
    } else {
      CutRight(n, b, k);
      var part := b[..k - |n|];
      Varint.ReadEncode(|b|, part);
      Skip(n, part);
    }
  }

  lemma BlockDecodes(b: Block)
    ensures DecodeBlock(Section(b)) == Success(b)
  {
    CidRoundTrip(b.cid, b.data);
    Skip(CidBytes(b.cid), b.data);
  }

  /* ---- Concatenations ---- */

  /** How many whole pieces lie in the first `k` elements. */
  function Whole<T>(pieces: seq<seq<T>>, k: nat): (n: nat)
    ensures n <= |pieces|
  {
    if pieces == [] || k >= |Flat(pieces)| then |pieces|
    else Whole(pieces[..|pieces| - 1], k)
  }

  /** The first `n` pieces lie in the first `k` elements and the next one does not. */
  predicate CutAt<T>(pieces: seq<seq<T>>, n: nat, k: nat) {
    && n <= |pieces|
    && |Flat(pieces[..n])| <= k
    && (n < |pieces| ==> k < |Flat(pieces[..n + 1])|)
  }

  lemma {:induction false} WholeIs<T>(pieces: seq<seq<T>>, k: nat)
    ensures CutAt(pieces, Whole(pieces, k), k)
    decreases pieces
  {
    if pieces != [] && k < |Flat(pieces)| {
      var m := |pieces| - 1;
      var n := Whole(pieces[..m], k);
      WholeIs(pieces[..m], k);
      TakeTake(pieces, m, n);
      if n < m {
        TakeTake(pieces, m, n + 1);
      } else {
        assert pieces[..m + 1] == pieces;
      }
    } else {
      assert pieces[..|pieces|] == pieces;
    }
  }

  lemma FlatNext<T>(pieces: seq<seq<T>>, n: nat)
    requires n < |pieces|
    ensures Flat(pieces[..n + 1]) == Flat(pieces[..n]) + pieces[n]
  {
    TakeTake(pieces, n + 1, n);
  }

  lemma {:induction false} FlatPrefix<T>(pieces: seq<seq<T>>, n: nat)
    requires n <= |pieces|
    ensures Flat(pieces[..n]) <= Flat(pieces)
    decreases |pieces| - n
  {
    if n == |pieces| {
      assert pieces[..n] == pieces;
    } else {
      FlatNext(pieces, n);
      FlatPrefix(pieces, n + 1);
    }
  }

  lemma SamePrefix<T>(a: seq<T>, b: seq<T>, k: nat)
    requires a <= b && k <= |a|
    ensures b[..k] == a[..k]
  {
  }

  /** A cut at `k` leaves the whole pieces and a proper part of the next one. */
  lemma CutFlat<T>(pieces: seq<seq<T>>, n: nat, k: nat)
    requires CutAt(pieces, n, k) && n < |pieces|
    ensures k - |Flat(pieces[..n])| < |pieces[n]|
    ensures k <= |Flat(pieces)|
    ensures Flat(pieces)[..k] == Flat(pieces[..n]) + pieces[n][..k - |Flat(pieces[..n])|]
  {
    FlatPrefix(pieces, n + 1);
    SamePrefix(Flat(pieces[..n + 1]), Flat(pieces), k);
    FlatNext(pieces, n);
    CutRight(Flat(pieces[..n]), pieces[n], k);
  }

  lemma CutNothing<T>(pieces: seq<seq<T>>, k: nat)
    requires CutAt(pieces, |pieces|, k) && k <= |Flat(pieces)|
    ensures k == |Flat(pieces)| && Flat(pieces)[..k] == Flat(pieces)
  {
    assert pieces[..|pieces|] == pieces;
  }

  lemma FlatSplit<T>(pieces: seq<seq<T>>, n: nat) returns (more: seq<T>)
    requires n <= |pieces|
    ensures Flat(pieces) == Flat(pieces[..n]) + more
  {
    FlatPrefix(pieces, n);
    more := Flat(pieces)[|Flat(pieces[..n])|..];
  }

  /* ---- Runs of frames ---- */

  /** The frame is read as the block, and reading goes on behind it. */
  ghost predicate Reads(b: Block, f: seq<Byte>) {
    forall tail :: ReadsBefore(b, f, tail)
  }

  predicate ReadsBefore(b: Block, f: seq<Byte>, tail: seq<Byte>) {
    var s := ReadBlocks(tail);
    ReadBlocks(f + tail) == Stream([b] + s.blocks, s.ending)
  }

  ghost predicate AllRead(blocks: seq<Block>, frames: seq<seq<Byte>>, n: nat) {
    && n <= |blocks| && n <= |frames|
    && forall i | 0 <= i < n :: Reads(blocks[i], frames[i])
  }

  lemma {:induction false} ReadOn(blocks: seq<Block>, frames: seq<seq<Byte>>, n: nat, tail: seq<Byte>)
    requires AllRead(blocks, frames, n)
    ensures var s := ReadBlocks(tail);
            ReadBlocks(Flat(frames[..n]) + tail) == Stream(blocks[..n] + s.blocks, s.ending)
    decreases n
  {
    var s := ReadBlocks(tail);
    if n == 0 {
      assert Flat(frames[..0]) + tail == tail && blocks[..0] + s.blocks == s.blocks;
    } else {
      FlatNext(frames, n - 1);
      Shift(Flat(frames[..n - 1]), frames[n - 1], tail);
      ReadOn(blocks, frames, n - 1, frames[n - 1] + tail);
      assert ReadsBefore(blocks[n - 1], frames[n - 1], tail);
      Snoc(blocks, n - 1, s.blocks);
    }
  }

  lemma Snoc<T>(s: seq<T>, n: nat, tail: seq<T>)
    requires n < |s|
    ensures s[..n] + ([s[n]] + tail) == s[..n + 1] + tail
  {
  }

  /** The stream when the first `n` frames are readable. */
  lemma ReadUpTo(blocks: seq<Block>, frames: seq<seq<Byte>>, n: nat) returns (more: seq<Byte>)
    requires AllRead(blocks, frames, n) && n < |frames|
    ensures var s := ReadBlocks(frames[n] + more);
            ReadBlocks(Flat(frames)) == Stream(blocks[..n] + s.blocks, s.ending)
  {
    more := FlatSplit(frames, n + 1);
    FlatNext(frames, n);
    Shift(Flat(frames[..n]), frames[n], more);
    ReadOn(blocks, frames, n, frames[n] + more);
  }

  lemma ReadAll(blocks: seq<Block>, frames: seq<seq<Byte>>)
    requires |blocks| == |frames| && AllRead(blocks, frames, |blocks|)
    ensures ReadBlocks(Flat(frames)) == Stream(blocks, Clean)
  {
    var n := |blocks|;
    ReadOn(blocks, frames, n, []);
    ReadNothing();
    assert frames[..n] == frames && Flat(frames) + [] == Flat(frames) && blocks[..n] + [] == blocks;
  }

  lemma ReadNothing()
    ensures ReadBlocks([]) == Stream([], Clean)
  {
  }

  /* ---- Runs of blocks ---- */

  lemma FrameReads(b: Block)
    requires Fits(Section(b))
    ensures Reads(b, Frame(Section(b)))
  {
    forall tail ensures ReadsBefore(b, Frame(Section(b)), tail) {
      LdReadFrame(Section(b), tail);
      BlockDecodes(b);
    }
  }

  lemma FramesRead(blocks: seq<Block>, n: nat)
    requires n <= |blocks| && FitUpTo(blocks, n)
    ensures AllRead(blocks, Frames(blocks), n)
  {
    forall i | 0 <= i < n ensures Reads(blocks[i], Frames(blocks)[i]) {
      assert Lengths(blocks)[i] == |Section(blocks[i])|;
      FrameReads(blocks[i]);
    }
  }

  lemma ReadOversize(b: Block, tail: seq<Byte>)
    requires Sized(Section(b)) && !Fits(Section(b))
    ensures ReadBlocks(Frame(Section(b)) + tail) == Stream([], Broken(TooLarge(|Section(b)|)))
  {
    LdReadFrame(Section(b), tail);
  }

  /** The blocks before the first section that does not fit are read, and that section is the error. */
  lemma ReadStops(blocks: seq<Block>, n: nat)
    requires n < |blocks| && FitUpTo(blocks, n)
    requires Sized(Section(blocks[n])) && !Fits(Section(blocks[n]))
    ensures ReadBlocks(Sections(blocks)) == Stream(blocks[..n], Broken(TooLarge(|Section(blocks[n])|)))
  {
    FramesRead(blocks, n);
    var more := ReadUpTo(blocks, Frames(blocks), n);
    ReadOversize(blocks[n], more);
    assert blocks[..n] + [] == blocks[..n];
  }

  lemma FirstBeyond(lengths: seq<nat>, bound: nat) returns (n: nat)
    requires !Within(lengths, |lengths|, bound)
    ensures n < |lengths| && Within(lengths, n, bound) && lengths[n] > bound
  {
    n := 0;
    while n < |lengths| && lengths[n] <= bound
      invariant n <= |lengths| && Within(lengths, n, bound)
    {
      n := n + 1;
    }
  }

  lemma ReadSections(blocks: seq<Block>)
    requires AllSized(blocks)
    ensures ReadBlocks(Sections(blocks)) == Stream(blocks, Clean) <==> AllFit(blocks)
  {
    if AllFit(blocks) {
      FramesRead(blocks, |blocks|);
      ReadAll(blocks, Frames(blocks));
    } else {
      var n := FirstBeyond(Lengths(blocks), MAX_ALLOC);
      assert Lengths(blocks)[n] == |Section(blocks[n])|;
      ReadStops(blocks, n);
    }
  }

  lemma OpenWritten(c: Cbor, h: Header, body: seq<Byte>)
    requires Lawful(c) && Sized(c.encode(h))
    ensures OpenArchive(c, Frame(c.encode(h)) + body) == Success((h, body)) <==> GoodHeader(c, h)
  {
    LdReadFrame(c.encode(h), body);
  }

  lemma OpenIs(c: Cbor, h: Header, body: seq<Byte>)
    requires Lawful(c) && Sized(c.encode(h))
    ensures var r := OpenArchive(c, Frame(c.encode(h)) + body);
            r.Failure? || r == Success((h, body))
  {
    LdReadFrame(c.encode(h), body);
  }

  /** Reading a written archive returns the header and the same blocks in order, and then ends, if and
      only if the header has roots and version 1 and it and every section are within the size limit. */
  lemma ArchiveRoundTrip(c: Cbor, h: Header, blocks: seq<Block>)
    requires Lawful(c) && blocks != [] && Sized(c.encode(h)) && AllSized(blocks)
    ensures ReadArchive(c, Written(c, h, blocks)) == Success((h, Stream(blocks, Clean)))
            <==> GoodHeader(c, h) && AllFit(blocks)
  {
    OpenWritten(c, h, Sections(blocks));
    OpenIs(c, h, Sections(blocks));
    ReadSections(blocks);
  }

  /** An archive that a writer produces and no reader accepts: its header names no roots. */
  lemma NoRootsRefused(c: Cbor, blocks: seq<Block>)
    requires Lawful(c) && blocks != [] && Fits(c.encode(Header([], 1)))
    ensures ReadArchive(c, Written(c, Header([], 1), blocks)) == Failure(NoRoots)
  {
    LdReadFrame(c.encode(Header([], 1)), Sections(blocks));
  }

  /** An archive of which a reader returns nothing but the header: the data of its one block fills the limit,
      so the section with the CID is over it. */
  lemma OversizedBlockStops(c: Cbor, h: Header, b: Block)
    requires Lawful(c) && GoodHeader(c, h) && |b.data| == MAX_ALLOC && Sized(Section(b))
    ensures ReadArchive(c, Written(c, h, [b])) == Success((h, Stream([], Broken(TooLarge(|Section(b)|)))))
  {
    assert |CidBytes(b.cid)| > 0;
    OpenWritten(c, h, Sections([b]));
    ReadStops([b], 0);
  }

  /** A writer that wrote no block has written no header either, and no reader accepts the result. */
  lemma NothingWritten(c: Cbor, h: Header)
    ensures ReadArchive(c, Written(c, h, [])) == Failure(NoHeader)
  {
  }

  /* ---- Files cut short ---- */

  /** How reading ends when the frame of `b` is cut after `k` bytes. */
  function CutEnding(b: Block, k: nat): Ending {
    if k < |Varint.Encode(|Section(b)|)| then Clean else Broken(ShortRead)
  }

  lemma ReadFrameCut(b: Block, k: nat)
    requires Fits(Section(b)) && k < |Frame(Section(b))|
    ensures ReadBlocks(Frame(Section(b))[..k]) == Stream([], CutEnding(b, k))
  {
    LdReadCut(Section(b), k);
  }

  /** The cut leaves a part of the `n`th frame that reads as no block and the ending. */
  predicate EndsAt(frames: seq<seq<Byte>>, n: nat, k: nat, ending: Ending) {
    && n < |frames| && CutAt(frames, n, k)
    && var extra := k - |Flat(frames[..n])|;
       extra <= |frames[n]| && ReadBlocks(frames[n][..extra]) == Stream([], ending)
  }

  lemma ReadCutFrames(blocks: seq<Block>, frames: seq<seq<Byte>>, n: nat, k: nat, ending: Ending)
    requires AllRead(blocks, frames, n) && EndsAt(frames, n, k, ending)
    ensures k <= |Flat(frames)| && ReadBlocks(Flat(frames)[..k]) == Stream(blocks[..n], ending)
  {
    CutFlat(frames, n, k);
    ReadOn(blocks, frames, n, frames[n][..k - |Flat(frames[..n])|]);
    assert blocks[..n] + [] == blocks[..n];
  }

  /** How reading ends when `n` whole sections lie before a cut at `k`. */
  function EndingAt(blocks: seq<Block>, n: nat, k: nat): Ending
    requires CutAt(Frames(blocks), n, k)
  {
    if n == |blocks| then Clean else CutEnding(blocks[n], k - |Flat(Frames(blocks)[..n])|)
  }

  lemma ReadCutSections(blocks: seq<Block>, n: nat, k: nat)
    requires AllFit(blocks) && CutAt(Frames(blocks), n, k) && k <= |Sections(blocks)|
    ensures ReadBlocks(Sections(blocks)[..k]) == Stream(blocks[..n], EndingAt(blocks, n, k))
  {
    if n == |blocks| {
      ReadUncut(blocks, k);
    } else {
      assert Lengths(blocks)[n] == |Section(blocks[n])|;
      ReadCutInside(blocks, n, k);
    }
  }

  lemma ReadUncut(blocks: seq<Block>, k: nat)
    requires AllFit(blocks) && CutAt(Frames(blocks), |blocks|, k) && k <= |Sections(blocks)|
    ensures ReadBlocks(Sections(blocks)[..k]) == Stream(blocks[..|blocks|], Clean)
  {
    CutNothing(Frames(blocks), k);
    FramesRead(blocks, |blocks|);
    ReadAll(blocks, Frames(blocks));
    assert blocks[..|blocks|] == blocks;
  }

  lemma ReadCutInside(blocks: seq<Block>, n: nat, k: nat)
    requires n < |blocks| && FitUpTo(blocks, n) && Fits(Section(blocks[n]))
    requires CutAt(Frames(blocks), n, k) && k <= |Sections(blocks)|
    ensures ReadBlocks(Sections(blocks)[..k]) == Stream(blocks[..n], EndingAt(blocks, n, k))
  {
    FramesRead(blocks, n);
    CutExtra(blocks, n, k);
    ReadCutFrames(blocks, Frames(blocks), n, k, EndingAt(blocks, n, k));
  }

  /** The part of the next section in front of the cut. */
  lemma CutExtra(blocks: seq<Block>, n: nat, k: nat)
    requires n < |blocks| && Fits(Section(blocks[n])) && CutAt(Frames(blocks), n, k)
    ensures EndsAt(Frames(blocks), n, k, EndingAt(blocks, n, k))
  {
    CutFlat(Frames(blocks), n, k);
    ReadFrameCut(blocks[n], k - |Flat(Frames(blocks)[..n])|);
  }

  lemma ReadCutBody(c: Cbor, h: Header, blocks: seq<Block>, n: nat, k: nat)
    requires Lawful(c) && GoodHeader(c, h) && AllFit(blocks)
    requires CutAt(Frames(blocks), n, k) && k <= |Sections(blocks)|
    ensures ReadArchive(c, Frame(c.encode(h)) + Sections(blocks)[..k])
            == Success((h, Stream(blocks[..n], EndingAt(blocks, n, k))))
  {
    OpenWritten(c, h, Sections(blocks)[..k]);
    ReadCutSections(blocks, n, k);
  }

  /** A prefix that does not contain the whole header is refused. */
  lemma CutHeader(c: Cbor, h: Header, blocks: seq<Block>, k: nat)
    requires blocks != [] && Fits(c.encode(h)) && k < |Frame(c.encode(h))|
    ensures k < |Written(c, h, blocks)|
    ensures ReadArchive(c, Written(c, h, blocks)[..k])
            == Failure(if k < |Varint.Encode(|c.encode(h)|)| then NoHeader else ShortRead)
  {
    CutLeft(Frame(c.encode(h)), Sections(blocks), k);
    LdReadCut(c.encode(h), k);
  }

  lemma WrittenCut(c: Cbor, h: Header, blocks: seq<Block>, m: nat)
    requires blocks != [] && m <= |Sections(blocks)|
    ensures |Frame(c.encode(h))| + m <= |Written(c, h, blocks)|
    ensures Written(c, h, blocks)[..|Frame(c.encode(h))| + m] == Frame(c.encode(h)) + Sections(blocks)[..m]
  {
    CutRight(Frame(c.encode(h)), Sections(blocks), |Frame(c.encode(h))| + m);
  }

  /** Reading any prefix of an archive that contains the header, that is one that goes on for `m` bytes
      behind it, returns the header and exactly the `n` blocks that lie wholly in the prefix. A cut at the
      end of a section or inside a length goes unnoticed; any other cut is an error. */
  lemma CutArchive(c: Cbor, h: Header, blocks: seq<Block>, m: nat, n: nat)
    requires Lawful(c) && GoodHeader(c, h) && AllFit(blocks) && blocks != []
    requires m <= |Sections(blocks)| && CutAt(Frames(blocks), n, m)
    ensures |Frame(c.encode(h))| + m <= |Written(c, h, blocks)|
    ensures ReadArchive(c, Written(c, h, blocks)[..|Frame(c.encode(h))| + m])
            == Success((h, Stream(blocks[..n], EndingAt(blocks, n, m))))
  {
    WrittenCut(c, h, blocks, m);
    ReadCutBody(c, h, blocks, n, m);
  }

  /* ---- Files no writer produced ---- */

  /** Behind any blocks that fit, reading goes on with whatever follows. */
  lemma ReadBehind(blocks: seq<Block>, tail: seq<Byte>)
    requires AllFit(blocks)
    ensures var s := ReadBlocks(tail);
            ReadBlocks(Sections(blocks) + tail) == Stream(blocks + s.blocks, s.ending)
  {
    var n := |blocks|;
    FramesRead(blocks, n);
    ReadOn(blocks, Frames(blocks), n, tail);
    assert Frames(blocks)[..n] == Frames(blocks) && blocks[..n] == blocks;
  }

  /** A length that does not end: within ten bytes it goes unnoticed, and longer it is an error. */
  lemma UnendedLength(blocks: seq<Block>, tail: seq<Byte>)
    requires AllFit(blocks) && Varint.Unended(tail, if |tail| > Varint.MAX_LEN then Varint.MAX_LEN else |tail|)
    ensures ReadBlocks(Sections(blocks) + tail)
            == Stream(blocks, if |tail| > Varint.MAX_LEN then Broken(BadVarint) else Clean)
  {
    ReadBehind(blocks, tail);
    Varint.ReadIs(tail);
    assert blocks + [] == blocks;
  }

  /** A section without a CID at its front is an error, and nothing behind it is read. */
  lemma BadCidStops(blocks: seq<Block>, section: seq<Byte>, tail: seq<Byte>)
    requires AllFit(blocks) && Fits(section) && ReadCid(section).Bad?
    ensures ReadBlocks(Sections(blocks) + (Frame(section) + tail)) == Stream(blocks, Broken(BadCid))
  {
    ReadBehind(blocks, Frame(section) + tail);
    LdReadFrame(section, tail);
    assert blocks + [] == blocks;
  }

  /** A section that ends inside its CID. */
  lemma ShortSectionStops(blocks: seq<Block>, c: Cid, k: nat, tail: seq<Byte>)
    requires AllFit(blocks) && k < |CidBytes(c)| <= MAX_ALLOC
    ensures ReadBlocks(Sections(blocks) + (Frame(CidBytes(c)[..k]) + tail)) == Stream(blocks, Broken(BadCid))
  {
    CidCut(c, k);
    BadCidStops(blocks, CidBytes(c)[..k], tail);
  }

  /** The first section is the header exactly when it decodes to one with roots and version 1, and the error says
      what is wrong with it. */
  lemma HeaderIs(c: Cbor, section: seq<Byte>, tail: seq<Byte>, h: Header)
    requires Fits(section)
    ensures var r, d := OpenArchive(c, Frame(section) + tail), c.decode(section);
            && (r == Success((h, tail)) <==> d == Some(h) && h.roots != [] && h.version == 1)
            && (r == Failure(BadCbor) <==> d.None?)
            && (r == Failure(NoRoots) <==> d.Some? && d.value.roots == [])
            && (r == Failure(BadVersion) <==> d.Some? && d.value.roots != [] && d.value.version != 1)
  {
    LdReadFrame(section, tail);
  }
}
