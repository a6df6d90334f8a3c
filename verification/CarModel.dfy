/** CAR version 1 archives: a header section, then one length-prefixed section per block (the Header and
    Data sections of the CARv1 specification). */
module CarModel {
  import opened Bytes
  import opened Cids
  import opened Options
  import Varint

  /** Longest section a reader makes room for. */
  const MAX_ALLOC: nat := 4 * 1024 * 1024

  datatype Header = Header(roots: seq<Cid>, version: U64)

  datatype Block = Block(cid: Cid, data: seq<Byte>)

  /** DAG-CBOR of a header. */
  datatype Cbor = Cbor(encode: Header -> seq<Byte>, decode: seq<Byte> -> Option<Header>)

  ghost predicate Lawful(c: Cbor) {
    forall h :: c.decode(c.encode(h)) == Some(h)
  }

  datatype Error = TooLarge(length: nat) | BadVarint | ShortRead | BadCid | BadCbor | NoRoots | BadVersion | NoHeader

  datatype Result<+T> = Success(value: T) | Failure(error: Error)

  /* ---- Writing ---- */

  /** A length and that many bytes. */
  function Frame(b: seq<Byte>): (s: seq<Byte>)
    ensures |s| > |b|
  {
    Varint.Encode(|b|) + b
  }

  function Section(b: Block): seq<Byte> {
    CidBytes(b.cid) + b.data
  }

  /** One sequence after another. */
  function Flat<T>(pieces: seq<seq<T>>): seq<T> {
    if pieces == [] then [] else Flat(pieces[..|pieces| - 1]) + pieces[|pieces| - 1]
  }

  function Frames(blocks: seq<Block>): seq<seq<Byte>> {
    seq(|blocks|, i requires 0 <= i < |blocks| => Frame(Section(blocks[i])))
  }

  function Sections(blocks: seq<Block>): seq<Byte> {
    Flat(Frames(blocks))
  }

  /** What a writer has produced after writing the blocks: the header goes out with the first one. */
  function Written(c: Cbor, h: Header, blocks: seq<Block>): seq<Byte> {
    if blocks == [] then [] else Frame(c.encode(h)) + Sections(blocks)
  }

  /* ---- Reading ---- */

  /** What `ld_read` finds: a section, the end of the input, or an error; and what it leaves unread. */
  datatype Found = Found(section: Result<Option<seq<Byte>>>, rest: seq<Byte>)

  function LdRead(input: seq<Byte>): (r: Found)
    ensures r.section.Success? && r.section.value.Some? ==> |r.rest| < |input|
  {
    match Varint.Read(input)
    case Value(length, n) =>
      var rest := input[n..];
      if length > MAX_ALLOC then Found(Failure(TooLarge(length)), rest)
      else if length > |rest| then Found(Failure(ShortRead), [])
      else Found(Success(Some(rest[..length])), rest[length..])
    case Truncated => Found(Success(None), [])
    case _ => Found(Failure(BadVarint), if |input| > Varint.MAX_LEN then input[Varint.MAX_LEN + 1..] else [])
  }

  /** `CarHeader::decode` */
  function DecodeHeader(c: Cbor, b: seq<Byte>): Result<Header> {
    var h := c.decode(b);
    if h.None? then Failure(BadCbor)
    else if h.value.roots == [] then Failure(NoRoots)
    else if h.value.version != 1 then Failure(BadVersion)
    else Success(h.value)
  }

  /** The CID at the front of a section and the data behind it. */
  function DecodeBlock(section: seq<Byte>): Result<Block> {
    var r := ReadCid(section);
    if r.Ok? then Success(Block(r.cid, section[r.len..])) else Failure(BadCid)
  }

  /** How a stream of blocks ends: with the input, or with an error. */
  datatype Ending = Clean | Broken(error: Error)

  datatype Stream = Stream(blocks: seq<Block>, ending: Ending)

  /** All blocks until the input ends or a read fails. */
  function ReadBlocks(input: seq<Byte>): Stream
    decreases |input|
  {
    var r := LdRead(input);
    if r.section.Failure? then Stream([], Broken(r.section.error))
    else if r.section.value.None? then Stream([], Clean)
    else
      var b := DecodeBlock(r.section.value.value);
      if b.Failure? then Stream([], Broken(b.error))
      else
        var s := ReadBlocks(r.rest);
        Stream([b.value] + s.blocks, s.ending)
  }

  /** `CarReader::new`: the header, and the input behind it. */
  function OpenArchive(c: Cbor, input: seq<Byte>): Result<(Header, seq<Byte>)> {
    var r := LdRead(input);
    if r.section.Failure? then Failure(r.section.error)
    else if r.section.value.None? then Failure(NoHeader)
    else
      var h := DecodeHeader(c, r.section.value.value);
      if h.Failure? then Failure(h.error) else Success((h.value, r.rest))
  }

  /** `CarReader::new` and then its whole stream. */
  function ReadArchive(c: Cbor, input: seq<Byte>): Result<(Header, Stream)> {
    var r := OpenArchive(c, input);
    if r.Failure? then Failure(r.error) else Success((r.value.0, ReadBlocks(r.value.1)))
  }
}
