/** The CAR writer and reader, with the buffers they reuse. */
module Car {
  import opened Bytes
  import opened Cids
  import opened Options
  import opened CarModel
  import opened CarRoundTrip
  import Varint

  class CarWriter {
    const cbor: Cbor
    const header: Header
    var output: seq<Byte>
    var cidBuffer: seq<Byte>
    var isHeaderWritten: bool
    ghost var blocks: seq<Block>

    ghost predicate Valid()
      reads this
    {
      && output == Written(cbor, header, blocks)
      && (isHeaderWritten <==> blocks != [])
    }

    constructor (cbor: Cbor, header: Header)
      ensures Valid() && this.cbor == cbor && this.header == header && blocks == []
    {
      this.cbor, this.header := cbor, header;
      output, cidBuffer, isHeaderWritten, blocks := [], [], false, [];
    }

    /** Appends one block, after the header if this is the first. */
    method Write(cid: Cid, data: seq<Byte>)
      requires Valid()
      modifies this
      ensures Valid() && blocks == old(blocks) + [Block(cid, data)]
    {
      WrittenNext(cbor, header, blocks, Block(cid, data));
      if !isHeaderWritten {
        WriteHeader();
      }
      WriteSection(cid, data);
      blocks := blocks + [Block(cid, data)];
    }

    method WriteHeader()
      modifies this`output, this`isHeaderWritten
      ensures isHeaderWritten && output == old(output) + Frame(cbor.encode(header))
    {
      var headerBytes := cbor.encode(header);
      output := output + Varint.Encode(|headerBytes|);
      output := output + headerBytes;
      isHeaderWritten := true;
    }

    method WriteSection(cid: Cid, data: seq<Byte>)
      modifies this`output, this`cidBuffer
      ensures output == old(output) + Frame(Section(Block(cid, data)))
    {
      cidBuffer := [];
      cidBuffer := cidBuffer + CidBytes(cid);
      var length := |cidBuffer| + |data|;
      output := output + Varint.Encode(length);
      output := output + cidBuffer;
      output := output + data;
    }
  }

  lemma WrittenNext(c: Cbor, h: Header, blocks: seq<Block>, b: Block)
    ensures Written(c, h, blocks + [b])
            == (if blocks == [] then Frame(c.encode(h)) else Written(c, h, blocks)) + Frame(Section(b))
  {
    var all := blocks + [b];
    SectionsNext(blocks, b);
    if blocks == [] {
      assert Frames(blocks) == [];
      assert Sections(all) == Frame(Section(b));
    } else {
      Shift(Frame(c.encode(h)), Sections(blocks), Frame(Section(b)));
    }
  }

  lemma SectionsNext(blocks: seq<Block>, b: Block)
    ensures Sections(blocks + [b]) == Sections(blocks) + Frame(Section(b))
  {
    var all := Frames(blocks + [b]);
    assert all[..|blocks|] == Frames(blocks);
  }

  /** What `ld_read` hands back: a slice of the buffer, the end of the input, or an error. */
  datatype Slice = Filled(length: nat) | AtEnd | Failed(error: Error)

  /** Copies the next section over the front of the buffer, which grows but never shrinks. */
  method FillBuffer(input: seq<Byte>, buffer: seq<Byte>) returns (slice: Slice, rest: seq<Byte>, filled: seq<Byte>)
    ensures |filled| >= |buffer|
    ensures slice.Filled? ==> slice.length <= |filled|
    ensures LdRead(input) == Found(if slice.Failed? then Failure(slice.error)
                                   else if slice.AtEnd? then Success(None)
                                   else Success(Some(filled[..slice.length])), rest)
  {
    filled := buffer;
    var prefix := Varint.Read(input);
    if prefix.Truncated? {
      return AtEnd, [], filled;
    }
    if !prefix.Value? {
      return Failed(BadVarint), if |input| > Varint.MAX_LEN then input[Varint.MAX_LEN + 1..] else [], filled;
    }
    var length := prefix.value;
    rest := input[prefix.len..];
    if length > MAX_ALLOC {
      return Failed(TooLarge(length)), rest, filled;
    }
    if length > |filled| {
      filled := filled + seq(length - |filled|, _ => 0);
    }
    if length > |rest| {
      filled := rest + filled[|rest|..];
      return Failed(ShortRead), [], filled;
    }
    filled := rest[..length] + filled[length..];
    Skip(rest[..length], filled[length..]);
    slice, rest := Filled(length), rest[length..];
  }

  class CarReader {
    var input: seq<Byte>
    var header: Header
    var buffer: seq<Byte>

    constructor (input: seq<Byte>, header: Header, buffer: seq<Byte>)
      ensures this.input == input && this.header == header && this.buffer == buffer
    {
      this.input, this.header, this.buffer := input, header, buffer;
    }

    /** The next block. Only the input decides what is returned, never what the buffer still holds. */
    method NextBlock() returns (r: Result<Option<Block>>)
      modifies this`input, this`buffer
      ensures input == LdRead(old(input)).rest
      ensures r == NextOf(LdRead(old(input)).section)
    {
      var slice;
      slice, input, buffer := FillBuffer(input, buffer);
      if slice.Failed? {
        return Failure(slice.error);
      }
      if slice.AtEnd? {
        return Success(None);
      }
      var section := buffer[..slice.length];
      var cid := ReadCid(section);
      if cid.Bad? {
        return Failure(BadCid);
      }
      return Success(Some(Block(cid.cid, section[cid.len..])));
    }

    /** Reads to the end of the input or the first error. */
    method Drain() returns (blocks: seq<Block>, ending: Ending)
      modifies this`input, this`buffer
      ensures Stream(blocks, ending) == ReadBlocks(old(input))
    {
      blocks := [];
      ending := Clean;
      while true
        invariant Stream(blocks + ReadBlocks(input).blocks, ReadBlocks(input).ending) == ReadBlocks(old(input))
        decreases |input|
      {
        ghost var left := ReadBlocks(input);
        assert left.blocks == [] ==> blocks + left.blocks == blocks;
        var r := NextBlock();
        if r.Failure? {
          ending := Broken(r.error);
          return;
        }
        if r.value.None? {
          return;
        }
        Shift(blocks, [r.value.value], ReadBlocks(input).blocks);
        blocks := blocks + [r.value.value];
      }
    }
  }

  /** What `read_node` makes of a section. */
  function NextOf(section: Result<Option<seq<Byte>>>): Result<Option<Block>> {
    if section.Failure? then Failure(section.error)
    else if section.value.None? then Success(None)
    else
      var b := DecodeBlock(section.value.value);
      if b.Failure? then Failure(b.error) else Success(Some(b.value))
  }

  datatype Opened = Reader(reader: CarReader) | Rejected(error: Error)

  /** `CarReader::new` */
  method Open(cbor: Cbor, input: seq<Byte>) returns (r: Opened)
    ensures r.Rejected? ==> OpenArchive(cbor, input) == Failure(r.error)
    ensures r.Reader? ==> fresh(r.reader) && OpenArchive(cbor, input) == Success((r.reader.header, r.reader.input))
  {
    var slice, rest, buffer := FillBuffer(input, []);
    if slice.Failed? {
      return Rejected(slice.error);
    }
    if slice.AtEnd? {
      return Rejected(NoHeader);
    }
    var header := DecodeHeader(cbor, buffer[..slice.length]);
    if header.Failure? {
      return Rejected(header.error);
    }
    var reader := new CarReader(rest, header.value, buffer);
    r := Reader(reader);
  }
}
