/** Bitswap messages, CID prefixes and their protobuf form, as values. */
module MessageModel {
  import opened Bytes
  import opened Cids
  import opened Options
  import Varint

  type I32 = x: int | -0x8000_0000 <= x < 0x8000_0000

  type Digest = d: seq<Byte> | |d| <= MAX_DIGEST

  /** The supported hash functions. */
  datatype Hasher = Hasher(known: set<U64>, digest: (U64, seq<Byte>) -> Digest)

  function HashOf(h: Hasher, code: U64, data: seq<Byte>): Hash {
    Multihash(code, h.digest(code, data))
  }

  /* ---- Prefixes ---- */

  /** All of a CID but the content of its digest. */
  datatype Prefix = Prefix(version: Version, codec: U64, mhType: U64, mhLen: U64)

  /** `Prefix::from`; it panics on an unknown hash function. */
  function PrefixOf(c: Cid): Prefix {
    Prefix(c.version, c.codec, c.hash.code, |c.hash.digest|)
  }

  /** `Prefix::to_bytes` */
  function PrefixBytes(p: Prefix): seq<Byte> {
    Varint.Encode(VersionNumber(p.version)) + Varint.Encode(p.codec)
    + (Varint.Encode(p.mhType) + Varint.Encode(p.mhLen))
  }

  /** `Prefix::new`: four varints, a known version and a known hash function. */
  function ParsePrefix(h: Hasher, s: seq<Byte>): Option<Prefix> {
    match Varint.Decode(s)
    case Value(version, a) =>
      if version > 1 then None else
      (match Varint.Decode(s[a..])
       case Value(codec, b) =>
         (match Varint.Decode(s[a + b..])
          case Value(mhType, c) =>
            (match Varint.Decode(s[a + b..][c..])
             case Value(mhLen, _) =>
               if mhType in h.known
               then Some(Prefix(if version == 0 then V0 else V1, codec, mhType, mhLen)) else None
             case _ => None)
          case _ => None)
       case _ => None)
    case _ => None
  }

  /** `Prefix::to_cid`: hashes the data; the stated digest length plays no part. */
  function ToCid(h: Hasher, p: Prefix, data: seq<Byte>): CidResult {
    NewCid(p.version, p.codec, HashOf(h, p.mhType, data))
  }

  /** Four varints are a prefix exactly when the first is a version and the third a known hash function. What
      follows them does not matter. */
  lemma ParsePrefixIs(h: Hasher, version: U64, codec: U64, mhType: U64, mhLen: U64, rest: seq<Byte>)
    ensures var s := Varint.Encode(version) + Varint.Encode(codec)
                     + (Varint.Encode(mhType) + Varint.Encode(mhLen) + rest);
            && (ParsePrefix(h, s).Some? <==> (version == 0 || version == 1) && mhType in h.known)
            && (version == 0 && mhType in h.known ==> ParsePrefix(h, s) == Some(Prefix(V0, codec, mhType, mhLen)))
            && (version == 1 && mhType in h.known ==> ParsePrefix(h, s) == Some(Prefix(V1, codec, mhType, mhLen)))
  {
    TwoVarints(version, codec, Varint.Encode(mhType) + Varint.Encode(mhLen) + rest);
    TwoVarints(mhType, mhLen, rest);
  }

  lemma PrefixRoundTrip(h: Hasher, p: Prefix)
    requires p.mhType in h.known
    ensures ParsePrefix(h, PrefixBytes(p)) == Some(p)
  {
    ParsePrefixIs(h, VersionNumber(p.version), p.codec, p.mhType, p.mhLen, []);
    var last := Varint.Encode(p.mhType) + Varint.Encode(p.mhLen);
    assert last == last + [];
  }

  /* ---- Messages ---- */

  datatype WantType = WantBlock | WantHave
  datatype Presence = Have | DontHave

  datatype Entry = Entry(cid: Cid, priority: I32, want: WantType, cancel: bool, sendDontHave: bool)

  datatype Block = Block(cid: Cid, data: seq<Byte>)

  datatype Message = Message(full: bool, wantlist: map<Cid, Entry>, blocks: map<Cid, Block>,
                             presences: map<Cid, Presence>, pending: I32)

  function NewMessage(full: bool): Message {
    Message(full, map[], map[], map[], 0)
  }

  /** How a second want for a CID changes the entry. */
  function Merge(e: Entry, priority: I32, cancel: bool, want: WantType, sendDontHave: bool): Entry {
    Entry(e.cid,
          if e.want == want then priority else e.priority,
          if want.WantBlock? then want else e.want,
          e.cancel || cancel,
          e.sendDontHave || sendDontHave)
  }

  /** `add_full_entry` */
  function AddEntry(m: Message, c: Cid, priority: I32, cancel: bool, want: WantType, sendDontHave: bool): Message {
    m.(wantlist := m.wantlist[c :=
         if c in m.wantlist then Merge(m.wantlist[c], priority, cancel, want, sendDontHave)
         else Entry(c, priority, want, cancel, sendDontHave)])
  }

  /** `add_block` */
  function AddBlock(m: Message, b: Block): Message {
    m.(presences := m.presences - {b.cid}, blocks := m.blocks[b.cid := b])
  }

  /** `add_block_presence` */
  function AddPresence(m: Message, c: Cid, p: Presence): Message {
    if c in m.blocks then m else m.(presences := m.presences[c := p])
  }

  /** `verify_hash` says `Some(true)` */
  predicate Verified(h: Hasher, b: Block) {
    b.cid.hash.code in h.known && HashOf(h, b.cid.hash.code, b.data) == b.cid.hash
  }

  /** `verify_blocks` */
  function VerifyBlocks(h: Hasher, m: Message): Message {
    m.(blocks := map c | c in m.blocks && Verified(h, m.blocks[c]) :: m.blocks[c])
  }

  /* ---- Protobuf form ---- */

  datatype PbEntry = PbEntry(block: seq<Byte>, priority: I32, want: I32, cancel: bool, sendDontHave: bool)
  datatype PbWantlist = PbWantlist(entries: seq<PbEntry>, full: bool)
  datatype PbBlock = PbBlock(prefix: seq<Byte>, data: seq<Byte>)
  datatype PbPresence = PbPresence(cid: seq<Byte>, typ: I32)

  datatype PbMessage = PbMessage(wantlist: Option<PbWantlist>, blocks: seq<seq<Byte>>, payload: seq<PbBlock>,
                                 presences: seq<PbPresence>, pending: I32)

  function WantNumber(w: WantType): I32 { if w.WantBlock? then 0 else 1 }

  function PresenceNumber(p: Presence): I32 { if p.Have? then 0 else 1 }

  function PbOfEntry(e: Entry): PbEntry {
    PbEntry(CidBytes(e.cid), e.priority, WantNumber(e.want), e.cancel, e.sendDontHave)
  }

  function PbOfBlock(b: Block): PbBlock {
    PbBlock(PrefixBytes(PrefixOf(b.cid)), b.data)
  }

  function PbOfPresence(c: Cid, p: Presence): PbPresence {
    PbPresence(CidBytes(c), PresenceNumber(p))
  }

  /** The keys of a map in some order, each once. */
  ghost predicate Lists(keys: seq<Cid>, all: set<Cid>) {
    && (forall i | 0 <= i < |keys| :: keys[i] in all)
    && (forall c | c in all :: c in keys)
    && (forall i, j | 0 <= i < j < |keys| :: keys[i] != keys[j])
  }

  predicate AllIn<V>(keys: seq<Cid>, m: map<Cid, V>) {
    forall i | 0 <= i < |keys| :: keys[i] in m
  }

  /** `encode_as_proto_v1` when the three maps are walked in the given orders. */
  function EncodeV1(m: Message, wants: seq<Cid>, blocks: seq<Cid>, presences: seq<Cid>): PbMessage
    requires AllIn(wants, m.wantlist) && AllIn(blocks, m.blocks) && AllIn(presences, m.presences)
  {
    PbMessage(
      Some(PbWantlist(seq(|wants|, i requires 0 <= i < |wants| => PbOfEntry(m.wantlist[wants[i]])), m.full)),
      [],
      seq(|blocks|, i requires 0 <= i < |blocks| => PbOfBlock(m.blocks[blocks[i]])),
      seq(|presences|, i requires 0 <= i < |presences| => PbOfPresence(presences[i], m.presences[presences[i]])),
      m.pending)
  }

  /* ---- Decoding: `TryFrom<pb::Message>` ---- */

  /** One wantlist entry; `None` is a CID or want type that does not decode. */
  function DecodeEntry(m: Message, e: PbEntry): Option<Message> {
    EntryFor(m, ReadCid(e.block), e)
  }

  function EntryFor(m: Message, r: CidResult, e: PbEntry): Option<Message> {
    match r
    case Ok(c, _) =>
      if e.want == 0 then Some(AddEntry(m, c, e.priority, e.cancel, WantBlock, e.sendDontHave))
      else if e.want == 1 then Some(AddEntry(m, c, e.priority, e.cancel, WantHave, e.sendDontHave))
      else None
    case Bad => None
  }

  function DecodeEntries(m: Message, es: seq<PbEntry>): Option<Message> {
    if es == [] then Some(m)
    else match DecodeEntries(m, es[..|es| - 1])
      case Some(n) => DecodeEntry(n, es[|es| - 1])
      case None => None
  }

  /** A block of the first protocol version: always a version 0 CID. */
  function DecodeV0Block(h: Hasher, m: Message, data: seq<Byte>): Option<Message> {
    match NewCid(V0, DAG_PB, HashOf(h, SHA2_256, data))
    case Ok(c, _) => Some(AddBlock(m, Block(c, data)))
    case Bad => None
  }

  function DecodeV0Blocks(h: Hasher, m: Message, bs: seq<seq<Byte>>): Option<Message> {
    if bs == [] then Some(m)
    else match DecodeV0Blocks(h, m, bs[..|bs| - 1])
      case Some(n) => DecodeV0Block(h, n, bs[|bs| - 1])
      case None => None
  }

  function DecodeBlock(h: Hasher, m: Message, b: PbBlock): Option<Message> {
    match ParsePrefix(h, b.prefix)
    case Some(p) =>
      (match ToCid(h, p, b.data)
       case Ok(c, _) => Some(AddBlock(m, Block(c, b.data)))
       case Bad => None)
    case None => None
  }

  function DecodeBlocks(h: Hasher, m: Message, bs: seq<PbBlock>): Option<Message> {
    if bs == [] then Some(m)
    else match DecodeBlocks(h, m, bs[..|bs| - 1])
      case Some(n) => DecodeBlock(h, n, bs[|bs| - 1])
      case None => None
  }

  function DecodePresence(m: Message, p: PbPresence): Option<Message> {
    match ReadCid(p.cid)
    case Ok(c, _) =>
      if p.typ == 0 then Some(AddPresence(m, c, Have))
      else if p.typ == 1 then Some(AddPresence(m, c, DontHave))
      else None
    case Bad => None
  }

  function DecodePresences(m: Message, ps: seq<PbPresence>): Option<Message> {
    if ps == [] then Some(m)
    else match DecodePresences(m, ps[..|ps| - 1])
      case Some(n) => DecodePresence(n, ps[|ps| - 1])
      case None => None
  }

  function Decode(h: Hasher, pb: PbMessage): Option<Message> {
    var start := NewMessage(pb.wantlist.Some? && pb.wantlist.value.full);
    match DecodeEntries(start, if pb.wantlist.Some? then pb.wantlist.value.entries else [])
    case None => None
    case Some(m0) =>
      (match DecodeV0Blocks(h, m0, pb.blocks)
       case None => None
       case Some(m1) =>
         (match DecodeBlocks(h, m1, pb.payload)
          case None => None
          case Some(m2) =>
            (match DecodePresences(m2, pb.presences)
             case None => None
             case Some(m3) => Some(m3.(pending := pb.pending)))))
  }
}
