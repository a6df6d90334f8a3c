/** A bitswap message under construction, its encoder and its decoder, with their loops. */
module BitswapMessages {
  import opened Bytes
  import opened Cids
  import opened MessageModel
  import opened MessageCodec
  import opened Options

  class BitswapMessage {
    var full: bool
    var wantlist: map<Cid, Entry>
    var blocks: map<Cid, Block>
    var presences: map<Cid, Presence>
    var pending: I32

    function Value(): Message
      reads this
    {
      Message(full, wantlist, blocks, presences, pending)
    }

    predicate Valid()
      reads this
    {
      Wf(Value())
    }

    constructor (full_: bool)
      ensures Valid() && Value() == NewMessage(full_)
    {
      full, wantlist, blocks, presences, pending := full_, map[], map[], map[], 0;
    }

    /** `clear` */
    method Reset(full_: bool)
      modifies this
      ensures Valid() && Value() == NewMessage(full_)
    {
      full, wantlist, blocks, presences, pending := full_, map[], map[], map[], 0;
    }

    method AddFullEntry(cid: Cid, priority: I32, cancel: bool, want: WantType, sendDontHave: bool)
      requires Valid()
      modifies this`wantlist
      ensures Valid()
      ensures Value() == AddEntry(old(Value()), cid, priority, cancel, want, sendDontHave)
    {
      AddEntryWf(Value(), cid, priority, cancel, want, sendDontHave);
      if cid in wantlist {
        var e := wantlist[cid];
        if e.want == want {
          e := e.(priority := priority);
        }
        if cancel {
          e := e.(cancel := cancel);
        }
        if sendDontHave {
          e := e.(sendDontHave := sendDontHave);
        }
        if want == WantBlock && e.want == WantHave {
          e := e.(want := want);
        }
        wantlist := wantlist[cid := e];
      } else {
        wantlist := wantlist[cid := Entry(cid, priority, want, cancel, sendDontHave)];
      }
    }

    method AddOneBlock(b: Block)
      requires Valid()
      modifies this`blocks, this`presences
      ensures Valid() && Value() == AddBlock(old(Value()), b)
    {
      AddBlockWf(Value(), b);
      presences := presences - {b.cid};
      blocks := blocks[b.cid := b];
    }

    method AddBlockPresence(cid: Cid, p: Presence)
      requires Valid()
      modifies this`presences
      ensures Valid() && Value() == AddPresence(old(Value()), cid, p)
    {
      if cid in blocks {
        return;
      }
      presences := presences[cid := p];
    }

    /** Keeps the blocks whose data hashes to their CID under a known hash function. */
    method RetainVerified(h: Hasher)
      requires Valid()
      modifies this`blocks
      ensures Valid() && Value() == VerifyBlocks(h, old(Value())) && AllVerified(h, Value())
      ensures forall c :: c in blocks <==> c in old(blocks) && Verified(h, old(blocks)[c])
    {
      ghost var before := blocks;
      var rest := blocks.Keys;
      while rest != {}
        invariant rest <= before.Keys
        invariant forall c :: c in blocks <==> c in before && (c in rest || Verified(h, before[c]))
        invariant forall c | c in blocks :: blocks[c] == before[c]
        decreases |rest|
      {
        var c :| c in rest;
        if !Verified(h, blocks[c]) {
          blocks := blocks - {c};
        }
        rest := rest - {c};
      }
    }
  }

  /** The keys of a set in some order. */
  method Walk(all: set<Cid>) returns (keys: seq<Cid>)
    ensures Lists(keys, all)
  {
    keys := [];
    var rest := all;
    while rest != {}
      invariant rest <= all
      invariant forall i | 0 <= i < |keys| :: keys[i] in all && keys[i] !in rest
      invariant forall c | c in all :: c in rest || c in keys
      invariant forall i, j | 0 <= i < j < |keys| :: keys[i] != keys[j]
      decreases |rest|
    {
      var c :| c in rest;
      keys, rest := keys + [c], rest - {c};
    }
  }

  /** The message encoded with its maps walked in the given orders. */
  ghost predicate EncodedIn(m: Message, pb: PbMessage, wants: seq<Cid>, blocks: seq<Cid>, presences: seq<Cid>) {
    && Lists(wants, m.wantlist.Keys) && Lists(blocks, m.blocks.Keys) && Lists(presences, m.presences.Keys)
    && AllIn(wants, m.wantlist) && AllIn(blocks, m.blocks) && AllIn(presences, m.presences)
    && pb == EncodeV1(m, wants, blocks, presences)
  }

  /** `encode_as_proto_v1`; `None` is the panic on a block with an unknown hash function. */
  method EncodeAsProtoV1(h: Hasher, m: Message) returns (pb: Option<PbMessage>)
    ensures pb.None? <==> exists c | c in m.blocks :: m.blocks[c].cid.hash.code !in h.known
    ensures pb.Some? ==> exists wants, blocks, presences :: EncodedIn(m, pb.value, wants, blocks, presences)
    ensures pb.Some? && Wf(m) && AllVerified(h, m) ==> Decode(h, pb.value) == Some(m)
  {
    var wants := Walk(m.wantlist.Keys);
    var blocks := Walk(m.blocks.Keys);
    var presences := Walk(m.presences.Keys);
    var entries := EncodeEntries(m.wantlist, wants);
    var payload := EncodeBlocks(h, m.blocks, blocks);
    if payload.None? {
      return None;
    }
    var present := EncodePresences(m.presences, presences);
    pb := Some(PbMessage(Some(PbWantlist(entries, m.full)), [], payload.value, present, m.pending));
    assert EncodedIn(m, pb.value, wants, blocks, presences);
    if Wf(m) && AllVerified(h, m) {
      VerifiedRoundTrip(h, m, wants, blocks, presences);
    }
  }

  method EncodeEntries(wants: map<Cid, Entry>, keys: seq<Cid>) returns (out: seq<PbEntry>)
    requires AllIn(keys, wants)
    ensures out == PbEntries(wants, keys)
  {
    out := [];
    for i := 0 to |keys|
      invariant out == PbEntries(wants, keys)[..i]
    {
      out := out + [PbOfEntry(wants[keys[i]])];
    }
  }

  method EncodeBlocks(h: Hasher, blocks: map<Cid, Block>, keys: seq<Cid>) returns (out: Option<seq<PbBlock>>)
    requires AllIn(keys, blocks)
    ensures out.None? <==> exists i | 0 <= i < |keys| :: blocks[keys[i]].cid.hash.code !in h.known
    ensures out.Some? ==> out.value == PbBlocks(blocks, keys)
  {
    var done: seq<PbBlock> := [];
    for i := 0 to |keys|
      invariant done == PbBlocks(blocks, keys)[..i]
      invariant forall j | 0 <= j < i :: blocks[keys[j]].cid.hash.code in h.known
    {
      var b := blocks[keys[i]];
      if b.cid.hash.code !in h.known {
        return None;
      }
      done := done + [PbOfBlock(b)];
    }
    out := Some(done);
  }

  method EncodePresences(ps: map<Cid, Presence>, keys: seq<Cid>) returns (out: seq<PbPresence>)
    requires AllIn(keys, ps)
    ensures out == PbPresences(ps, keys)
  {
    out := [];
    for i := 0 to |keys|
      invariant out == PbPresences(ps, keys)[..i]
    {
      out := out + [PbOfPresence(keys[i], ps[keys[i]])];
    }
  }

  /** `TryFrom<pb::Message>`: reads the four lists in turn and stops at the first that does not decode. */
  method TryFrom(h: Hasher, pb: PbMessage) returns (m: Option<Message>)
    ensures m == Decode(h, pb)
  {
    var msg := NewMessage(pb.wantlist.Some? && pb.wantlist.value.full);
    m := TakeEntries(msg, if pb.wantlist.Some? then pb.wantlist.value.entries else []);
    if m.None? {
      return;
    }
    m := TakeV0Blocks(h, m.value, pb.blocks);
    if m.None? {
      return;
    }
    m := TakeBlocks(h, m.value, pb.payload);
    if m.None? {
      return;
    }
    m := TakePresences(m.value, pb.presences);
    if m.Some? {
      m := Some(m.value.(pending := pb.pending));
    }
  }

  method TakeEntries(start: Message, es: seq<PbEntry>) returns (m: Option<Message>)
    ensures m == DecodeEntries(start, es)
  {
    m := Some(start);
    for i := 0 to |es|
      invariant m == DecodeEntries(start, es[..i])
    {
      assert es[..i + 1][..i] == es[..i];
      if m.Some? {
        m := DecodeEntry(m.value, es[i]);
      }
    }
    assert es[..|es|] == es;
  }

  method TakeV0Blocks(h: Hasher, start: Message, bs: seq<seq<Byte>>) returns (m: Option<Message>)
    ensures m == DecodeV0Blocks(h, start, bs)
  {
    m := Some(start);
    for i := 0 to |bs|
      invariant m == DecodeV0Blocks(h, start, bs[..i])
    {
      assert bs[..i + 1][..i] == bs[..i];
      if m.Some? {
        m := DecodeV0Block(h, m.value, bs[i]);
      }
    }
    assert bs[..|bs|] == bs;
  }

  method TakeBlocks(h: Hasher, start: Message, bs: seq<PbBlock>) returns (m: Option<Message>)
    ensures m == DecodeBlocks(h, start, bs)
  {
    m := Some(start);
    for i := 0 to |bs|
      invariant m == DecodeBlocks(h, start, bs[..i])
    {
      assert bs[..i + 1][..i] == bs[..i];
      if m.Some? {
        m := DecodeBlock(h, m.value, bs[i]);
      }
    }
    assert bs[..|bs|] == bs;
  }

  method TakePresences(start: Message, ps: seq<PbPresence>) returns (m: Option<Message>)
    ensures m == DecodePresences(start, ps)
  {
    m := Some(start);
    for i := 0 to |ps|
      invariant m == DecodePresences(start, ps[..i])
    {
      assert ps[..i + 1][..i] == ps[..i];
      if m.Some? {
        m := DecodePresence(m.value, ps[i]);
      }
    }
    assert ps[..|ps|] == ps;
  }
}
