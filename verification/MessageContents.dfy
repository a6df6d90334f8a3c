/** Exactly what a decoded message contains, and what a message built through the API contains. */
module MessageContents {
  import opened Bytes
  import opened Cids
  import opened MessageModel
  import opened MessageCodec
  import opened Options
  import opened Switches

  /* ---- Which CIDs the parts of a wire message stand for ---- */

  /** A block of the first protocol version: the version 0 CID of the SHA-256 of its data. */
  function FirstVersionCids(h: Hasher, datas: seq<seq<Byte>>): seq<CidResult> {
    seq(|datas|, i requires 0 <= i < |datas| => NewCid(V0, DAG_PB, HashOf(h, SHA2_256, datas[i])))
  }

  /** A block with a prefix: the version, codec and hash function of the prefix applied to its data. */
  function PrefixedCid(h: Hasher, b: PbBlock): CidResult {
    var p := ParsePrefix(h, b.prefix);
    if p.None? then Bad else NewCid(p.value.version, p.value.codec, HashOf(h, p.value.mhType, b.data))
  }

  function PrefixedCids(h: Hasher, bs: seq<PbBlock>): seq<CidResult> {
    seq(|bs|, i requires 0 <= i < |bs| => PrefixedCid(h, bs[i]))
  }

  function Datas(bs: seq<PbBlock>): seq<seq<Byte>> {
    seq(|bs|, i requires 0 <= i < |bs| => bs[i].data)
  }

  function EntryCids(es: seq<PbEntry>): seq<CidResult> {
    seq(|es|, i requires 0 <= i < |es| => ReadCid(es[i].block))
  }

  function PresenceCids(ps: seq<PbPresence>): seq<CidResult> {
    seq(|ps|, i requires 0 <= i < |ps| => ReadCid(ps[i].cid))
  }

  predicate Names(r: CidResult, c: Cid) {
    r.Ok? && r.cid == c
  }

  predicate AllOk(cids: seq<CidResult>) {
    forall i | 0 <= i < |cids| :: cids[i].Ok?
  }

  predicate Among(cids: seq<CidResult>, c: Cid) {
    exists i | 0 <= i < |cids| :: Names(cids[i], c)
  }

  /** The last place of the list that names the CID. */
  predicate LastNames(cids: seq<CidResult>, c: Cid, i: nat) {
    && i < |cids| && Names(cids[i], c)
    && forall j | i < j < |cids| :: !Names(cids[j], c)
  }

  lemma AmongLast(cids: seq<CidResult>, c: Cid)
    requires cids != []
    ensures Among(cids, c) <==> Among(cids[..|cids| - 1], c) || Names(cids[|cids| - 1], c)
  {
    var n := |cids| - 1;
    if Among(cids, c) && !Names(cids[n], c) {
      var i :| 0 <= i < |cids| && Names(cids[i], c);
      assert Names(cids[..n][i], c);
    }
    if Among(cids[..n], c) {
      var i :| 0 <= i < n && Names(cids[..n][i], c);
      assert Names(cids[i], c);
    }
  }

  lemma LastNamesPrefix(cids: seq<CidResult>, c: Cid, i: nat)
    requires cids != [] && LastNames(cids, c, i) && i < |cids| - 1
    ensures LastNames(cids[..|cids| - 1], c, i)
  {
  }

  /* ---- Blocks ---- */

  function AddOffered(m: Message, cids: seq<CidResult>, datas: seq<seq<Byte>>): Option<Message>
    requires |cids| == |datas|
  {
    if cids == [] then Some(m)
    else
      var n := |cids| - 1;
      var before := AddOffered(m, cids[..n], datas[..n]);
      if before.Some? && cids[n].Ok? then Some(AddBlock(before.value, Block(cids[n].cid, datas[n]))) else None
  }

  lemma {:induction false} FirstVersionOffered(h: Hasher, m: Message, bs: seq<seq<Byte>>)
    ensures DecodeV0Blocks(h, m, bs) == AddOffered(m, FirstVersionCids(h, bs), bs)
  {
    if bs != [] {
      var n := |bs| - 1;
      FirstVersionOffered(h, m, bs[..n]);
      assert FirstVersionCids(h, bs)[..n] == FirstVersionCids(h, bs[..n]);
    }
  }

  lemma {:induction false} PrefixedOffered(h: Hasher, m: Message, bs: seq<PbBlock>)
    ensures DecodeBlocks(h, m, bs) == AddOffered(m, PrefixedCids(h, bs), Datas(bs))
  {
    if bs != [] {
      var n := |bs| - 1;
      PrefixedOffered(h, m, bs[..n]);
      assert PrefixedCids(h, bs)[..n] == PrefixedCids(h, bs[..n]);
      assert Datas(bs)[..n] == Datas(bs[..n]);
    }
  }

  lemma {:induction false} OfferedAll(m: Message, cids: seq<CidResult>, datas: seq<seq<Byte>>)
    requires |cids| == |datas|
    ensures AddOffered(m, cids, datas).Some? <==> AllOk(cids)
  {
    if cids != [] {
      var n := |cids| - 1;
      OfferedAll(m, cids[..n], datas[..n]);
      OkLast(cids);
    }
  }

  /** What the offered blocks leave under a CID: the data of the last that names it, and no presence. */
  predicate OfferedUnder(m: Message, cids: seq<CidResult>, datas: seq<seq<Byte>>, c: Cid, t: Message)
    requires |cids| == |datas|
  {
    && (c in t.blocks <==> c in m.blocks || Among(cids, c))
    && (c in t.blocks && !Among(cids, c) ==> c in m.blocks && t.blocks[c] == m.blocks[c])
    && (forall i | 0 <= i < |cids| && LastNames(cids, c, i) :: c in t.blocks && t.blocks[c] == Block(c, datas[i]))
    && (c in t.presences <==> c in m.presences && !Among(cids, c))
    && (c in t.presences ==> c in m.presences && t.presences[c] == m.presences[c])
    && t.wantlist == m.wantlist && t.full == m.full && t.pending == m.pending
  }

  lemma {:induction false} OfferedIs(m: Message, cids: seq<CidResult>, datas: seq<seq<Byte>>, c: Cid)
    requires |cids| == |datas| && AddOffered(m, cids, datas).Some?
    ensures OfferedUnder(m, cids, datas, c, AddOffered(m, cids, datas).value)
    decreases cids
  {
    if cids != [] {
      var n := |cids| - 1;
      OfferedIs(m, cids[..n], datas[..n], c);
      AmongLast(cids, c);
      var before := AddOffered(m, cids[..n], datas[..n]).value;
      forall i | 0 <= i < |cids| && LastNames(cids, c, i)
        ensures c in AddOffered(m, cids, datas).value.blocks
        ensures AddOffered(m, cids, datas).value.blocks[c] == Block(c, datas[i])
      {
        if i < n {
          LastNamesPrefix(cids, c, i);
          assert c in before.blocks && before.blocks[c] == Block(c, datas[..n][i]);
        }
      }
    }
  }

  /* ---- Presences ---- */

  function PresenceOf(typ: I32): Option<Presence> {
    if typ == 0 then Some(Have) else if typ == 1 then Some(DontHave) else None
  }

  function Types(ps: seq<PbPresence>): seq<I32> {
    seq(|ps|, i requires 0 <= i < |ps| => ps[i].typ)
  }

  predicate AllTyped(types: seq<I32>) {
    forall i | 0 <= i < |types| :: PresenceOf(types[i]).Some?
  }

  function AddNoted(m: Message, cids: seq<CidResult>, types: seq<I32>): Option<Message>
    requires |cids| == |types|
  {
    if cids == [] then Some(m)
    else
      var n := |cids| - 1;
      var before, p := AddNoted(m, cids[..n], types[..n]), PresenceOf(types[n]);
      if before.Some? && cids[n].Ok? && p.Some? then Some(AddPresence(before.value, cids[n].cid, p.value)) else None
  }

  lemma {:induction false} PresencesNoted(m: Message, ps: seq<PbPresence>)
    ensures DecodePresences(m, ps) == AddNoted(m, PresenceCids(ps), Types(ps))
  {
    if ps != [] {
      var n := |ps| - 1;
      PresencesNoted(m, ps[..n]);
      assert PresenceCids(ps)[..n] == PresenceCids(ps[..n]);
      assert Types(ps)[..n] == Types(ps[..n]);
    }
  }

  lemma {:induction false} NotedAll(m: Message, cids: seq<CidResult>, types: seq<I32>)
    requires |cids| == |types|
    ensures AddNoted(m, cids, types).Some? <==> AllOk(cids) && AllTyped(types)
  {
    if cids != [] {
      var n := |cids| - 1;
      NotedAll(m, cids[..n], types[..n]);
      OkLast(cids);
      assert AllTyped(types) <==> AllTyped(types[..n]) && PresenceOf(types[n]).Some? by {
        if AllTyped(types[..n]) && PresenceOf(types[n]).Some? {
          forall i | 0 <= i < |types| ensures PresenceOf(types[i]).Some? {
            assert i < n ==> types[..n][i] == types[i];
          }
        }
      }
    }
  }

  lemma OkLast(cids: seq<CidResult>)
    requires cids != []
    ensures AllOk(cids) <==> AllOk(cids[..|cids| - 1]) && cids[|cids| - 1].Ok?
  {
    var n := |cids| - 1;
    if AllOk(cids[..n]) && cids[n].Ok? {
      forall i | 0 <= i < |cids| ensures cids[i].Ok? {
        assert i < n ==> cids[..n][i] == cids[i];
      }
    }
  }

  /** What the noted presences leave under a CID: nothing if there is a block, and else the last that names it. */
  predicate NotedUnder(m: Message, cids: seq<CidResult>, types: seq<I32>, c: Cid, t: Message)
    requires |cids| == |types|
  {
    && (c in t.presences <==> c in m.presences || (Among(cids, c) && c !in m.blocks))
    && (c in m.presences && (!Among(cids, c) || c in m.blocks) ==> c in t.presences && t.presences[c] == m.presences[c])
    && (forall i | 0 <= i < |cids| && LastNames(cids, c, i) && c !in m.blocks ::
          c in t.presences && Some(t.presences[c]) == PresenceOf(types[i]))
    && t.blocks == m.blocks && t.wantlist == m.wantlist && t.full == m.full && t.pending == m.pending
  }

  lemma {:induction false} NotedIs(m: Message, cids: seq<CidResult>, types: seq<I32>, c: Cid)
    requires |cids| == |types| && AddNoted(m, cids, types).Some?
    ensures NotedUnder(m, cids, types, c, AddNoted(m, cids, types).value)
    decreases cids
  {
    if cids != [] {
      var n := |cids| - 1;
      NotedIs(m, cids[..n], types[..n], c);
      AmongLast(cids, c);
      var before, t := AddNoted(m, cids[..n], types[..n]).value, AddNoted(m, cids, types).value;
      forall i | 0 <= i < |cids| && LastNames(cids, c, i) && c !in m.blocks
        ensures c in t.presences && Some(t.presences[c]) == PresenceOf(types[i])
      {
        if i < n {
          LastNamesPrefix(cids, c, i);
          assert c in before.presences && Some(before.presences[c]) == PresenceOf(types[..n][i]);
        }
      }
    }
  }

  /* ---- Entries ---- */

  function WantOf(n: I32): Option<WantType> {
    if n == 0 then Some(WantBlock) else if n == 1 then Some(WantHave) else None
  }

  predicate AllWanted(es: seq<PbEntry>) {
    forall i | 0 <= i < |es| :: WantOf(es[i].want).Some?
  }

  /** The asks of the entries that name the CID, in order. */
  function AsksFor(cids: seq<CidResult>, es: seq<PbEntry>, c: Cid): seq<Ask>
    requires |cids| == |es| && AllWanted(es)
  {
    if cids == [] then []
    else
      var n := |cids| - 1;
      var before, e := AsksFor(cids[..n], es[..n], c), es[n];
      if Names(cids[n], c) then before + [Ask(e.priority, e.cancel, WantOf(e.want).value, e.sendDontHave)] else before
  }

  lemma {:induction false} AsksAmong(cids: seq<CidResult>, es: seq<PbEntry>, c: Cid)
    requires |cids| == |es| && AllWanted(es)
    ensures AsksFor(cids, es, c) != [] <==> Among(cids, c)
    decreases cids
  {
    if cids != [] {
      AsksAmong(cids[..|cids| - 1], es[..|cids| - 1], c);
      AmongLast(cids, c);
    }
  }

  lemma WantedLast(es: seq<PbEntry>)
    requires es != []
    ensures AllWanted(es) <==> AllWanted(es[..|es| - 1]) && WantOf(es[|es| - 1].want).Some?
  {
    var n := |es| - 1;
    if AllWanted(es[..n]) && WantOf(es[n].want).Some? {
      forall i | 0 <= i < |es| ensures WantOf(es[i].want).Some? {
        assert i < n ==> es[..n][i] == es[i];
      }
    }
  }

  function AddAsked(m: Message, cids: seq<CidResult>, es: seq<PbEntry>): Option<Message>
    requires |cids| == |es|
  {
    if cids == [] then Some(m)
    else
      var n := |cids| - 1;
      var before := AddAsked(m, cids[..n], es[..n]);
      if before.Some? then EntryFor(before.value, cids[n], es[n]) else None
  }

  lemma {:induction false} EntriesAsked(m: Message, es: seq<PbEntry>)
    ensures DecodeEntries(m, es) == AddAsked(m, EntryCids(es), es)
  {
    if es != [] {
      var n := |es| - 1;
      EntriesAsked(m, es[..n]);
      assert EntryCids(es)[..n] == EntryCids(es[..n]);
    }
  }

  lemma {:induction false} AskedAll(m: Message, cids: seq<CidResult>, es: seq<PbEntry>)
    requires |cids| == |es|
    ensures AddAsked(m, cids, es).Some? <==> AllOk(cids) && AllWanted(es)
    decreases cids
  {
    if cids != [] {
      AskedAll(m, cids[..|cids| - 1], es[..|cids| - 1]);
      OkLast(cids);
      WantedLast(es);
    }
  }

  /** What the entries leave under a CID: the merge of those that name it. */
  predicate AskedUnder(m: Message, asks: seq<Ask>, c: Cid, t: Message) {
    && (c in t.wantlist <==> asks != [])
    && (asks != [] ==> c in t.wantlist && t.wantlist[c] == Merged(c, asks))
    && t.blocks == m.blocks && t.presences == m.presences && t.full == m.full && t.pending == m.pending
  }

  lemma AskedNext(m: Message, before: Message, asks: seq<Ask>, c: Cid, r: CidResult, e: PbEntry)
    requires AskedUnder(m, asks, c, before) && r.Ok? && WantOf(e.want).Some?
    ensures var ask := Ask(e.priority, e.cancel, WantOf(e.want).value, e.sendDontHave);
            && EntryFor(before, r, e).Some?
            && AskedUnder(m, if r.cid == c then asks + [ask] else asks, c, EntryFor(before, r, e).value)
  {
    var ask := Ask(e.priority, e.cancel, WantOf(e.want).value, e.sendDontHave);
    assert EntryFor(before, r, e)
           == Some(AddEntry(before, r.cid, ask.priority, ask.cancel, ask.want, ask.sendDontHave));
    MergedNext(c, asks, ask);
  }

  lemma MergedNext(c: Cid, asks: seq<Ask>, a: Ask)
    ensures Merged(c, asks + [a]) ==
            if asks == [] then Entry(c, a.priority, a.want, a.cancel, a.sendDontHave)
            else Merge(Merged(c, asks), a.priority, a.cancel, a.want, a.sendDontHave)
  {
    assert (asks + [a])[..|asks|] == asks;
  }

  lemma {:induction false} AskedIs(m: Message, cids: seq<CidResult>, es: seq<PbEntry>, c: Cid)
    requires |cids| == |es| && AllOk(cids) && AllWanted(es) && m.wantlist == map[]
    ensures AddAsked(m, cids, es).Some? && AskedUnder(m, AsksFor(cids, es, c), c, AddAsked(m, cids, es).value)
    decreases cids
  {
    if cids != [] {
      var n := |cids| - 1;
      OkLast(cids);
      WantedLast(es);
      AskedIs(m, cids[..n], es[..n], c);
      AskedNext(m, AddAsked(m, cids[..n], es[..n]).value, AsksFor(cids[..n], es[..n], c), c, cids[n], es[n]);
    }
  }

  /* ---- The whole message ---- */

  function Entries(pb: PbMessage): seq<PbEntry> {
    if pb.wantlist.Some? then pb.wantlist.value.entries else []
  }

  /** Every part of the wire message stands for something. */
  predicate Decodable(h: Hasher, pb: PbMessage) {
    && AllOk(EntryCids(Entries(pb))) && AllWanted(Entries(pb))
    && AllOk(FirstVersionCids(h, pb.blocks)) && AllOk(PrefixedCids(h, pb.payload))
    && AllOk(PresenceCids(pb.presences)) && AllTyped(Types(pb.presences))
  }

  /** The blocks of the message: under a CID the data of the last prefixed block that has it, or else of the last
      block of the first version that has it; no other blocks. */
  predicate BlocksAre(h: Hasher, pb: PbMessage, c: Cid, m: Message) {
    var first, prefixed := FirstVersionCids(h, pb.blocks), PrefixedCids(h, pb.payload);
    && (c in m.blocks <==> Among(first, c) || Among(prefixed, c))
    && (forall i | 0 <= i < |prefixed| && LastNames(prefixed, c, i) ::
          c in m.blocks && m.blocks[c] == Block(c, pb.payload[i].data))
    && (forall i | 0 <= i < |first| && LastNames(first, c, i) && !Among(prefixed, c) ::
          c in m.blocks && m.blocks[c] == Block(c, pb.blocks[i]))
  }

  /** The presences of the message: those of CIDs without a block, as the last one says. */
  predicate PresencesAre(pb: PbMessage, c: Cid, m: Message) {
    var cids := PresenceCids(pb.presences);
    && (c in m.presences <==> Among(cids, c) && c !in m.blocks)
    && (forall i | 0 <= i < |cids| && LastNames(cids, c, i) && c !in m.blocks ::
          c in m.presences && Some(m.presences[c]) == PresenceOf(pb.presences[i].typ))
  }

  /** The wants of the message: the merge of the entries of each CID, in order. */
  predicate WantsAre(pb: PbMessage, c: Cid, m: Message)
    requires AllWanted(Entries(pb))
  {
    var asks := AsksFor(EntryCids(Entries(pb)), Entries(pb), c);
    (c in m.wantlist <==> asks != []) && (asks != [] ==> c in m.wantlist && m.wantlist[c] == Merged(c, asks))
  }

  /** The four loops of decoding one after the other. */
  lemma DecodeSteps(h: Hasher, pb: PbMessage)
    ensures var m0 := AddAsked(NewMessage(pb.wantlist.Some? && pb.wantlist.value.full), EntryCids(Entries(pb)), Entries(pb));
            Decode(h, pb) ==
            if m0.None? then None
            else
              var m1 := AddOffered(m0.value, FirstVersionCids(h, pb.blocks), pb.blocks);
              if m1.None? then None
              else
                var m2 := AddOffered(m1.value, PrefixedCids(h, pb.payload), Datas(pb.payload));
                if m2.None? then None
                else
                  var m3 := AddNoted(m2.value, PresenceCids(pb.presences), Types(pb.presences));
                  if m3.None? then None else Some(m3.value.(pending := pb.pending))
  {
    var start := NewMessage(pb.wantlist.Some? && pb.wantlist.value.full);
    EntriesAsked(start, Entries(pb));
    var m0 := DecodeEntries(start, Entries(pb));
    if m0.Some? {
      FirstVersionOffered(h, m0.value, pb.blocks);
      var m1 := DecodeV0Blocks(h, m0.value, pb.blocks);
      if m1.Some? {
        PrefixedOffered(h, m1.value, pb.payload);
        var m2 := DecodeBlocks(h, m1.value, pb.payload);
        if m2.Some? {
          PresencesNoted(m2.value, pb.presences);
        }
      }
    }
  }

  /** Decoding succeeds exactly when every part stands for something. */
  lemma DecodesExactly(h: Hasher, pb: PbMessage)
    ensures Decode(h, pb).Some? <==> Decodable(h, pb)
  {
    DecodeSteps(h, pb);
    var start := NewMessage(pb.wantlist.Some? && pb.wantlist.value.full);
    AskedAll(start, EntryCids(Entries(pb)), Entries(pb));
    var m0 := AddAsked(start, EntryCids(Entries(pb)), Entries(pb));
    if m0.Some? {
      OfferedAll(m0.value, FirstVersionCids(h, pb.blocks), pb.blocks);
      var m1 := AddOffered(m0.value, FirstVersionCids(h, pb.blocks), pb.blocks);
      if m1.Some? {
        OfferedAll(m1.value, PrefixedCids(h, pb.payload), Datas(pb.payload));
        var m2 := AddOffered(m1.value, PrefixedCids(h, pb.payload), Datas(pb.payload));
        if m2.Some? {
          NotedAll(m2.value, PresenceCids(pb.presences), Types(pb.presences));
        }
      }
    }
  }

  /** And then the message holds exactly the wants, blocks and presences that the parts stand for. */
  lemma DecodedContents(h: Hasher, pb: PbMessage, c: Cid)
    requires Decodable(h, pb)
    ensures Decode(h, pb).Some?
    ensures var m := Decode(h, pb).value;
            && WantsAre(pb, c, m) && BlocksAre(h, pb, c, m) && PresencesAre(pb, c, m)
            && m.full == (pb.wantlist.Some? && pb.wantlist.value.full) && m.pending == pb.pending
  {
    DecodesExactly(h, pb);
    DecodeSteps(h, pb);
    var start := NewMessage(pb.wantlist.Some? && pb.wantlist.value.full);
    AskedIs(start, EntryCids(Entries(pb)), Entries(pb), c);
    var m0 := AddAsked(start, EntryCids(Entries(pb)), Entries(pb)).value;
    var first, prefixed := FirstVersionCids(h, pb.blocks), PrefixedCids(h, pb.payload);
    OfferedIs(m0, first, pb.blocks, c);
    var m1 := AddOffered(m0, first, pb.blocks).value;
    OfferedIs(m1, prefixed, Datas(pb.payload), c);
    var m2 := AddOffered(m1, prefixed, Datas(pb.payload)).value;
    NotedIs(m2, PresenceCids(pb.presences), Types(pb.presences), c);
  }

  /* ---- Messages built through the API ---- */

  predicate Asks(op: Op, c: Cid) {
    (op.Want? || op.Cancel?) && op.cid == c
  }

  predicate Unasks(op: Op, c: Cid) {
    op.Clear? || op == Remove(c)
  }

  /** The operation takes the block away: a new start, or a verification that it does not pass. */
  predicate Drops(h: Hasher, m: Message, op: Op, c: Cid) {
    op.Clear? || (op.Verify? && c in m.blocks && !Verified(h, m.blocks[c]))
  }

  predicate Brings(op: Op, c: Cid) {
    op.PutBlock? && op.block.cid == c
  }

  /** The presence is noted: the message does not have the block. */
  predicate Notes(m: Message, op: Op, c: Cid) {
    op.PutPresence? && op.cid == c && c !in m.blocks
  }

  /** `verify_blocks` keeps every block that verifies, drops the others and changes nothing else. */
  lemma VerifyKeepsExactly(h: Hasher, m: Message, c: Cid)
    ensures var t := VerifyBlocks(h, m);
            && (c in t.blocks <==> c in m.blocks && Verified(h, m.blocks[c]))
            && (c in t.blocks ==> t.blocks[c] == m.blocks[c])
            && t == m.(blocks := t.blocks)
  {
  }

  /** What one operation changes in the wants. */
  lemma WantsUnder(h: Hasher, m: Message, op: Op, c: Cid)
    ensures var t := Apply(h, m, op);
            && (c in t.wantlist <==> Asks(op, c) || (c in m.wantlist && !Unasks(op, c)))
            && (c in t.wantlist && !Asks(op, c) ==> c in m.wantlist && t.wantlist[c] == m.wantlist[c])
  {
  }

  /** What one operation changes in the blocks. */
  lemma BlocksUnder(h: Hasher, m: Message, op: Op, c: Cid)
    ensures var t := Apply(h, m, op);
            && (c in t.blocks <==> Brings(op, c) || (c in m.blocks && !Drops(h, m, op, c)))
            && (c in t.blocks ==> t.blocks[c] == if Brings(op, c) then op.block else m.blocks[c])
  {
  }

  /** What one operation changes in the presences and the two numbers. */
  lemma PresencesUnder(h: Hasher, m: Message, op: Op, c: Cid)
    ensures var t := Apply(h, m, op);
            && (c in t.presences <==> Notes(m, op, c) || (c in m.presences && !op.Clear? && !Brings(op, c)))
            && (c in t.presences ==> t.presences[c] == if Notes(m, op, c) then op.presence else m.presences[c])
            && t.pending == (if op.SetPending? then op.bytes else if op.Clear? then 0 else m.pending)
            && t.full == (if op.Clear? then op.full else m.full)
  {
  }

  function After(h: Hasher, full: bool, ops: seq<Op>, i: nat): Message
    requires i <= |ops|
  {
    ApplyAll(h, full, ops[..i])
  }

  lemma AfterNext(h: Hasher, full: bool, ops: seq<Op>, i: nat)
    requires i < |ops|
    ensures After(h, full, ops, i + 1) == Apply(h, After(h, full, ops, i), ops[i])
    ensures After(h, full, ops, 0) == NewMessage(full)
  {
    assert ops[..i + 1][..i] == ops[..i];
  }

  predicate AskedSince(ops: seq<Op>, c: Cid, j: nat, i: nat)
    requires j < i <= |ops|
  {
    Asks(ops[j], c) && forall k | j < k < i :: !Unasks(ops[k], c)
  }

  predicate BroughtSince(h: Hasher, full: bool, ops: seq<Op>, c: Cid, j: nat, i: nat)
    requires j < i <= |ops|
  {
    Brings(ops[j], c) && forall k | j < k < i :: !Drops(h, After(h, full, ops, k), ops[k], c)
  }

  /** A CID is wanted exactly when it was asked for or cancelled and not removed or cleared since. */
  lemma WantedExactly(h: Hasher, full: bool, ops: seq<Op>, c: Cid, i: nat)
    requires i <= |ops|
    ensures c in After(h, full, ops, i).wantlist <==> exists j | 0 <= j < i :: AskedSince(ops, c, j, i)
  {
    var state := seq(|ops| + 1, k requires 0 <= k <= |ops| => c in After(h, full, ops, k).wantlist);
    var on := seq(|ops|, k requires 0 <= k < |ops| => Asks(ops[k], c));
    var off := seq(|ops|, k requires 0 <= k < |ops| => Unasks(ops[k], c));
    forall k | 0 <= k < |ops| ensures state[k + 1] <==> on[k] || (state[k] && !off[k]) {
      AfterNext(h, full, ops, k);
      WantsUnder(h, After(h, full, ops, k), ops[k], c);
    }
    assert ops[..0] == [];
    Switched(state, on, off, i);
    forall j | 0 <= j < i ensures OnSince(on, off, j, i) <==> AskedSince(ops, c, j, i) {
      assert forall k | j < k < i :: off[k] == Unasks(ops[k], c);
    }
  }

  /** A block is there exactly when it was added and neither cleared nor found wanting since. */
  lemma BroughtExactly(h: Hasher, full: bool, ops: seq<Op>, c: Cid, i: nat)
    requires i <= |ops|
    ensures c in After(h, full, ops, i).blocks <==> exists j | 0 <= j < i :: BroughtSince(h, full, ops, c, j, i)
  {
    var state := seq(|ops| + 1, k requires 0 <= k <= |ops| => c in After(h, full, ops, k).blocks);
    var on := seq(|ops|, k requires 0 <= k < |ops| => Brings(ops[k], c));
    var off := seq(|ops|, k requires 0 <= k < |ops| => Drops(h, After(h, full, ops, k), ops[k], c));
    forall k | 0 <= k < |ops| ensures state[k + 1] <==> on[k] || (state[k] && !off[k]) {
      AfterNext(h, full, ops, k);
      BlocksUnder(h, After(h, full, ops, k), ops[k], c);
    }
    assert ops[..0] == [];
    Switched(state, on, off, i);
    forall j | 0 <= j < i ensures OnSince(on, off, j, i) <==> BroughtSince(h, full, ops, c, j, i) {
      assert forall k | j < k < i :: off[k] == Drops(h, After(h, full, ops, k), ops[k], c);
    }
  }
}
