/** What holds of every message built through the API, and the round trip through the v1 wire form. */
module MessageCodec {
  import opened Bytes
  import opened Cids
  import opened MessageModel
  import opened Options

  /* ---- Messages built through the API ---- */

  /** Entries and blocks are stored under their own CID, and no CID has both a block and a presence. */
  predicate Wf(m: Message) {
    && (forall c | c in m.wantlist :: m.wantlist[c].cid == c)
    && (forall c | c in m.blocks :: m.blocks[c].cid == c)
    && m.blocks.Keys !! m.presences.Keys
  }

  datatype Op =
    | Want(cid: Cid, priority: I32, want: WantType, sendDontHave: bool)
    | Cancel(cid: Cid)
    | Remove(cid: Cid)
    | PutBlock(block: Block)
    | PutPresence(cid: Cid, presence: Presence)
    | SetPending(bytes: I32)
    | Clear(full: bool)
    | Verify

  function Apply(h: Hasher, m: Message, op: Op): Message {
    match op
    case Want(c, priority, want, sendDontHave) => AddEntry(m, c, priority, false, want, sendDontHave)
    case Cancel(c) => AddEntry(m, c, 0, true, WantBlock, false)
    case Remove(c) => m.(wantlist := m.wantlist - {c})
    case PutBlock(b) => AddBlock(m, b)
    case PutPresence(c, p) => AddPresence(m, c, p)
    case SetPending(n) => m.(pending := n)
    case Clear(full) => NewMessage(full)
    case Verify => VerifyBlocks(h, m)
  }

  function ApplyAll(h: Hasher, full: bool, ops: seq<Op>): Message {
    if ops == [] then NewMessage(full)
    else Apply(h, ApplyAll(h, full, ops[..|ops| - 1]), ops[|ops| - 1])
  }

  lemma AddEntryWf(m: Message, c: Cid, priority: I32, cancel: bool, want: WantType, sendDontHave: bool)
    requires Wf(m)
    ensures Wf(AddEntry(m, c, priority, cancel, want, sendDontHave))
  {
  }

  lemma AddBlockWf(m: Message, b: Block)
    requires Wf(m)
    ensures Wf(AddBlock(m, b))
  {
  }

  lemma ApplyWf(h: Hasher, m: Message, op: Op)
    requires Wf(m)
    ensures Wf(Apply(h, m, op))
  {
    match op
    case Want(c, priority, want, sendDontHave) => AddEntryWf(m, c, priority, false, want, sendDontHave);
    case Cancel(c) => AddEntryWf(m, c, 0, true, WantBlock, false);
    case Remove(c) =>
    case PutBlock(b) => AddBlockWf(m, b);
    case PutPresence(c, p) =>
    case SetPending(n) =>
    case Clear(full) =>
    case Verify =>
  }

  lemma {:induction false} ApiKeepsWf(h: Hasher, full: bool, ops: seq<Op>)
    ensures Wf(ApplyAll(h, full, ops))
  {
    if ops != [] {
      ApiKeepsWf(h, full, ops[..|ops| - 1]);
      ApplyWf(h, ApplyAll(h, full, ops[..|ops| - 1]), ops[|ops| - 1]);
    }
  }

  /* ---- Repeated wants ---- */

  datatype Ask = Ask(priority: I32, cancel: bool, want: WantType, sendDontHave: bool)

  function AskAll(m: Message, c: Cid, asks: seq<Ask>): Message {
    if asks == [] then m
    else
      var a := asks[|asks| - 1];
      AddEntry(AskAll(m, c, asks[..|asks| - 1]), c, a.priority, a.cancel, a.want, a.sendDontHave)
  }

  /** The entry that the asks leave. */
  function Merged(c: Cid, asks: seq<Ask>): Entry
    requires asks != []
  {
    var n := |asks| - 1;
    var a := asks[n];
    if n == 0 then Entry(c, a.priority, a.want, a.cancel, a.sendDontHave)
    else Merge(Merged(c, asks[..n]), a.priority, a.cancel, a.want, a.sendDontHave)
  }

  lemma {:induction false} AskAllIs(m: Message, c: Cid, asks: seq<Ask>)
    requires asks != [] && c !in m.wantlist
    ensures AskAll(m, c, asks) == m.(wantlist := m.wantlist[c := Merged(c, asks)])
  {
    var n := |asks| - 1;
    if n == 0 {
      assert asks[..0] == [];
    } else {
      AskAllIs(m, c, asks[..n]);
    }
  }

  predicate BlockWanted(asks: seq<Ask>, n: nat)
    requires n <= |asks|
  {
    exists i | 0 <= i < n :: asks[i].want.WantBlock?
  }

  /** Whether the ask is of the type wanted so far, so that its priority counts. */
  predicate Counts(asks: seq<Ask>, i: nat)
    requires i < |asks|
  {
    i == 0 || (asks[i].want.WantBlock? <==> BlockWanted(asks, i))
  }

  lemma CountsPrefix(asks: seq<Ask>, n: nat, i: nat)
    requires i < n <= |asks|
    ensures Counts(asks[..n], i) <==> Counts(asks, i)
    ensures BlockWanted(asks[..n], n) <==> BlockWanted(asks, n)
  {
    assert forall j | 0 <= j < n :: asks[..n][j] == asks[j];
  }

  lemma {:induction false} MergedFlags(c: Cid, asks: seq<Ask>)
    requires asks != []
    ensures var e := Merged(c, asks);
            && e.cid == c
            && (e.want.WantBlock? <==> BlockWanted(asks, |asks|))
            && (e.cancel <==> exists i | 0 <= i < |asks| :: asks[i].cancel)
            && (e.sendDontHave <==> exists i | 0 <= i < |asks| :: asks[i].sendDontHave)
  {
    var n := |asks| - 1;
    if n > 0 {
      MergedFlags(c, asks[..n]);
      assert forall j | 0 <= j < n :: asks[..n][j] == asks[j];
    }
  }

  lemma {:induction false} MergedPriority(c: Cid, asks: seq<Ask>) returns (last: nat)
    requires asks != []
    ensures last < |asks| && Merged(c, asks).priority == asks[last].priority
    ensures Counts(asks, last) && forall i | last < i < |asks| :: !Counts(asks, i)
  {
    var n := |asks| - 1;
    if n == 0 {
      last := 0;
    } else {
      var before := MergedPriority(c, asks[..n]);
      MergedFlags(c, asks[..n]);
      forall i | 0 <= i < n
        ensures Counts(asks[..n], i) <==> Counts(asks, i)
        ensures BlockWanted(asks[..n], n) <==> BlockWanted(asks, n)
      {
        CountsPrefix(asks, n, i);
      }
      CountsPrefix(asks, n, 0);
      last := if Counts(asks, n) then n else before;
    }
  }

  /** The merged entry over any sequence of asks: a block is wanted if some ask wanted it, cancel and
      send-dont-have are set if some ask set them, and the priority is that of the last ask that was
      of the type wanted before it. */
  lemma RepeatedWants(m: Message, c: Cid, asks: seq<Ask>) returns (last: nat)
    requires asks != [] && c !in m.wantlist
    ensures c in AskAll(m, c, asks).wantlist
    ensures var e := AskAll(m, c, asks).wantlist[c];
            && e.cid == c
            && (e.want.WantBlock? <==> BlockWanted(asks, |asks|))
            && (e.cancel <==> exists i | 0 <= i < |asks| :: asks[i].cancel)
            && (e.sendDontHave <==> exists i | 0 <= i < |asks| :: asks[i].sendDontHave)
            && last < |asks| && e.priority == asks[last].priority
    ensures Counts(asks, last) && forall i | last < i < |asks| :: !Counts(asks, i)
    ensures AskAll(m, c, asks).(wantlist := m.wantlist) == m
  {
    AskAllIs(m, c, asks);
    MergedFlags(c, asks);
    last := MergedPriority(c, asks);
  }

  /* ---- Restricting a map to a list of keys ---- */

  function Restrict<V>(m: map<Cid, V>, keys: seq<Cid>): map<Cid, V> {
    map c | c in m && c in keys :: m[c]
  }

  lemma RestrictAppend<V>(m: map<Cid, V>, keys: seq<Cid>, c: Cid)
    requires c in m
    ensures Restrict(m, keys + [c]) == Restrict(m, keys)[c := m[c]]
  {
    assert forall d :: d in keys + [c] <==> d in keys || d == c;
  }

  lemma RestrictNone<V>(m: map<Cid, V>)
    ensures Restrict(m, []) == map[]
  {
  }

  lemma RestrictNext<V>(m: map<Cid, V>, keys: seq<Cid>, n: nat)
    requires n < |keys| && Distinct(keys, m)
    ensures Restrict(m, keys[..n + 1]) == Restrict(m, keys[..n])[keys[n] := m[keys[n]]]
    ensures keys[n] !in Restrict(m, keys[..n])
  {
    assert keys[..n + 1] == keys[..n] + [keys[n]];
    RestrictAppend(m, keys[..n], keys[n]);
  }

  lemma RestrictAll<V>(m: map<Cid, V>, keys: seq<Cid>)
    requires Lists(keys, m.Keys)
    ensures Restrict(m, keys) == m
  {
  }

  /** The first keys are all different and in the map. */
  predicate Distinct<V>(keys: seq<Cid>, m: map<Cid, V>) {
    AllIn(keys, m) && forall i, j | 0 <= i < j < |keys| :: keys[i] != keys[j]
  }

  lemma WholeSeq<T>(s: seq<T>)
    ensures s[..|s|] == s
  {
  }

  /* ---- Wantlist ---- */

  function PbEntries(wants: map<Cid, Entry>, keys: seq<Cid>): seq<PbEntry>
    requires AllIn(keys, wants)
  {
    seq(|keys|, i requires 0 <= i < |keys| => PbOfEntry(wants[keys[i]]))
  }

  lemma NewEntry(m: Message, r: CidResult, p: PbEntry, e: Entry)
    requires e.cid !in m.wantlist && r.Ok? && r.cid == e.cid
    requires p == PbEntry(p.block, e.priority, WantNumber(e.want), e.cancel, e.sendDontHave)
    ensures EntryFor(m, r, p) == Some(m.(wantlist := m.wantlist[e.cid := e]))
  {
  }

  /** The encoded entry adds the entry to any message that does not have it. */
  ghost predicate Asks(p: PbEntry, e: Entry) {
    forall m: Message | e.cid !in m.wantlist :: AsksIn(m, p, e)
  }

  predicate AsksIn(m: Message, p: PbEntry, e: Entry) {
    DecodeEntry(m, p) == Some(m.(wantlist := m.wantlist[e.cid := e]))
  }

  lemma EntryAsks(e: Entry)
    ensures Asks(PbOfEntry(e), e)
  {
    CidReadsBack(e.cid);
    forall m: Message | e.cid !in m.wantlist ensures AsksIn(m, PbOfEntry(e), e) {
      NewEntry(m, ReadCid(CidBytes(e.cid)), PbOfEntry(e), e);
    }
  }

  lemma EntriesStep(m: Message, ps: seq<PbEntry>, n: nat, before: Message, e: Entry)
    requires n < |ps| && DecodeEntries(m, ps[..n]) == Some(before)
    requires Asks(ps[n], e) && e.cid !in before.wantlist
    ensures DecodeEntries(m, ps[..n + 1]) == Some(before.(wantlist := before.wantlist[e.cid := e]))
  {
    assert ps[..n + 1][..n] == ps[..n];
    assert AsksIn(before, ps[n], e);
  }

  lemma {:induction false} AllAsk(m: Message, wants: map<Cid, Entry>, keys: seq<Cid>, ps: seq<PbEntry>, n: nat)
    requires Distinct(keys, wants) && m.wantlist == map[] && n <= |ps| == |keys|
    requires forall i | 0 <= i < |keys| :: wants[keys[i]].cid == keys[i] && Asks(ps[i], wants[keys[i]])
    ensures DecodeEntries(m, ps[..n]) == Some(m.(wantlist := Restrict(wants, keys[..n])))
  {
    if n == 0 {
      RestrictNone(wants);
    } else {
      AllAsk(m, wants, keys, ps, n - 1);
      var before := m.(wantlist := Restrict(wants, keys[..n - 1]));
      RestrictNext(wants, keys, n - 1);
      EntriesStep(m, ps, n - 1, before, wants[keys[n - 1]]);
    }
  }

  lemma EntriesDecode(m: Message, wants: map<Cid, Entry>, keys: seq<Cid>)
    requires Distinct(keys, wants) && m.wantlist == map[]
    requires forall c | c in wants :: wants[c].cid == c
    ensures DecodeEntries(m, PbEntries(wants, keys)) == Some(m.(wantlist := Restrict(wants, keys)))
  {
    forall i | 0 <= i < |keys| ensures Asks(PbEntries(wants, keys)[i], wants[keys[i]]) {
      EntryAsks(wants[keys[i]]);
    }
    AllAsk(m, wants, keys, PbEntries(wants, keys), |keys|);
    WholeSeq(keys);
    WholeSeq(PbEntries(wants, keys));
  }

  /* ---- Blocks ---- */

  function PbBlocks(blocks: map<Cid, Block>, keys: seq<Cid>): seq<PbBlock>
    requires AllIn(keys, blocks)
  {
    seq(|keys|, i requires 0 <= i < |keys| => PbOfBlock(blocks[keys[i]]))
  }

  /** The varint prefix and the data rebuild the CID of a block exactly when the block verifies. */
  lemma PrefixRebuildsCid(h: Hasher, b: Block)
    requires b.cid.hash.code in h.known
    ensures ParsePrefix(h, PbOfBlock(b).prefix) == Some(PrefixOf(b.cid))
    ensures ToCid(h, PrefixOf(b.cid), b.data) == Ok(b.cid, 0) <==> Verified(h, b)
  {
    PrefixRoundTrip(h, PrefixOf(b.cid));
  }

  lemma BlockDecodes(h: Hasher, m: Message, b: Block)
    requires Verified(h, b)
    ensures DecodeBlock(h, m, PbOfBlock(b)) == Some(AddBlock(m, b))
  {
    PrefixRebuildsCid(h, b);
  }

  /** The encoded block adds the block to any message. */
  ghost predicate Carries(h: Hasher, p: PbBlock, b: Block) {
    forall m :: CarriesIn(h, m, p, b)
  }

  predicate CarriesIn(h: Hasher, m: Message, p: PbBlock, b: Block) {
    DecodeBlock(h, m, p) == Some(AddBlock(m, b))
  }

  lemma BlockCarries(h: Hasher, b: Block)
    requires Verified(h, b)
    ensures Carries(h, PbOfBlock(b), b)
  {
    forall m ensures CarriesIn(h, m, PbOfBlock(b), b) {
      BlockDecodes(h, m, b);
    }
  }

  lemma BlocksStep(h: Hasher, m: Message, ps: seq<PbBlock>, n: nat, before: Message)
    requires n < |ps| && DecodeBlocks(h, m, ps[..n]) == Some(before)
    ensures DecodeBlocks(h, m, ps[..n + 1]) == DecodeBlock(h, before, ps[n])
  {
    assert ps[..n + 1][..n] == ps[..n];
  }

  lemma {:induction false} AllCarry(h: Hasher, m: Message, blocks: map<Cid, Block>, keys: seq<Cid>,
                                    ps: seq<PbBlock>, n: nat)
    requires Distinct(keys, blocks) && m.blocks == map[] && m.presences == map[] && n <= |ps| == |keys|
    requires forall i | 0 <= i < |keys| :: blocks[keys[i]].cid == keys[i] && Carries(h, ps[i], blocks[keys[i]])
    ensures DecodeBlocks(h, m, ps[..n]) == Some(m.(blocks := Restrict(blocks, keys[..n])))
  {
    if n == 0 {
      RestrictNone(blocks);
    } else {
      AllCarry(h, m, blocks, keys, ps, n - 1);
      var before := m.(blocks := Restrict(blocks, keys[..n - 1]));
      RestrictNext(blocks, keys, n - 1);
      assert CarriesIn(h, before, ps[n - 1], blocks[keys[n - 1]]);
      BlocksStep(h, m, ps, n - 1, before);
      assert before.presences - {keys[n - 1]} == map[];
    }
  }

  lemma BlocksDecode(h: Hasher, m: Message, blocks: map<Cid, Block>, keys: seq<Cid>)
    requires Distinct(keys, blocks) && m.blocks == map[] && m.presences == map[]
    requires forall c | c in blocks :: blocks[c].cid == c && Verified(h, blocks[c])
    ensures DecodeBlocks(h, m, PbBlocks(blocks, keys)) == Some(m.(blocks := Restrict(blocks, keys)))
  {
    forall i | 0 <= i < |keys| ensures Carries(h, PbBlocks(blocks, keys)[i], blocks[keys[i]]) {
      BlockCarries(h, blocks[keys[i]]);
    }
    AllCarry(h, m, blocks, keys, PbBlocks(blocks, keys), |keys|);
    WholeSeq(keys);
    WholeSeq(PbBlocks(blocks, keys));
  }

  /** Whatever is decoded, the blocks of the result verify. */
  lemma {:induction false} DecodedBlocksVerify(h: Hasher, m: Message, bs: seq<PbBlock>)
    requires forall c | c in m.blocks :: Verified(h, m.blocks[c])
    ensures var r := DecodeBlocks(h, m, bs);
            r.Some? ==> forall c | c in r.value.blocks :: Verified(h, r.value.blocks[c])
  {
    if bs != [] {
      DecodedBlocksVerify(h, m, bs[..|bs| - 1]);
    }
  }

  /* ---- Presences ---- */

  function PbPresences(ps: map<Cid, Presence>, keys: seq<Cid>): seq<PbPresence>
    requires AllIn(keys, ps)
  {
    seq(|keys|, i requires 0 <= i < |keys| => PbOfPresence(keys[i], ps[keys[i]]))
  }

  /** The encoded presence is noted in any message that does not have the block. */
  ghost predicate Tells(p: PbPresence, c: Cid, presence: Presence) {
    forall m: Message | c !in m.blocks :: TellsIn(m, p, c, presence)
  }

  predicate TellsIn(m: Message, p: PbPresence, c: Cid, presence: Presence) {
    DecodePresence(m, p) == Some(m.(presences := m.presences[c := presence]))
  }

  lemma PresenceTells(c: Cid, presence: Presence)
    ensures Tells(PbOfPresence(c, presence), c, presence)
  {
    CidReadsBack(c);
  }

  lemma PresencesStep(m: Message, pbs: seq<PbPresence>, n: nat, before: Message)
    requires n < |pbs| && DecodePresences(m, pbs[..n]) == Some(before)
    ensures DecodePresences(m, pbs[..n + 1]) == DecodePresence(before, pbs[n])
  {
    assert pbs[..n + 1][..n] == pbs[..n];
  }

  /** Every encoded presence tells of its key, and the message has none of the blocks. */
  ghost predicate Telling(m: Message, ps: map<Cid, Presence>, keys: seq<Cid>, pbs: seq<PbPresence>) {
    && Distinct(keys, ps) && |pbs| == |keys|
    && forall i | 0 <= i < |keys| :: keys[i] !in m.blocks && Tells(pbs[i], keys[i], ps[keys[i]])
  }

  lemma TellNext(m: Message, ps: map<Cid, Presence>, keys: seq<Cid>, pbs: seq<PbPresence>, n: nat)
    requires Telling(m, ps, keys, pbs) && n < |keys|
    requires DecodePresences(m, pbs[..n]) == Some(m.(presences := Restrict(ps, keys[..n])))
    ensures DecodePresences(m, pbs[..n + 1]) == Some(m.(presences := Restrict(ps, keys[..n + 1])))
  {
    var before := m.(presences := Restrict(ps, keys[..n]));
    PresencesStep(m, pbs, n, before);
    RestrictNext(ps, keys, n);
    assert TellsIn(before, pbs[n], keys[n], ps[keys[n]]);
  }

  lemma {:induction false} AllTell(m: Message, ps: map<Cid, Presence>, keys: seq<Cid>, pbs: seq<PbPresence>, n: nat)
    requires Telling(m, ps, keys, pbs) && m.presences == map[] && n <= |keys|
    ensures DecodePresences(m, pbs[..n]) == Some(m.(presences := Restrict(ps, keys[..n])))
  {
    if n == 0 {
      RestrictNone(ps);
    } else {
      AllTell(m, ps, keys, pbs, n - 1);
      TellNext(m, ps, keys, pbs, n - 1);
    }
  }

  lemma PresencesDecode(m: Message, ps: map<Cid, Presence>, keys: seq<Cid>)
    requires Distinct(keys, ps) && m.presences == map[] && m.blocks.Keys !! ps.Keys
    ensures DecodePresences(m, PbPresences(ps, keys)) == Some(m.(presences := Restrict(ps, keys)))
  {
    forall i | 0 <= i < |keys| ensures Tells(PbPresences(ps, keys)[i], keys[i], ps[keys[i]]) {
      PresenceTells(keys[i], ps[keys[i]]);
    }
    AllTell(m, ps, keys, PbPresences(ps, keys), |keys|);
    WholeSeq(keys);
    WholeSeq(PbPresences(ps, keys));
  }

  lemma {:induction false} PresencesKeepBlocks(m: Message, ps: seq<PbPresence>)
    ensures var r := DecodePresences(m, ps); r.Some? ==> r.value.blocks == m.blocks
  {
    if ps != [] {
      PresencesKeepBlocks(m, ps[..|ps| - 1]);
    }
  }

  lemma {:induction false} EntriesKeepBlocks(m: Message, es: seq<PbEntry>)
    ensures var r := DecodeEntries(m, es); r.Some? ==> r.value.blocks == m.blocks
  {
    if es != [] {
      EntriesKeepBlocks(m, es[..|es| - 1]);
    }
  }

  /* ---- The round trip ---- */

  predicate AllVerified(h: Hasher, m: Message) {
    forall c | c in m.blocks :: Verified(h, m.blocks[c])
  }

  lemma ListsDistinct<V>(keys: seq<Cid>, m: map<Cid, V>)
    requires Lists(keys, m.Keys)
    ensures Distinct(keys, m)
  {
  }

  lemma VerifiedRoundTrip(h: Hasher, m: Message, wants: seq<Cid>, blocks: seq<Cid>, presences: seq<Cid>)
    requires Wf(m) && AllVerified(h, m)
    requires Lists(wants, m.wantlist.Keys) && Lists(blocks, m.blocks.Keys) && Lists(presences, m.presences.Keys)
    ensures AllIn(wants, m.wantlist) && AllIn(blocks, m.blocks) && AllIn(presences, m.presences)
    ensures Decode(h, EncodeV1(m, wants, blocks, presences)) == Some(m)
  {
    ListsDistinct(wants, m.wantlist);
    ListsDistinct(blocks, m.blocks);
    ListsDistinct(presences, m.presences);
    var start := NewMessage(m.full);
    EntriesDecode(start, m.wantlist, wants);
    RestrictAll(m.wantlist, wants);
    var m0 := start.(wantlist := m.wantlist);
    BlocksDecode(h, m0, m.blocks, blocks);
    RestrictAll(m.blocks, blocks);
    var m1 := m0.(blocks := m.blocks);
    PresencesDecode(m1, m.presences, presences);
    RestrictAll(m.presences, presences);
    var pb := EncodeV1(m, wants, blocks, presences);
    assert pb.wantlist.value.entries == PbEntries(m.wantlist, wants);
    assert pb.payload == PbBlocks(m.blocks, blocks);
    assert pb.presences == PbPresences(m.presences, presences);
  }

  /** Blocks of the first protocol version get the CID of their data. */
  lemma {:induction false} V0BlocksVerify(h: Hasher, m: Message, bs: seq<seq<Byte>>)
    requires bs == [] || SHA2_256 in h.known
    requires forall c | c in m.blocks :: Verified(h, m.blocks[c])
    ensures var r := DecodeV0Blocks(h, m, bs);
            r.Some? ==> forall c | c in r.value.blocks :: Verified(h, r.value.blocks[c])
  {
    if bs != [] {
      V0BlocksVerify(h, m, bs[..|bs| - 1]);
    }
  }

  /** Every block of a decoded message verifies; SHA-256 is a known hash. */
  lemma DecodeVerifies(h: Hasher, pb: PbMessage)
    requires pb.blocks == [] || SHA2_256 in h.known
    ensures Decode(h, pb).Some? ==> AllVerified(h, Decode(h, pb).value)
  {
    var start := NewMessage(pb.wantlist.Some? && pb.wantlist.value.full);
    var es := if pb.wantlist.Some? then pb.wantlist.value.entries else [];
    EntriesKeepBlocks(start, es);
    var m0 := DecodeEntries(start, es);
    if m0.Some? {
      V0BlocksVerify(h, m0.value, pb.blocks);
      var m1 := DecodeV0Blocks(h, m0.value, pb.blocks);
      if m1.Some? {
        DecodedBlocksVerify(h, m1.value, pb.payload);
        var m2 := DecodeBlocks(h, m1.value, pb.payload);
        if m2.Some? {
          PresencesKeepBlocks(m2.value, pb.presences);
        }
      }
    }
  }

  /** Every message built through the API survives the v1 wire form, in whatever order its maps are
      walked, if and only if all its blocks verify. Blocks whose hash function is unknown make the
      encoder panic and are excluded. */
  lemma WireRoundTrip(h: Hasher, full: bool, ops: seq<Op>, wants: seq<Cid>, blocks: seq<Cid>, presences: seq<Cid>)
    requires var m := ApplyAll(h, full, ops);
             && Lists(wants, m.wantlist.Keys) && Lists(blocks, m.blocks.Keys) && Lists(presences, m.presences.Keys)
             && forall c | c in m.blocks :: m.blocks[c].cid.hash.code in h.known
    ensures var m := ApplyAll(h, full, ops);
            && AllIn(wants, m.wantlist) && AllIn(blocks, m.blocks) && AllIn(presences, m.presences)
            && (Decode(h, EncodeV1(m, wants, blocks, presences)) == Some(m) <==> AllVerified(h, m))
  {
    var m := ApplyAll(h, full, ops);
    ApiKeepsWf(h, full, ops);
    ListsDistinct(wants, m.wantlist);
    ListsDistinct(blocks, m.blocks);
    ListsDistinct(presences, m.presences);
    DecodeVerifies(h, EncodeV1(m, wants, blocks, presences));
    if AllVerified(h, m) {
      VerifiedRoundTrip(h, m, wants, blocks, presences);
    }
  }

  /** A block whose data does not hash to its CID is not there after the wire. */
  lemma UnverifiedIsLost(h: Hasher)
    requires SHA2_256 in h.known
    ensures var wrong: Digest := if h.digest(SHA2_256, []) == [] then [0] else [];
            var c := MakeCid(V1, DAG_PB, Multihash(SHA2_256, wrong));
            var m := ApplyAll(h, false, [PutBlock(Block(c, []))]);
            && m.wantlist == map[] && m.presences == map[] && m.blocks == map[c := Block(c, [])]
            && Decode(h, EncodeV1(m, [], [c], [])) != Some(m)
  {
    var wrong: Digest := if h.digest(SHA2_256, []) == [] then [0] else [];
    var c := MakeCid(V1, DAG_PB, Multihash(SHA2_256, wrong));
    var ops := [PutBlock(Block(c, []))];
    assert ops[..0] == [] && ApplyAll(h, false, ops[..0]) == NewMessage(false);
    var m := ApplyAll(h, false, ops);
    assert m == Apply(h, NewMessage(false), ops[0]);
    assert m.presences == map[];
    assert !Verified(h, m.blocks[c]);
    WireRoundTrip(h, false, ops, [], [c], []);
  }

  /* ---- Messages from the wire ---- */

  lemma EntryForWf(m: Message, r: CidResult, e: PbEntry)
    requires Wf(m)
    ensures EntryFor(m, r, e).Some? ==> Wf(EntryFor(m, r, e).value)
  {
    if r.Ok? {
      AddEntryWf(m, r.cid, e.priority, e.cancel, WantBlock, e.sendDontHave);
      AddEntryWf(m, r.cid, e.priority, e.cancel, WantHave, e.sendDontHave);
    }
  }

  lemma {:induction false} EntriesWf(m: Message, es: seq<PbEntry>)
    requires Wf(m)
    ensures DecodeEntries(m, es).Some? ==> Wf(DecodeEntries(m, es).value)
  {
    if es != [] {
      EntriesWf(m, es[..|es| - 1]);
      var before, e := DecodeEntries(m, es[..|es| - 1]), es[|es| - 1];
      if before.Some? {
        EntryForWf(before.value, ReadCid(e.block), e);
      }
    }
  }

  lemma {:induction false} V0BlocksWf(h: Hasher, m: Message, bs: seq<seq<Byte>>)
    requires Wf(m)
    ensures DecodeV0Blocks(h, m, bs).Some? ==> Wf(DecodeV0Blocks(h, m, bs).value)
  {
    if bs != [] {
      V0BlocksWf(h, m, bs[..|bs| - 1]);
    }
  }

  lemma {:induction false} BlocksWf(h: Hasher, m: Message, bs: seq<PbBlock>)
    requires Wf(m)
    ensures DecodeBlocks(h, m, bs).Some? ==> Wf(DecodeBlocks(h, m, bs).value)
  {
    if bs != [] {
      BlocksWf(h, m, bs[..|bs| - 1]);
    }
  }

  lemma {:induction false} PresencesWf(m: Message, ps: seq<PbPresence>)
    requires Wf(m)
    ensures DecodePresences(m, ps).Some? ==> Wf(DecodePresences(m, ps).value)
  {
    if ps != [] {
      PresencesWf(m, ps[..|ps| - 1]);
    }
  }

  /** Whatever is decoded is well formed: its keys match and no CID has both a block and a presence. */
  lemma DecodeWf(h: Hasher, pb: PbMessage)
    ensures Decode(h, pb).Some? ==> Wf(Decode(h, pb).value)
  {
    var start := NewMessage(pb.wantlist.Some? && pb.wantlist.value.full);
    var es := if pb.wantlist.Some? then pb.wantlist.value.entries else [];
    EntriesWf(start, es);
    var m0 := DecodeEntries(start, es);
    if m0.Some? {
      V0BlocksWf(h, m0.value, pb.blocks);
      var m1 := DecodeV0Blocks(h, m0.value, pb.blocks);
      if m1.Some? {
        BlocksWf(h, m1.value, pb.payload);
        var m2 := DecodeBlocks(h, m1.value, pb.payload);
        if m2.Some? {
          PresencesWf(m2.value, pb.presences);
        }
      }
    }
  }

  /** A decoded message survives being encoded and decoded again, whatever the order of its maps. */
  lemma DecodedRoundTrip(h: Hasher, pb: PbMessage, wants: seq<Cid>, blocks: seq<Cid>, presences: seq<Cid>)
    requires (pb.blocks == [] || SHA2_256 in h.known) && Decode(h, pb).Some?
    requires var m := Decode(h, pb).value;
             Lists(wants, m.wantlist.Keys) && Lists(blocks, m.blocks.Keys) && Lists(presences, m.presences.Keys)
    ensures var m := Decode(h, pb).value;
            && AllIn(wants, m.wantlist) && AllIn(blocks, m.blocks) && AllIn(presences, m.presences)
            && Decode(h, EncodeV1(m, wants, blocks, presences)) == Some(m)
  {
    DecodeWf(h, pb);
    DecodeVerifies(h, pb);
    VerifiedRoundTrip(h, Decode(h, pb).value, wants, blocks, presences);
  }
}
