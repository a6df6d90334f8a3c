/** The store refines a write-once map from id keys to blobs and links, and `put_many` against
    putting the same blocks one at a time. */
module StoreRefinement {
  import opened Bytes
  import opened Cids
  import opened StoreModel
  import opened StoreRuns
  import opened Options

  /* ---- Whole operations ---- */

  datatype Outcome = Outcome(ok: bool, db: Db, next: nat)

  /** `put_many`; `ok` is false when the ids ran out, and then the final batch is never written. */
  function PutMany(db: Db, next: nat, blocks: seq<Block>): Outcome
    requires next <= U64_MAX
  {
    var p := Loop(db, next, blocks);
    Outcome(p.ok, if p.ok then ApplyRows(p.db, p.rows) else p.db, p.next)
  }

  /** `put` */
  function Put(db: Db, next: nat, b: Block): Outcome
    requires next <= U64_MAX
  {
    PutMany(db, next, [b])
  }

  /** The blocks put one at a time, until one does not fit. */
  function PutEach(db: Db, next: nat, blocks: seq<Block>): (o: Outcome)
    requires next <= U64_MAX
    ensures o.next <= U64_MAX
  {
    if blocks == [] then Outcome(true, db, next)
    else
      var o := PutEach(db, next, blocks[..|blocks| - 1]);
      if o.ok then Put(o.db, o.next, blocks[|blocks| - 1]) else o
  }

  /* ---- The same operations on the visible map ---- */

  function BlockEntry(b: Block): Entry {
    Entry(b.blob, MetasOf(b.links))
  }

  function BlockEntries(blocks: seq<Block>): seq<(Key, Entry)> {
    seq(|blocks|, i requires 0 <= i < |blocks| => (IdKey(blocks[i].cid), BlockEntry(blocks[i])))
  }

  function CidSet(blocks: seq<Block>): set<Cid> {
    set b | b in blocks :: b.cid
  }

  /** The blocks that `put_many` writes: the first of each CID, unless its key is already stored. */
  function Picked(v: map<Key, Entry>, blocks: seq<Block>): seq<Block> {
    if blocks == [] then []
    else
      var before, b := Picked(v, blocks[..|blocks| - 1]), blocks[|blocks| - 1];
      if b.cid in CidSet(before) || IdKey(b.cid) in v then before else before + [b]
  }

  function Batched(v: map<Key, Entry>, blocks: seq<Block>): map<Key, Entry> {
    Overlay(v, BlockEntries(Picked(v, blocks)))
  }

  /** A write-once map: the first block stored under a key stays. */
  function WriteOnce(v: map<Key, Entry>, b: Block): map<Key, Entry> {
    if IdKey(b.cid) in v then v else v[IdKey(b.cid) := BlockEntry(b)]
  }

  function OneByOne(v: map<Key, Entry>, blocks: seq<Block>): map<Key, Entry> {
    if blocks == [] then v
    else WriteOnce(OneByOne(v, blocks[..|blocks| - 1]), blocks[|blocks| - 1])
  }

  /* ---- The loop refines its abstract form ---- */

  /** Queued rows keep their meaning when the metadata grows. */
  lemma RowEntriesStable(db: Db, after: Db, rows: seq<Row>)
    requires Extends(db.meta, after.meta)
    requires forall i | 0 <= i < |rows| :: AllIn(rows[i].children, db.meta)
    ensures forall i | 0 <= i < |rows| :: AllIn(rows[i].children, after.meta)
    ensures RowEntries(after, rows) == RowEntries(db, rows)
  {
    forall i | 0 <= i < |rows|
      ensures AllIn(rows[i].children, after.meta)
      ensures Metas(after.meta, rows[i].children) == Metas(db.meta, rows[i].children)
    {
      MetasStable(db.meta, after.meta, rows[i].children);
    }
  }

  lemma AdvanceRefines(p: Progress, b: Block, picked: seq<Block>)
    requires Good(p.db, p.next, p.rows) && Takes(p, b) && Fits(p, b)
    requires RowEntries(p.db, p.rows) == BlockEntries(picked)
    ensures var q := Advance(p, b);
            Good(q.db, q.next, q.rows) && RowEntries(q.db, q.rows) == BlockEntries(picked + [b])
  {
    AdvanceKeeps(p, b);
    var q, next := Advance(p, b), p.next + 1;
    EnsureKeeps(p.db, next, b.links);
    RowEntriesStable(p.db, q.db, p.rows);
    RowEntriesSplit(q.db, q.rows);
    assert q.rows[..|q.rows| - 1] == p.rows;
    assert BlockEntries(picked + [b]) == BlockEntries(picked) + [(IdKey(b.cid), BlockEntry(b))];
  }

  lemma {:induction false} LoopRefines(db: Db, next: nat, blocks: seq<Block>)
    requires Good(db, next, [])
    ensures var p := Loop(db, next, blocks);
            && Good(p.db, p.next, p.rows) && View(p.db) == View(db)
            && (p.ok ==> p.tracked == CidSet(Picked(View(db), blocks)))
            && (p.ok ==> RowEntries(p.db, p.rows) == BlockEntries(Picked(View(db), blocks)))
  {
    if blocks != [] {
      var n := |blocks| - 1;
      LoopRefines(db, next, blocks[..n]);
      var p, b := Loop(db, next, blocks[..n]), blocks[n];
      AdvanceKeeps(p, b);
      if Takes(p, b) && Fits(p, b) {
        var picked := Picked(View(db), blocks[..n]);
        AdvanceRefines(p, b, picked);
        CidSetAppend(picked, b);
      }
    }
  }

  lemma CidSetAppend(blocks: seq<Block>, b: Block)
    ensures CidSet(blocks + [b]) == CidSet(blocks) + {b.cid}
  {
    assert forall x :: x in blocks + [b] <==> x in blocks || x == b;
    assert b in blocks + [b];
    forall c | c in CidSet(blocks) ensures c in CidSet(blocks + [b]) {
      var x :| x in blocks && x.cid == c;
      assert x in blocks + [b];
    }
  }

  /** `put_many` on the database is `Batched` on the visible map; when the ids run out readers see
      no change. */
  lemma PutManyRefines(db: Db, next: nat, blocks: seq<Block>)
    requires Good(db, next, [])
    ensures var o := PutMany(db, next, blocks);
            && Good(o.db, o.next, [])
            && View(o.db) == if o.ok then Batched(View(db), blocks) else View(db)
  {
    LoopRefines(db, next, blocks);
    var p := Loop(db, next, blocks);
    if p.ok {
      ApplyRowsWf(p.db, p.next, p.rows);
      ApplyRowsView(p.db, p.next, p.rows);
    }
  }

  /** `put` stores the blob and the links when the key is new, and otherwise changes nothing. */
  lemma PutRefines(db: Db, next: nat, b: Block)
    requires Good(db, next, [])
    ensures var o := Put(db, next, b);
            && Good(o.db, o.next, [])
            && View(o.db) == (if o.ok then WriteOnce(View(db), b) else View(db))
            && (o.ok <==> IdKey(b.cid) in View(db) || next + 1 + Missing(db.ids, b.links) <= U64_MAX)
  {
    PutManyRefines(db, next, [b]);
    var v := View(db);
    assert [b][..0] == [];
    assert Loop(db, next, [b]) == Advance(Loop(db, next, []), b);
    assert Picked(v, [b]) == if IdKey(b.cid) in v then [] else [b];
    if IdKey(b.cid) !in v {
      assert BlockEntries([b]) == [] + [(IdKey(b.cid), BlockEntry(b))];
      OverlaySplit(v, [], IdKey(b.cid), BlockEntry(b));
    }
  }

  /** How many of the blocks are put before the ids run out. */
  function PutBefore(db: Db, next: nat, blocks: seq<Block>): (n: nat)
    requires next <= U64_MAX
    ensures n <= |blocks|
  {
    if PutEach(db, next, blocks).ok then |blocks| else PutBefore(db, next, blocks[..|blocks| - 1])
  }

  lemma {:induction false} PutEachStores(db: Db, next: nat, blocks: seq<Block>)
    requires Good(db, next, [])
    ensures var o := PutEach(db, next, blocks);
            Good(o.db, o.next, []) && (o.ok ==> View(o.db) == OneByOne(View(db), blocks))
  {
    if blocks != [] {
      var n := |blocks| - 1;
      PutEachStores(db, next, blocks[..n]);
      var o := PutEach(db, next, blocks[..n]);
      PutRefines(o.db, o.next, blocks[n]);
    }
  }

  lemma {:induction false} PutEachStops(db: Db, next: nat, blocks: seq<Block>)
    requires Good(db, next, []) && !PutEach(db, next, blocks).ok
    ensures var n := PutBefore(db, next, blocks);
            && n < |blocks|
            && var o, before := PutEach(db, next, blocks), PutEach(db, next, blocks[..n]);
               before.ok && Wf(o.db) && Wf(before.db) && View(o.db) == View(before.db)
    decreases |blocks|
  {
    var last := |blocks| - 1;
    var before := PutEach(db, next, blocks[..last]);
    PutEachStores(db, next, blocks[..last]);
    if before.ok {
      PutRefines(before.db, before.next, blocks[last]);
    } else {
      PutEachStops(db, next, blocks[..last]);
      assert blocks[..last][..PutBefore(db, next, blocks)] == blocks[..PutBefore(db, next, blocks)];
    }
  }

  /** Puts one at a time are write-once inserts in order, up to the first block that does not fit. */
  lemma PutEachRefines(db: Db, next: nat, blocks: seq<Block>)
    requires Good(db, next, [])
    ensures var o, n := PutEach(db, next, blocks), PutBefore(db, next, blocks);
            && Good(o.db, o.next, []) && (o.ok <==> n == |blocks|)
            && View(o.db) == OneByOne(View(db), blocks[..n])
  {
    var n := PutBefore(db, next, blocks);
    PutEachStores(db, next, blocks);
    if PutEach(db, next, blocks).ok {
      assert blocks[..n] == blocks;
    } else {
      PutEachStops(db, next, blocks);
      PutEachStores(db, next, blocks[..n]);
    }
  }

  /* ---- How many ids are enough ---- */

  /** One id for each block and one for each of its links. */
  function Budget(blocks: seq<Block>): nat {
    if blocks == [] then 0 else Budget(blocks[..|blocks| - 1]) + 1 + |blocks[|blocks| - 1].links|
  }

  lemma {:induction false} LoopFits(db: Db, next: nat, blocks: seq<Block>)
    requires next + Budget(blocks) <= U64_MAX
    ensures var p := Loop(db, next, blocks); p.ok && p.next <= next + Budget(blocks)
  {
    if blocks != [] {
      LoopFits(db, next, blocks[..|blocks| - 1]);
    }
  }

  lemma {:induction false} EachFits(db: Db, next: nat, blocks: seq<Block>)
    requires next + Budget(blocks) <= U64_MAX
    ensures var o := PutEach(db, next, blocks); o.ok && o.next <= next + Budget(blocks)
  {
    if blocks != [] {
      var n := |blocks| - 1;
      EachFits(db, next, blocks[..n]);
      var o, b := PutEach(db, next, blocks[..n]), blocks[n];
      assert [b][..0] == [];
      assert Budget([b]) == 1 + |b.links|;
      LoopFits(o.db, o.next, [b]);
    }
  }

  /* ---- put_many against one put per block ---- */

  /** The first block of the list with the key. */
  function FirstOf(blocks: seq<Block>, k: Key): Option<Block> {
    if blocks == [] then None
    else
      var first, b := FirstOf(blocks[..|blocks| - 1], k), blocks[|blocks| - 1];
      if first.None? && IdKey(b.cid) == k then Some(b) else first
  }

  /** Among the blocks that introduce a new CID, the last one with the key. */
  function LastNewOf(blocks: seq<Block>, k: Key): Option<Block> {
    if blocks == [] then None
    else
      var before, b := blocks[..|blocks| - 1], blocks[|blocks| - 1];
      if IdKey(b.cid) == k && b.cid !in CidSet(before) then Some(b) else LastNewOf(before, k)
  }

  lemma {:induction false} OneByOneAt(v: map<Key, Entry>, blocks: seq<Block>, k: Key)
    ensures k in OneByOne(v, blocks) <==> k in v || FirstOf(blocks, k).Some?
    ensures k in v ==> OneByOne(v, blocks)[k] == v[k]
    ensures k !in v && FirstOf(blocks, k).Some? ==> OneByOne(v, blocks)[k] == BlockEntry(FirstOf(blocks, k).value)
  {
    if blocks != [] {
      OneByOneAt(v, blocks[..|blocks| - 1], k);
    }
  }

  /** A CID is picked exactly when it occurs and its key is not stored. */
  lemma {:induction false} PickedCids(v: map<Key, Entry>, blocks: seq<Block>)
    ensures forall c :: c in CidSet(Picked(v, blocks)) <==> c in CidSet(blocks) && IdKey(c) !in v
  {
    if blocks != [] {
      var before, b := blocks[..|blocks| - 1], blocks[|blocks| - 1];
      PickedCids(v, before);
      assert blocks == before + [b];
      CidSetAppend(before, b);
      CidSetAppend(Picked(v, before), b);
    }
  }

  lemma BatchedStep(v: map<Key, Entry>, before: seq<Block>, b: Block)
    ensures Batched(v, before + [b]) ==
            if b.cid in CidSet(before) || IdKey(b.cid) in v then Batched(v, before)
            else Batched(v, before)[IdKey(b.cid) := BlockEntry(b)]
  {
    assert (before + [b])[..|before|] == before;
    PickedCids(v, before);
    var picked := Picked(v, before);
    assert BlockEntries(picked + [b]) == BlockEntries(picked) + [(IdKey(b.cid), BlockEntry(b))];
    OverlaySplit(v, BlockEntries(picked), IdKey(b.cid), BlockEntry(b));
  }

  /** Under the key, `x` holds what `v` holds or else the block. */
  predicate HoldsOr(x: map<Key, Entry>, v: map<Key, Entry>, k: Key, b: Option<Block>) {
    && (k in x <==> k in v || b.Some?)
    && (k in v ==> k in x && x[k] == v[k])
    && (k !in v && b.Some? ==> k in x && x[k] == BlockEntry(b.value))
  }

  lemma HoldsNext(x: map<Key, Entry>, v: map<Key, Entry>, k: Key, last: Option<Block>, b: Block)
    requires HoldsOr(x, v, k, last) && IdKey(b.cid) !in v
    ensures HoldsOr(x[IdKey(b.cid) := BlockEntry(b)], v, k, if IdKey(b.cid) == k then Some(b) else last)
  {
  }

  lemma {:induction false} BatchedAt(v: map<Key, Entry>, blocks: seq<Block>, k: Key)
    ensures HoldsOr(Batched(v, blocks), v, k, LastNewOf(blocks, k))
  {
    if blocks != [] {
      var before, b := blocks[..|blocks| - 1], blocks[|blocks| - 1];
      assert blocks == before + [b];
      BatchedAt(v, before, k);
      BatchedStep(v, before, b);
      if b.cid !in CidSet(before) && IdKey(b.cid) !in v {
        HoldsNext(Batched(v, before), v, k, LastNewOf(before, k), b);
      }
    }
  }

  predicate KeyOccurs(blocks: seq<Block>, k: Key) {
    exists c | c in CidSet(blocks) :: IdKey(c) == k
  }

  lemma KeyOccursAppend(blocks: seq<Block>, b: Block, k: Key)
    ensures KeyOccurs(blocks + [b], k) <==> KeyOccurs(blocks, k) || IdKey(b.cid) == k
  {
    CidSetAppend(blocks, b);
    if KeyOccurs(blocks, k) {
      var c :| c in CidSet(blocks) && IdKey(c) == k;
      assert c in CidSet(blocks + [b]);
    }
    if IdKey(b.cid) == k {
      assert b.cid in CidSet(blocks + [b]);
    }
  }

  lemma {:induction false} FirstIs(blocks: seq<Block>, k: Key)
    ensures FirstOf(blocks, k).Some? <==> KeyOccurs(blocks, k)
    ensures FirstOf(blocks, k).Some? ==>
              FirstOf(blocks, k).value in blocks && IdKey(FirstOf(blocks, k).value.cid) == k
  {
    if blocks != [] {
      var before, b := blocks[..|blocks| - 1], blocks[|blocks| - 1];
      FirstIs(before, k);
      assert blocks == before + [b];
      KeyOccursAppend(before, b, k);
    }
  }

  lemma {:induction false} LastNewIs(blocks: seq<Block>, k: Key)
    ensures LastNewOf(blocks, k).Some? <==> KeyOccurs(blocks, k)
    ensures LastNewOf(blocks, k).Some? ==>
              LastNewOf(blocks, k).value in blocks && IdKey(LastNewOf(blocks, k).value.cid) == k
  {
    if blocks != [] {
      var before, b := blocks[..|blocks| - 1], blocks[|blocks| - 1];
      LastNewIs(before, k);
      assert blocks == before + [b];
      KeyOccursAppend(before, b, k);
      assert b.cid in CidSet(before) && IdKey(b.cid) == k ==> KeyOccurs(before, k);
    }
  }

  lemma FirstAndLastTogether(blocks: seq<Block>, k: Key)
    ensures FirstOf(blocks, k).Some? <==> LastNewOf(blocks, k).Some?
    ensures FirstOf(blocks, k).Some? <==> KeyOccurs(blocks, k)
    ensures FirstOf(blocks, k).Some? ==>
              FirstOf(blocks, k).value in blocks && IdKey(FirstOf(blocks, k).value.cid) == k
    ensures LastNewOf(blocks, k).Some? ==>
              LastNewOf(blocks, k).value in blocks && IdKey(LastNewOf(blocks, k).value.cid) == k
  {
    FirstIs(blocks, k);
    LastNewIs(blocks, k);
  }

  /** For every new key, the first block with it carries what the last new CID with it carries. */
  ghost predicate Agreeing(v: map<Key, Entry>, blocks: seq<Block>) {
    forall k | k !in v && FirstOf(blocks, k).Some? && LastNewOf(blocks, k).Some? ::
      BlockEntry(FirstOf(blocks, k).value) == BlockEntry(LastNewOf(blocks, k).value)
  }

  lemma BatchedIsOneByOne(v: map<Key, Entry>, blocks: seq<Block>)
    ensures Batched(v, blocks) == OneByOne(v, blocks) <==> Agreeing(v, blocks)
  {
    var x, y := Batched(v, blocks), OneByOne(v, blocks);
    forall k
      ensures k in x <==> k in y
      ensures k in v ==> k in x && k in y && x[k] == y[k] == v[k]
      ensures k in x && k !in v ==>
                && FirstOf(blocks, k).Some? && LastNewOf(blocks, k).Some?
                && x[k] == BlockEntry(LastNewOf(blocks, k).value)
                && y[k] == BlockEntry(FirstOf(blocks, k).value)
    {
      BatchedAt(v, blocks, k);
      OneByOneAt(v, blocks, k);
      FirstAndLastTogether(blocks, k);
    }
    if Agreeing(v, blocks) {
      assert forall k | k in x :: x[k] == y[k];
      assert x.Keys == y.Keys;
    }
    if x == y {
      forall k | k !in v && FirstOf(blocks, k).Some? && LastNewOf(blocks, k).Some?
        ensures BlockEntry(FirstOf(blocks, k).value) == BlockEntry(LastNewOf(blocks, k).value)
      {
        BatchedAt(v, blocks, k);
        assert k in x;
      }
    }
  }

  /** Different CIDs of the list have different id keys. */
  predicate KeysSeparate(blocks: seq<Block>) {
    forall i, j | 0 <= i < |blocks| && 0 <= j < |blocks| && IdKey(blocks[i].cid) == IdKey(blocks[j].cid) ::
      blocks[i].cid == blocks[j].cid
  }

  lemma {:induction false} SeparateKeysAgree(blocks: seq<Block>, k: Key)
    requires KeysSeparate(blocks)
    ensures FirstOf(blocks, k) == LastNewOf(blocks, k)
  {
    if blocks != [] {
      var before, b := blocks[..|blocks| - 1], blocks[|blocks| - 1];
      SeparateKeysAgree(before, k);
      FirstAndLastTogether(before, k);
      if IdKey(b.cid) == k && FirstOf(before, k).Some? {
        var f := FirstOf(before, k).value;
        var i :| 0 <= i < |before| && before[i] == f;
        assert blocks[i].cid == b.cid;
        assert f.cid in CidSet(before);
      }
    }
  }

  /** When neither form runs out of ids, and neither does if the counter leaves room for every block and
      every link, they leave the same visible map exactly when the list agrees with itself on every new
      key. Lists whose CIDs have different keys always do. */
  lemma PutManyIsPutEach(db: Db, next: nat, blocks: seq<Block>)
    requires Good(db, next, [])
    ensures var many, each := PutMany(db, next, blocks), PutEach(db, next, blocks);
            && Wf(many.db) && Wf(each.db)
            && (many.ok && each.ok ==> (View(many.db) == View(each.db) <==> Agreeing(View(db), blocks)))
            && (next + Budget(blocks) <= U64_MAX ==> many.ok && each.ok)
            && (!many.ok ==> View(many.db) == View(db))
    ensures KeysSeparate(blocks) ==> Agreeing(View(db), blocks)
  {
    PutManyRefines(db, next, blocks);
    PutEachStores(db, next, blocks);
    BatchedIsOneByOne(View(db), blocks);
    if next + Budget(blocks) <= U64_MAX {
      LoopFits(db, next, blocks);
      EachFits(db, next, blocks);
    }
    if KeysSeparate(blocks) {
      forall k { SeparateKeysAgree(blocks, k); }
    }
  }

  function Zeros(n: nat): (s: seq<Byte>)
    ensures |s| == n
  {
    if n == 0 then [] else [0] + Zeros(n - 1)
  }

  function ZeroHash(): Hash {
    Multihash(SHA2_256, Zeros(SHA2_256_SIZE))
  }

  /** One block under its two CID versions, with different contents. */
  function TwoVersions(blob0: Blob, blob1: Blob): seq<Block> {
    [Block(MakeCid(V0, DAG_PB, ZeroHash()), blob0, []), Block(MakeCid(V1, DAG_PB, ZeroHash()), blob1, [])]
  }

  lemma TwoVersionsOf(blob0: Blob, blob1: Blob)
    ensures var blocks, k := TwoVersions(blob0, blob1), IdKey(MakeCid(V0, DAG_PB, ZeroHash()));
            && FirstOf(blocks, k) == Some(blocks[0]) && LastNewOf(blocks, k) == Some(blocks[1])
            && Budget(blocks) == 2
  {
    var blocks, k := TwoVersions(blob0, blob1), IdKey(MakeCid(V0, DAG_PB, ZeroHash()));
    assert IdKey(MakeCid(V1, DAG_PB, ZeroHash())) == k;
    assert blocks[..1] == [blocks[0]] && blocks[..1][..0] == [];
    assert FirstOf(blocks[..1], k) == Some(blocks[0]);
    assert Budget(blocks[..1]) == 1;
  }

  /** Under a new key `put_many` stores the last block that brings a new CID for it. */
  lemma ManyKeepsLast(db: Db, next: nat, blocks: seq<Block>, c: Cid)
    requires Good(db, next, []) && PutMany(db, next, blocks).ok
    requires IdKey(c) !in View(db) && LastNewOf(blocks, IdKey(c)).Some?
    ensures GetBlob(PutMany(db, next, blocks).db, c) == Some(LastNewOf(blocks, IdKey(c)).value.blob)
  {
    PutManyRefines(db, next, blocks);
    BatchedAt(View(db), blocks, IdKey(c));
    ReadsAnswerView(PutMany(db, next, blocks).db, c);
  }

  /** Under a new key separate puts store the first block. */
  lemma EachKeepsFirst(db: Db, next: nat, blocks: seq<Block>, c: Cid)
    requires Good(db, next, []) && PutEach(db, next, blocks).ok
    requires IdKey(c) !in View(db) && FirstOf(blocks, IdKey(c)).Some?
    ensures GetBlob(PutEach(db, next, blocks).db, c) == Some(FirstOf(blocks, IdKey(c)).value.blob)
  {
    PutEachStores(db, next, blocks);
    OneByOneAt(View(db), blocks, IdKey(c));
    ReadsAnswerView(PutEach(db, next, blocks).db, c);
  }

  /** On a new store `put_many` of that list keeps the last content, and one put per block the first. */
  lemma TwoVersionsDiffer(blob0: Blob, blob1: Blob, c: Cid)
    requires IdKey(c) == IdKey(MakeCid(V0, DAG_PB, ZeroHash()))
    ensures var many := PutMany(EMPTY_DB, 1, TwoVersions(blob0, blob1));
            many.ok && GetBlob(many.db, c) == Some(blob1)
    ensures var each := PutEach(EMPTY_DB, 1, TwoVersions(blob0, blob1));
            each.ok && GetBlob(each.db, c) == Some(blob0)
  {
    CreatedIsGood();
    TwoVersionsOf(blob0, blob1);
    LoopFits(EMPTY_DB, 1, TwoVersions(blob0, blob1));
    EachFits(EMPTY_DB, 1, TwoVersions(blob0, blob1));
    ManyKeepsLast(EMPTY_DB, 1, TwoVersions(blob0, blob1), c);
    EachKeepsFirst(EMPTY_DB, 1, TwoVersions(blob0, blob1), c);
  }

  /* ---- What callers read ---- */

  /** A CID list as it is read back: version 1, same codecs and multihashes, same order. */
  function Normalised(links: seq<Meta>): seq<Cid> {
    seq(|links|, i requires 0 <= i < |links| => MakeCid(V1, links[i].codec, links[i].hash))
  }

  lemma {:induction false} ReadChildrenIs(db: Db, children: seq<U64>)
    requires AllIn(children, db.meta)
    ensures ReadChildren(db, children) == Links(Normalised(Metas(db.meta, children)))
  {
    if children != [] {
      var n := |children| - 1;
      ReadChildrenIs(db, children[..n]);
      var m := Metas(db.meta, children);
      assert Metas(db.meta, children[..n]) == m[..n];
      assert Normalised(m) == Normalised(m[..n]) + [CidOf(m[n])];
    }
  }

  /** Children without a metadata row: the first one is the error. */
  lemma {:induction false} FirstInvalidLink(db: Db, children: seq<U64>, i: nat)
    requires i < |children| && children[i] !in db.meta && AllIn(children[..i], db.meta)
    ensures ReadChildren(db, children) == InvalidLink(children[i])
  {
    var n := |children| - 1;
    if i < n {
      assert children[..n][..i] == children[..i];
      FirstInvalidLink(db, children[..n], i);
    } else {
      ReadChildrenIs(db, children[..n]);
    }
  }

  /** The reads answer from the visible map, and `get_links` never meets an invalid link. */
  lemma ReadsAnswerView(db: Db, c: Cid)
    requires Wf(db)
    ensures HasKey(db, IdKey(c)) <==> IdKey(c) in View(db)
    ensures GetBlob(db, c) == if IdKey(c) in View(db) then Some(View(db)[IdKey(c)].blob) else None
    ensures GetLinks(db, c) ==
            if IdKey(c) in View(db) then Links(Normalised(View(db)[IdKey(c)].links)) else NoLinks
  {
    var k := IdKey(c);
    if HasKey(db, k) {
      ReadChildrenIs(db, db.graph[db.ids[k]]);
    }
  }

  /** What a store answers after the block went in, if nothing was stored under its key before. */
  function Expected(v: map<Key, Entry>, b: Block): Entry {
    if IdKey(b.cid) in v then v[IdKey(b.cid)] else BlockEntry(b)
  }

  /** Write-once for callers: after a completed `put`, in every state of every later run (puts,
      batches, failures, stops, reopening), every CID with the block's key is answered with the
      first stored blob and its links. */
  lemma PutIsForever(db: Db, next: nat, b: Block, ss: seq<State>, ls: seq<Label>, i: nat, c: Cid)
    requires Good(db, next, []) && Put(db, next, b).ok
    requires Run(ss, ls) && i < |ss|
    requires ss[0] == State(Put(db, next, b).db, Put(db, next, b).next, Idle)
    requires IdKey(c) == IdKey(b.cid)
    ensures HasKey(ss[i].db, IdKey(c))
    ensures GetBlob(ss[i].db, c) == Some(Expected(View(db), b).blob)
    ensures GetLinks(ss[i].db, c) == Links(Normalised(Expected(View(db), b).links))
  {
    PutRefines(db, next, b);
    RunKeeps(ss, ls, 0, i);
    ReadsAnswerView(ss[i].db, c);
    assert IdKey(c) in View(ss[0].db);
  }

  /** Whatever a created store once answers for a stored CID, it answers in every later state. */
  lemma AnswersNeverChange(ss: seq<State>, ls: seq<Label>, i: nat, j: nat, c: Cid)
    requires Run(ss, ls) && ss[0] == CREATED && i <= j < |ss|
    requires HasKey(ss[i].db, IdKey(c))
    ensures HasKey(ss[j].db, IdKey(c))
    ensures GetBlob(ss[j].db, c) == GetBlob(ss[i].db, c)
    ensures GetLinks(ss[j].db, c) == GetLinks(ss[i].db, c)
  {
    CreatedIsGood();
    RunKeeps(ss, ls, i, j);
    ReadsAnswerView(ss[i].db, c);
    ReadsAnswerView(ss[j].db, c);
  }

  /* ---- The operations are runs of the state machine ---- */

  /** The state machine between `Begin` and the end of an operation. */
  function Midway(db: Db, next: nat, blocks: seq<Block>, i: nat): State
    requires next <= U64_MAX && i <= |blocks|
  {
    var p := Loop(db, next, blocks[..i]);
    State(p.db, p.next, Writing(blocks[i..], p.tracked, p.rows))
  }

  lemma {:induction false} LoopOkPrefix(db: Db, next: nat, blocks: seq<Block>, i: nat)
    requires next <= U64_MAX && i <= |blocks| && Loop(db, next, blocks).ok
    ensures Loop(db, next, blocks[..i]).ok
    decreases |blocks|
  {
    if i < |blocks| {
      LoopOkPrefix(db, next, blocks[..|blocks| - 1], i);
      assert blocks[..|blocks| - 1][..i] == blocks[..i];
    } else {
      assert blocks[..i] == blocks;
    }
  }

  lemma TurnIsStep(db: Db, next: nat, blocks: seq<Block>, i: nat)
    requires next <= U64_MAX && i < |blocks| && Loop(db, next, blocks).ok
    ensures Step(Midway(db, next, blocks, i), Turn, Midway(db, next, blocks, i + 1))
  {
    LoopOkPrefix(db, next, blocks, i);
    LoopOkPrefix(db, next, blocks, i + 1);
    assert blocks[..i + 1][..i] == blocks[..i];
    assert blocks[i..][1..] == blocks[i + 1..];
    var p := Loop(db, next, blocks[..i]);
    assert p == Progress(true, p.db, p.next, p.tracked, p.rows);
  }

  /** A completed operation is the run `Begin`, one `Turn` per block, `Commit`; so everything proved
      of runs holds with a stop between any two of its batches. */
  lemma PutManyIsRun(db: Db, next: nat, blocks: seq<Block>) returns (ss: seq<State>, ls: seq<Label>)
    requires next <= U64_MAX && PutMany(db, next, blocks).ok
    ensures Run(ss, ls)
    ensures ls == [Begin(blocks)] + seq(|blocks|, _ => Turn) + [Commit]
    ensures ss[0] == State(db, next, Idle)
    ensures ss[|ls|] == State(PutMany(db, next, blocks).db, PutMany(db, next, blocks).next, Idle)
  {
    var n := |blocks|;
    var o := PutMany(db, next, blocks);
    var first, last := State(db, next, Idle), State(o.db, o.next, Idle);
    ss := [first] + seq(n + 1, i requires 0 <= i < n + 1 => Midway(db, next, blocks, i)) + [last];
    ls := [Begin(blocks)] + seq(|blocks|, _ => Turn) + [Commit];
    assert blocks[..0] == [] && blocks[..n] == blocks;
    assert Step(first, Begin(blocks), Midway(db, next, blocks, 0));
    assert Step(Midway(db, next, blocks, n), Commit, last);
    forall i | 0 <= i < |ls| ensures Step(ss[i], ls[i], ss[i + 1]) {
      if 0 < i <= n {
        TurnIsStep(db, next, blocks, i - 1);
      }
    }
  }

  /* ---- consistency_check ---- */

  /** Each metadata row is the row of its key's id. */
  predicate MutuallyInverse(db: Db) {
    IdsNamed(db) && forall id | id in db.meta :: KeyOf(db.meta[id]) in db.ids && db.ids[KeyOf(db.meta[id])] == id
  }

  /** The metadata rows that no id entry points at. */
  function Stray(db: Db): set<U64> {
    db.meta.Keys - db.ids.Values
  }

  lemma {:induction false} InjectiveCount(ids: map<Key, U64>)
    requires forall k, m | k in ids && m in ids && ids[k] == ids[m] :: k == m
    ensures |ids.Values| == |ids|
  {
    if ids != map[] {
      var k :| k in ids;
      var rest := ids - {k};
      InjectiveCount(rest);
      assert ids.Values == rest.Values + {ids[k]} by {
        forall x | x in ids.Values ensures x in rest.Values + {ids[k]} {
          var m :| m in ids && ids[m] == x;
          assert m == k || m in rest;
        }
      }
      assert ids.Keys == rest.Keys + {k};
    }
  }

  /** Comparing the two row counts is exact: the difference is the number of stray rows, and it is
      zero if and only if the two families are mutually inverse. */
  lemma ConsistencyCheckIsExact(db: Db)
    requires Wf(db)
    ensures |db.meta| - |db.ids| == |Stray(db)|
    ensures |db.meta| == |db.ids| <==> MutuallyInverse(db)
  {
    StrayCount(db.ids, db.meta);
    NoStrays(db);
  }

  lemma StrayCount(ids: map<Key, U64>, meta: map<U64, Meta>)
    requires forall k | k in ids :: ids[k] in meta && KeyOf(meta[ids[k]]) == k
    ensures |meta| - |ids| == |meta.Keys - ids.Values|
  {
    InjectiveCount(ids);
    assert ids.Values <= meta.Keys;
    SplitCount(meta.Keys, ids.Values);
    assert |meta| == |meta.Keys|;
  }

  lemma SplitCount<T>(all: set<T>, part: set<T>)
    requires part <= all
    ensures |all| == |part| + |all - part|
  {
    assert all == part + (all - part);
  }

  lemma NoStrays(db: Db)
    requires IdsNamed(db)
    ensures Stray(db) == {} <==> MutuallyInverse(db)
  {
    if Stray(db) == {} {
      forall id | id in db.meta
        ensures KeyOf(db.meta[id]) in db.ids && db.ids[KeyOf(db.meta[id])] == id
      {
        assert id !in Stray(db);
      }
    }
  }

  /** Links without an id whose key already occurred earlier in the list. */
  function Repeats(ids: map<Key, U64>, links: seq<Cid>): nat {
    if links == [] then 0
    else
      var n := |links| - 1;
      Repeats(ids, links[..n])
      + (if IdKey(links[n]) !in ids && IdKey(links[n]) in KeySet(links[..n]) then 1 else 0)
  }

  /** The id keys of the links. */
  function KeySet(links: seq<Cid>): set<Key> {
    if links == [] then {} else KeySet(links[..|links| - 1]) + {IdKey(links[|links| - 1])}
  }

  lemma {:induction false} KeySetIs(links: seq<Cid>, k: Key)
    ensures k in KeySet(links) <==> exists i | 0 <= i < |links| :: IdKey(links[i]) == k
  {
    if links != [] {
      KeySetIs(links[..|links| - 1], k);
    }
  }

  lemma InsertCount<K, V>(m: map<K, V>, k: K, v: V)
    ensures m[k := v].Keys == m.Keys + {k}
    ensures |m[k := v]| == |m| + (if k in m then 0 else 1)
  {
    assert m[k := v].Keys == m.Keys + {k};
    assert |m[k := v]| == |m[k := v].Keys| && |m| == |m.Keys|;
  }

  lemma {:induction false} EnsureKeySet(db: Db, next: nat, links: seq<Cid>)
    requires next + Missing(db.ids, links) <= U64_MAX
    ensures EnsureDb(db, next, links).ids.Keys == db.ids.Keys + KeySet(links)
  {
    if links != [] {
      var n, c := |links| - 1, links[|links| - 1];
      EnsureKeySet(db, next, links[..n]);
    }
  }

  lemma {:induction false} EnsureCounts(db: Db, next: nat, links: seq<Cid>)
    requires IdsNamed(db) && 0 < next && IdsBelow(db, next)
    requires next + Missing(db.ids, links) <= U64_MAX
    ensures var after := EnsureDb(db, next, links);
            |after.meta| - |after.ids| == |db.meta| - |db.ids| + Repeats(db.ids, links)
  {
    if links != [] {
      var n, c := |links| - 1, links[|links| - 1];
      EnsureCounts(db, next, links[..n]);
      if IdKey(c) !in db.ids {
        EnsureKeeps(db, next, links[..n]);
        EnsureKeySet(db, next, links[..n]);
        var before, id := EnsureDb(db, next, links[..n]), LastLinkId(db.ids, next, links);
        InsertCount(before.meta, id, MetaOf(c));
        InsertCount(before.ids, IdKey(c), id);
      }
    }
  }

  /** Exactly how many stray rows a written `put` leaves: one for each repeated new link, and one
      more if the CID itself had an id already or is among its own links. So the check stays silent
      after a `put` on a consistent store if and only if none of these happens. */
  lemma StrayRowsAfterPut(db: Db, next: nat, b: Block)
    requires Good(db, next, [])
    requires Put(db, next, b).ok && !HasKey(db, IdKey(b.cid))
    ensures var after := Put(db, next, b).db;
            |after.meta| - |after.ids| ==
            |db.meta| - |db.ids| + Repeats(db.ids, b.links)
            + (if IdKey(b.cid) in db.ids || IdKey(b.cid) in KeySet(b.links) then 1 else 0)
  {
    assert [b][..0] == [];
    assert Loop(db, next, [b]) == Advance(Loop(db, next, []), b);
    EnsureCounts(db, next + 1, b.links);
    EnsureKeySet(db, next + 1, b.links);
    EnsureKeeps(db, next + 1, b.links);
    var mid := EnsureDb(db, next + 1, b.links);
    var row := Row(b.cid, next, b.blob, LinkIds(db.ids, next + 1, b.links));
    assert ApplyRows(mid, [row]) == ApplyRow(mid, row) by { assert [row][..0] == []; }
    InsertCount(mid.meta, row.id, MetaOf(b.cid));
    InsertCount(mid.ids, IdKey(b.cid), row.id);
  }
}
