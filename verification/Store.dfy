/** The content store with its column families and id counter as fields that the operations update,
    each operation proved against its value-level form. */
module ContentStore {
  import opened Bytes
  import opened Cids
  import opened StoreModel
  import opened StoreRuns
  import opened StoreRefinement
  import opened StoreScan
  import opened Options

  lemma {:induction false} MissingGrows(ids: map<Key, U64>, links: seq<Cid>, i: nat)
    requires i <= |links|
    ensures Missing(ids, links[..i]) <= Missing(ids, links)
    decreases |links|
  {
    if i < |links| {
      MissingGrows(ids, links[..|links| - 1], i);
      assert links[..|links| - 1][..i] == links[..i];
    } else {
      assert links[..i] == links;
    }
  }

  /** The database with a link batch applied. */
  function Merged(db: Db, newIds: map<Key, U64>, newMeta: map<U64, Meta>): Db {
    Db(db.ids + newIds, db.meta + newMeta, db.blobs, db.graph)
  }

  /** What a link batch under construction holds after the given links. */
  datatype LinkBatch = LinkBatch(newIds: map<Key, U64>, newMeta: map<U64, Meta>, children: seq<U64>)

  predicate Staged(db: Db, start: nat, links: seq<Cid>, next: nat, w: LinkBatch) {
    && next == start + Missing(db.ids, links) <= U64_MAX
    && w.children == LinkIds(db.ids, start, links)
    && EnsureDb(db, start, links) == Merged(db, w.newIds, w.newMeta)
  }

  lemma StagedNone(db: Db, start: nat)
    requires start <= U64_MAX
    ensures Staged(db, start, [], start, LinkBatch(map[], map[], []))
  {
  }

  /** One more link that has an id already. */
  lemma StagedKnown(db: Db, start: nat, links: seq<Cid>, next: nat, w: LinkBatch, c: Cid)
    requires Staged(db, start, links, next, w) && IdKey(c) in db.ids
    ensures Staged(db, start, links + [c], next, w.(children := w.children + [db.ids[IdKey(c)]]))
  {
    assert (links + [c])[..|links|] == links;
  }

  /** One more link that takes the next id and adds two rows to the batch. */
  lemma StagedNew(db: Db, start: nat, links: seq<Cid>, next: U64, w: LinkBatch, c: Cid)
    requires Staged(db, start, links, next, w) && IdKey(c) !in db.ids && next < U64_MAX
    ensures Staged(db, start, links + [c], next + 1,
                   LinkBatch(w.newIds[IdKey(c) := next], w.newMeta[next := MetaOf(c)], w.children + [next]))
  {
    MissingAppend(db.ids, links, c);
    LinkIdsAppend(db.ids, start, links, c);
    EnsureDbAppend(db, start, links, c);
    MergedInsert(db, w.newIds, w.newMeta, IdKey(c), next, MetaOf(c));
  }

  lemma MergedInsert(db: Db, newIds: map<Key, U64>, newMeta: map<U64, Meta>, k: Key, id: U64, m: Meta)
    ensures var before := Merged(db, newIds, newMeta);
            Merged(db, newIds[k := id], newMeta[id := m]) == before.(ids := before.ids[k := id], meta := before.meta[id := m])
  {
    MergeInsert(db.ids, newIds, k, id);
    MergeInsert(db.meta, newMeta, id, m);
  }

  lemma MissingAppend(ids: map<Key, U64>, links: seq<Cid>, c: Cid)
    requires IdKey(c) !in ids
    ensures Missing(ids, links + [c]) == Missing(ids, links) + 1
  {
    assert (links + [c])[..|links|] == links;
  }

  lemma LinkIdsAppend(ids: map<Key, U64>, start: nat, links: seq<Cid>, c: Cid)
    requires IdKey(c) !in ids && start + Missing(ids, links) < U64_MAX
    requires Missing(ids, links + [c]) == Missing(ids, links) + 1
    ensures LinkIds(ids, start, links + [c]) == LinkIds(ids, start, links) + [start + Missing(ids, links)]
  {
    assert (links + [c])[..|links|] == links;
  }

  lemma EnsureDbAppend(db: Db, start: nat, links: seq<Cid>, c: Cid)
    requires IdKey(c) !in db.ids && start + Missing(db.ids, links) < U64_MAX
    requires Missing(db.ids, links + [c]) == Missing(db.ids, links) + 1
    ensures var id, before := start + Missing(db.ids, links), EnsureDb(db, start, links);
            EnsureDb(db, start, links + [c])
            == before.(ids := before.ids[IdKey(c) := id], meta := before.meta[id := MetaOf(c)])
  {
    assert (links + [c])[..|links|] == links;
  }

  lemma MergeInsert<K, V>(m: map<K, V>, n: map<K, V>, k: K, v: V)
    ensures m + n[k := v] == (m + n)[k := v]
  {
  }

  lemma MissingNext(ids: map<Key, U64>, links: seq<Cid>, i: nat)
    requires i < |links| && IdKey(links[i]) !in ids
    ensures Missing(ids, links) > Missing(ids, links[..i])
  {
    assert links[..i + 1][..i] == links[..i];
    MissingGrows(ids, links, i + 1);
  }

  lemma StagedFull(db: Db, start: nat, links: seq<Cid>, i: nat, w: LinkBatch)
    requires i < |links| && Staged(db, start, links[..i], U64_MAX, w) && IdKey(links[i]) !in db.ids
    ensures start + Missing(db.ids, links) > U64_MAX
  {
    MissingNext(db.ids, links, i);
  }

  /** The loop of `get_blob_by_hash` and `has_blob_for_hash`: the first row whose id has a blob. */
  method FirstWithBlob(blobs: map<U64, Blob>, rows: seq<CodeAndId>) returns (i: nat)
    ensures i <= |rows|
    ensures forall j | 0 <= j < i :: rows[j].id !in blobs
    ensures i < |rows| ==> rows[i].id in blobs
  {
    i := 0;
    while i < |rows|
      invariant i <= |rows|
      invariant forall j | 0 <= j < i :: rows[j].id !in blobs
    {
      if rows[i].id in blobs {
        return;
      }
      i := i + 1;
    }
  }

  class Store {
    var ids: map<Key, U64>
    var meta: map<U64, Meta>
    var blobs: map<U64, Blob>
    var graph: map<U64, seq<U64>>
    var nextId: nat

    function Content(): Db
      reads this
    {
      Db(ids, meta, blobs, graph)
    }

    predicate Valid()
      reads this
    {
      Good(Content(), nextId, [])
    }

    constructor Create()
      ensures Valid() && Content() == EMPTY_DB && nextId == 1
    {
      ids, meta, blobs, graph := map[], map[], map[], map[];
      nextId := 1;
    }

    /** Opens what an earlier store left behind; `bound` is that store's counter. */
    constructor Open(db: Db, ghost bound: nat)
      requires Good(db, bound, [])
      ensures Valid() && Content() == db && nextId == OpenNext(db)
    {
      ids, meta, blobs, graph := db.ids, db.meta, db.blobs, db.graph;
      nextId := OpenNext(db);
      OpenNextIsFresh(db, bound);
    }

    /** Takes the next id; `None` is the panic of a full store. */
    method TakeId() returns (id: Option<U64>)
      requires nextId <= U64_MAX
      modifies this`nextId
      ensures id.Some? <==> old(nextId) < U64_MAX
      ensures id.Some? ==> id.value == old(nextId) && nextId == old(nextId) + 1
      ensures id.None? ==> nextId == old(nextId)
    {
      if nextId + 1 <= U64_MAX {
        id := Some(nextId);
        nextId := nextId + 1;
      } else {
        id := None;
      }
    }

    /** Gives every link an id; new ids are written in one batch. */
    method EnsureIdMany(links: seq<Cid>) returns (children: Option<seq<U64>>)
      requires nextId <= U64_MAX
      modifies this`ids, this`meta, this`nextId
      ensures children.Some? <==> old(nextId) + Missing(old(ids), links) <= U64_MAX
      ensures children.Some? ==>
                && Content() == EnsureDb(old(Content()), old(nextId), links)
                && children.value == LinkIds(old(ids), old(nextId), links)
                && nextId == old(nextId) + Missing(old(ids), links)
      ensures children.None? ==> Content() == old(Content()) && nextId == U64_MAX
    {
      var batch := LinkBatch(map[], map[], []);
      ghost var start, db := nextId, Content();
      StagedNone(db, start);
      for i := 0 to |links|
        invariant Content() == db
        invariant Staged(db, start, links[..i], nextId, batch)
      {
        assert links[..i + 1] == links[..i] + [links[i]];
        var staged := StageLink(links[i], batch, db, start, links[..i]);
        if staged.None? {
          StagedFull(db, start, links, i, batch);
          return None;
        }
        batch := staged.value;
      }
      assert links[..|links|] == links;
      WriteLinks(batch);
      children := Some(batch.children);
    }

    /** The loop body of `ensure_id_many`: a known link keeps its id, a new one takes the next and adds two
        rows to the batch. */
    method StageLink(c: Cid, batch: LinkBatch, ghost db: Db, ghost start: nat, ghost links: seq<Cid>)
      returns (staged: Option<LinkBatch>)
      requires Content() == db && Staged(db, start, links, nextId, batch)
      modifies this`nextId
      ensures staged.None? <==> IdKey(c) !in ids && old(nextId) == U64_MAX
      ensures staged.None? ==> nextId == old(nextId)
      ensures staged.Some? ==> Staged(db, start, links + [c], nextId, staged.value)
    {
      var key := IdKey(c);
      if key in ids {
        StagedKnown(db, start, links, nextId, batch, c);
        return Some(batch.(children := batch.children + [ids[key]]));
      }
      ghost var next := nextId;
      var id := TakeId();
      if id.None? {
        return None;
      }
      StagedNew(db, start, links, next, batch, c);
      staged := Some(LinkBatch(batch.newIds[key := id.value], batch.newMeta[id.value := MetaOf(c)],
                               batch.children + [id.value]));
    }

    /** The id of a block and the ids of its links. */
    method TakeIds(links: seq<Cid>) returns (taken: Option<(U64, seq<U64>)>)
      requires nextId <= U64_MAX
      modifies this`ids, this`meta, this`nextId
      ensures taken.Some? <==> old(nextId) + 1 + Missing(old(ids), links) <= U64_MAX
      ensures taken.Some? ==>
                && Content() == EnsureDb(old(Content()), old(nextId) + 1, links)
                && taken.value == (old(nextId), LinkIds(old(ids), old(nextId) + 1, links))
                && nextId == old(nextId) + 1 + Missing(old(ids), links)
      ensures taken.None? ==> Content() == old(Content()) && nextId == U64_MAX
    {
      var id := TakeId();
      if id.None? {
        return None;
      }
      var children := EnsureIdMany(links);
      taken := if children.Some? then Some((id.value, children.value)) else None;
    }

    /** Applies a batch of link rows. */
    method WriteLinks(batch: LinkBatch)
      modifies this`ids, this`meta
      ensures Content() == Merged(old(Content()), batch.newIds, batch.newMeta)
    {
      ids, meta := ids + batch.newIds, meta + batch.newMeta;
    }

    method Has(cid: Cid) returns (found: bool)
      ensures found <==> HasKey(Content(), IdKey(cid))
      ensures Valid() ==> (found <==> IdKey(cid) in View(Content()))
    {
      found := IdKey(cid) in ids && ids[IdKey(cid)] in blobs;
    }

    /** `Store::put` */
    method Put(cid: Cid, blob: Blob, links: seq<Cid>) returns (ok: bool)
      requires Valid()
      modifies this
      ensures Valid()
      ensures var o := StoreRefinement.Put(old(Content()), old(nextId), Block(cid, blob, links));
              ok == o.ok && Content() == o.db && nextId == o.next
      ensures View(Content()) ==
              if ok then WriteOnce(old(View(Content())), Block(cid, blob, links)) else old(View(Content()))
    {
      PutRefines(Content(), nextId, Block(cid, blob, links));
      ok := WritePut(cid, blob, links);
    }

    /** `WriteStore::put`: the link batch, then one batch with the block's four rows. */
    method WritePut(cid: Cid, blob: Blob, links: seq<Cid>) returns (ok: bool)
      requires nextId <= U64_MAX
      modifies this
      ensures var o := StoreRefinement.Put(old(Content()), old(nextId), Block(cid, blob, links));
              ok == o.ok && Content() == o.db && nextId == o.next
    {
      ghost var db, start, b := Content(), nextId, Block(cid, blob, links);
      var found := Has(cid);
      if found {
        PutFound(db, start, b);
        return true;
      }
      var taken := TakeIds(links);
      if taken.None? {
        PutFull(db, start, b);
        return false;
      }
      PutWritten(db, start, b);
      Write([Row(cid, taken.value.0, blob, taken.value.1)]);
      ok := true;
    }

    /** `Store::put_many` */
    method PutMany(blocks: seq<Block>) returns (ok: bool)
      requires Valid()
      modifies this
      ensures Valid()
      ensures var o := StoreRefinement.PutMany(old(Content()), old(nextId), blocks);
              ok == o.ok && Content() == o.db && nextId == o.next
      ensures View(Content()) ==
              if ok then Batched(old(View(Content())), blocks) else old(View(Content()))
    {
      PutManyRefines(Content(), nextId, blocks);
      ok := WritePutMany(blocks);
    }

    /** `WriteStore::put_many`: one batch stays open across all blocks; only the link batches are
        written on the way. */
    method WritePutMany(blocks: seq<Block>) returns (ok: bool)
      requires nextId <= U64_MAX
      modifies this
      ensures var o := StoreRefinement.PutMany(old(Content()), old(nextId), blocks);
              ok == o.ok && Content() == o.db && nextId == o.next
    {
      ghost var db, start := Content(), nextId;
      var batch: seq<Row> := [];
      var tracker: set<Cid> := {};
      for i := 0 to |blocks|
        invariant nextId <= U64_MAX
        invariant Loop(db, start, blocks[..i]) == Progress(true, Content(), nextId, tracker, batch)
      {
        LoopNext(db, start, blocks, i);
        ok, tracker, batch := AddToBatch(blocks[i], tracker, batch);
        if !ok {
          LoopStaysFull(db, start, blocks, i + 1);
          return;
        }
      }
      assert blocks[..|blocks|] == blocks;
      Write(batch);
      ok := true;
    }

    /** The loop body of `put_many`. */
    method AddToBatch(b: Block, tracker: set<Cid>, batch: seq<Row>)
      returns (ok: bool, tracked: set<Cid>, rows: seq<Row>)
      requires nextId <= U64_MAX
      modifies this`ids, this`meta, this`nextId
      ensures Advance(Progress(true, old(Content()), old(nextId), tracker, batch), b)
              == Progress(ok, Content(), nextId, tracked, rows)
    {
      ghost var p := Progress(true, Content(), nextId, tracker, batch);
      tracked, rows := tracker, batch;
      var found := Has(b.cid);
      if b.cid in tracker || found {
        return true, tracked, rows;
      }
      var taken := TakeIds(b.links);
      if taken.None? {
        AdvanceFull(p, b);
        return false, tracked, rows;
      }
      AdvanceTakes(p, b);
      ok, tracked, rows := true, tracker + {b.cid}, batch + [Row(b.cid, taken.value.0, b.blob, taken.value.1)];
    }

    /** Applies a batch of block rows. */
    method Write(batch: seq<Row>)
      modifies this`ids, this`meta, this`blobs, this`graph
      ensures Content() == ApplyRows(old(Content()), batch)
    {
      ghost var db := Content();
      for i := 0 to |batch|
        invariant Content() == ApplyRows(db, batch[..i])
      {
        assert batch[..i + 1][..i] == batch[..i];
        var row := batch[i];
        ids, meta, blobs, graph :=
          ids[IdKey(row.cid) := row.id], meta[row.id := MetaOf(row.cid)],
          blobs[row.id := row.blob], graph[row.id := row.children];
      }
      assert batch[..|batch|] == batch;
    }

    method Get(cid: Cid) returns (blob: Option<Blob>)
      requires Valid()
      ensures blob == if IdKey(cid) in View(Content()) then Some(View(Content())[IdKey(cid)].blob) else None
    {
      ReadsAnswerView(Content(), cid);
      if IdKey(cid) in ids {
        var id := ids[IdKey(cid)];
        blob := if id in blobs then Some(blobs[id]) else None;
      } else {
        blob := None;
      }
    }

    method GetSize(cid: Cid) returns (size: Option<nat>)
      requires Valid()
      ensures size == if IdKey(cid) in View(Content()) then Some(|View(Content())[IdKey(cid)].blob|) else None
    {
      var blob := Get(cid);
      size := if blob.Some? then Some(|blob.value|) else None;
    }

    method GetLinks(cid: Cid) returns (links: LinksResult)
      requires Valid()
      ensures links == if IdKey(cid) in View(Content())
                       then Links(Normalised(View(Content())[IdKey(cid)].links)) else NoLinks
    {
      ReadsAnswerView(Content(), cid);
      if IdKey(cid) !in ids || ids[IdKey(cid)] !in graph {
        return NoLinks;
      }
      links := ChildCids(graph[ids[IdKey(cid)]]);
    }

    /** The CIDs of a graph row; an id without metadata is an error. */
    method ChildCids(children: seq<U64>) returns (links: LinksResult)
      ensures links == ReadChildren(Content(), children)
    {
      var out: seq<Cid> := [];
      for i := 0 to |children|
        invariant ReadChildren(Content(), children[..i]) == Links(out)
      {
        assert children[..i + 1][..i] == children[..i];
        if children[i] !in meta {
          InvalidStays(Content(), children, i + 1);
          return InvalidLink(children[i]);
        }
        out := out + [CidOf(meta[children[i]])];
      }
      assert children[..|children|] == children;
      links := Links(out);
    }

    method GetBlobByHash(h: Hash) returns (blob: Option<Blob>)
      requires Valid()
      ensures blob.Some? ==> IsLeastBlob(Content(), h, blob.value)
      ensures blob.None? ==> !AnyBlob(Content(), h)
    {
      var rows := IdsForHash(Content(), h);
      var i := FirstWithBlob(blobs, rows);
      if i < |rows| {
        FirstBlobIsLeast(Content(), h, rows, i);
        blob := Some(blobs[rows[i].id]);
      } else {
        NoBlobFound(Content(), h, rows);
        blob := None;
      }
    }

    method HasBlobForHash(h: Hash) returns (found: bool)
      requires Valid()
      ensures found <==> AnyBlob(Content(), h)
    {
      var rows := IdsForHash(Content(), h);
      var i := FirstWithBlob(blobs, rows);
      found := i < |rows|;
      if found {
        FirstBlobIsLeast(Content(), h, rows, i);
      } else {
        NoBlobFound(Content(), h, rows);
      }
    }

    /** True when the check reports a problem. */
    method ConsistencyCheck() returns (reported: bool)
      requires Valid()
      ensures !reported <==> MutuallyInverse(Content())
    {
      ConsistencyCheckIsExact(Content());
      reported := |meta| != |ids|;
    }
  }

  /** The first child without metadata decides the answer. */
  lemma {:induction false} InvalidStays(db: Db, children: seq<U64>, i: nat)
    requires i <= |children| && ReadChildren(db, children[..i]).InvalidLink?
    ensures ReadChildren(db, children) == ReadChildren(db, children[..i])
    decreases |children|
  {
    if i < |children| {
      assert children[..|children| - 1][..i] == children[..i];
      InvalidStays(db, children[..|children| - 1], i);
    } else {
      assert children[..i] == children;
    }
  }

  lemma PutFound(db: Db, next: nat, b: Block)
    requires next <= U64_MAX && HasKey(db, IdKey(b.cid))
    ensures StoreRefinement.Put(db, next, b) == Outcome(true, db, next)
  {
    assert Loop(db, next, [b]) == Advance(Loop(db, next, []), b) by { assert [b][..0] == []; }
  }

  lemma PutFull(db: Db, next: nat, b: Block)
    requires next <= U64_MAX && !HasKey(db, IdKey(b.cid)) && next + 1 + Missing(db.ids, b.links) > U64_MAX
    ensures StoreRefinement.Put(db, next, b) == Outcome(false, db, U64_MAX)
  {
    assert Loop(db, next, [b]) == Advance(Loop(db, next, []), b) by { assert [b][..0] == []; }
  }

  lemma PutWritten(db: Db, next: nat, b: Block)
    requires !HasKey(db, IdKey(b.cid)) && next + 1 + Missing(db.ids, b.links) <= U64_MAX
    ensures StoreRefinement.Put(db, next, b) ==
            Outcome(true,
                    ApplyRows(EnsureDb(db, next + 1, b.links),
                              [Row(b.cid, next, b.blob, LinkIds(db.ids, next + 1, b.links))]),
                    next + 1 + Missing(db.ids, b.links))
  {
    assert Loop(db, next, [b]) == Advance(Loop(db, next, []), b) by { assert [b][..0] == []; }
  }

  lemma LoopNext(db: Db, next: nat, blocks: seq<Block>, i: nat)
    requires next <= U64_MAX && i < |blocks|
    ensures Loop(db, next, blocks[..i + 1]) == Advance(Loop(db, next, blocks[..i]), blocks[i])
  {
    assert blocks[..i + 1][..i] == blocks[..i];
  }

  lemma AdvanceFull(p: Progress, b: Block)
    requires p.next <= U64_MAX && Takes(p, b) && !Fits(p, b)
    ensures Advance(p, b) == p.(ok := false, next := U64_MAX)
  {
  }

  lemma AdvanceTakes(p: Progress, b: Block)
    requires Takes(p, b) && Fits(p, b)
    ensures Advance(p, b) ==
            Progress(true, EnsureDb(p.db, p.next + 1, b.links), p.next + 1 + Missing(p.db.ids, b.links),
                     p.tracked + {b.cid},
                     p.rows + [Row(b.cid, p.next, b.blob, LinkIds(p.db.ids, p.next + 1, b.links))])
  {
  }

  /** Once the ids have run out the rest of the loop does nothing. */
  lemma {:induction false} LoopStaysFull(db: Db, next: nat, blocks: seq<Block>, i: nat)
    requires next <= U64_MAX && i <= |blocks| && !Loop(db, next, blocks[..i]).ok
    ensures Loop(db, next, blocks) == Loop(db, next, blocks[..i])
    decreases |blocks|
  {
    if i < |blocks| {
      assert blocks[..|blocks| - 1][..i] == blocks[..i];
      LoopStaysFull(db, next, blocks[..|blocks| - 1], i);
    } else {
      assert blocks[..i] == blocks;
    }
  }
}
