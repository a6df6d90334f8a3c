/** The content store's four column families as values, and what each operation does to them.
    RocksDB is four maps that change only by atomic batches. */
module StoreModel {
  import opened Bytes
  import opened Cids
  import opened Options

  type Key = seq<Byte>
  type Blob = seq<Byte>

  /** A metadata row: what is kept of a CID, its version is not. */
  datatype Meta = Meta(codec: U64, hash: Hash)

  datatype Db = Db(ids: map<Key, U64>, meta: map<U64, Meta>, blobs: map<U64, Blob>, graph: map<U64, seq<U64>>)

  const EMPTY_DB := Db(map[], map[], map[], map[])

  datatype Block = Block(cid: Cid, blob: Blob, links: seq<Cid>)

  /** What one block adds to the open write batch. */
  datatype Row = Row(cid: Cid, id: U64, blob: Blob, children: seq<U64>)

  function MetaOf(c: Cid): Meta {
    Meta(c.codec, c.hash)
  }

  function MetasOf(links: seq<Cid>): seq<Meta> {
    seq(|links|, i requires 0 <= i < |links| => MetaOf(links[i]))
  }

  /** A metadata row read back as a CID: always version 1. */
  function CidOf(m: Meta): Cid {
    MakeCid(V1, m.codec, m.hash)
  }

  function KeyOf(m: Meta): Key {
    HashBytes(m.hash) + Be64(m.codec)
  }

  /** `id_key`: the multihash bytes, then the codec in big-endian. */
  function IdKey(c: Cid): Key {
    KeyOf(MetaOf(c))
  }

  /** Two CIDs share an id key exactly when they have the same codec and multihash, whatever
      their versions. */
  lemma IdKeyIdentifies(a: Meta, b: Meta)
    ensures KeyOf(a) == KeyOf(b) <==> a == b
  {
    if KeyOf(a) == KeyOf(b) {
      HashRoundTrip(a.hash, Be64(a.codec));
      HashRoundTrip(b.hash, Be64(b.codec));
      assert Be64(a.codec) == KeyOf(a)[|HashBytes(a.hash)|..];
      BeRoundTrip(a.codec);
      BeRoundTrip(b.codec);
    }
  }

  /* ---- Registering links: `ensure_id_many` ---- */

  /** How many of the links have no id yet; a link repeated in the list counts every time. */
  function Missing(ids: map<Key, U64>, links: seq<Cid>): (n: nat)
    ensures n <= |links|
  {
    if links == [] then 0
    else
      var n := |links| - 1;
      Missing(ids, links[..n]) + (if IdKey(links[n]) in ids then 0 else 1)
  }

  /** The id that the last link of the list gets. */
  function LastLinkId(ids: map<Key, U64>, next: nat, links: seq<Cid>): U64
    requires links != []
    requires next + Missing(ids, links) <= U64_MAX
  {
    var n := |links| - 1;
    if IdKey(links[n]) in ids then ids[IdKey(links[n])] else next + Missing(ids, links[..n])
  }

  function LinkIds(ids: map<Key, U64>, next: nat, links: seq<Cid>): (r: seq<U64>)
    requires next + Missing(ids, links) <= U64_MAX
    ensures |r| == |links|
  {
    if links == [] then []
    else LinkIds(ids, next, links[..|links| - 1]) + [LastLinkId(ids, next, links)]
  }

  /** The database after the link batch: lookups see only what was there before the batch, so the
      last of several equal new links wins the id row while all keep their metadata rows. */
  function EnsureDb(db: Db, next: nat, links: seq<Cid>): Db
    requires next + Missing(db.ids, links) <= U64_MAX
  {
    if links == [] then db
    else
      var c := links[|links| - 1];
      var before := EnsureDb(db, next, links[..|links| - 1]);
      if IdKey(c) in db.ids then before
      else
        var id := LastLinkId(db.ids, next, links);
        before.(ids := before.ids[IdKey(c) := id], meta := before.meta[id := MetaOf(c)])
  }

  /* ---- Writing blocks: `put` and `put_many` ---- */

  function ApplyRow(db: Db, row: Row): Db {
    Db(db.ids[IdKey(row.cid) := row.id],
       db.meta[row.id := MetaOf(row.cid)],
       db.blobs[row.id := row.blob],
       db.graph[row.id := row.children])
  }

  function ApplyRows(db: Db, rows: seq<Row>): Db {
    if rows == [] then db
    else ApplyRow(ApplyRows(db, rows[..|rows| - 1]), rows[|rows| - 1])
  }

  predicate HasKey(db: Db, k: Key) {
    k in db.ids && db.ids[k] in db.blobs
  }

  /** The loop state of `put_many`: the committed database, the id counter, the CIDs taken so far
      and the batch still to be written. `ok` turns false when the ids run out. */
  datatype Progress = Progress(ok: bool, db: Db, next: nat, tracked: set<Cid>, rows: seq<Row>)

  /** One turn of the loop. The link batch is committed at once, the block's rows are only queued. */
  function Advance(p: Progress, b: Block): Progress
    requires p.next <= U64_MAX
  {
    if !p.ok || b.cid in p.tracked || HasKey(p.db, IdKey(b.cid)) then p
    else
      var next := p.next + 1;
      var missing := Missing(p.db.ids, b.links);
      if next + missing > U64_MAX then p.(ok := false, next := U64_MAX)
      else
        Progress(true, EnsureDb(p.db, next, b.links), next + missing, p.tracked + {b.cid},
                 p.rows + [Row(b.cid, p.next, b.blob, LinkIds(p.db.ids, next, b.links))])
  }

  function Loop(db: Db, next: nat, blocks: seq<Block>): (p: Progress)
    requires next <= U64_MAX
    ensures p.next <= U64_MAX
  {
    if blocks == [] then Progress(true, db, next, {}, [])
    else Advance(Loop(db, next, blocks[..|blocks| - 1]), blocks[|blocks| - 1])
  }

  /* ---- Reading ---- */

  function GetBlob(db: Db, c: Cid): Option<Blob> {
    if HasKey(db, IdKey(c)) then Some(db.blobs[db.ids[IdKey(c)]]) else None
  }

  datatype LinksResult = NoLinks | Links(cids: seq<Cid>) | InvalidLink(id: U64)

  /** The children of a graph row as CIDs, or the first child without a metadata row. */
  function ReadChildren(db: Db, children: seq<U64>): LinksResult {
    if children == [] then Links([])
    else
      var n := |children| - 1;
      match ReadChildren(db, children[..n])
      case Links(cs) =>
        if children[n] in db.meta then Links(cs + [CidOf(db.meta[children[n]])]) else InvalidLink(children[n])
      case other => other
  }

  function GetLinks(db: Db, c: Cid): LinksResult {
    if IdKey(c) !in db.ids || db.ids[IdKey(c)] !in db.graph then NoLinks
    else ReadChildren(db, db.graph[db.ids[IdKey(c)]])
  }

  /** `open`: one more than the last metadata key in byte order. */
  function OpenNext(db: Db): nat {
    var keys := SortedKeys(set id | id in db.meta :: Be64(id));
    (if keys == [] then 0 else FromBe(keys[|keys| - 1])) + 1
  }
}
