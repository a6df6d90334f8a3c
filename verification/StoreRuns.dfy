/** Every run of the store: puts, batched puts, failed writes, stops between any two atomic batches,
    and reopening. */
module StoreRuns {
  import opened Bytes
  import opened Cids
  import opened StoreModel

  /* ---- What every database state satisfies ---- */

  /** Metadata is a left inverse of the id family. */
  predicate IdsNamed(db: Db) {
    forall k | k in db.ids :: db.ids[k] in db.meta && KeyOf(db.meta[db.ids[k]]) == k
  }

  predicate AllIn(children: seq<U64>, meta: map<U64, Meta>) {
    forall i | 0 <= i < |children| :: children[i] in meta
  }

  /** Every id used anywhere has a metadata row. */
  predicate RowsNamed(db: Db) {
    && db.blobs.Keys == db.graph.Keys
    && db.blobs.Keys <= db.meta.Keys
    && forall id | id in db.graph :: AllIn(db.graph[id], db.meta)
  }

  predicate Wf(db: Db) {
    IdsNamed(db) && RowsNamed(db)
  }

  predicate IdsBelow(db: Db, next: nat) {
    forall id | id in db.meta :: 0 < id < next
  }

  /** The queued rows use fresh distinct ids, known children and keys that hold no blob yet. */
  predicate RowsFresh(db: Db, next: nat, rows: seq<Row>) {
    && (forall i | 0 <= i < |rows| :: 0 < rows[i].id < next && rows[i].id !in db.meta)
    && (forall i, j | 0 <= i < j < |rows| :: rows[i].id != rows[j].id)
    && (forall i | 0 <= i < |rows| :: AllIn(rows[i].children, db.meta))
    && (forall i | 0 <= i < |rows| :: !HasKey(db, IdKey(rows[i].cid)))
  }

  predicate Good(db: Db, next: nat, rows: seq<Row>) {
    Wf(db) && 0 < next <= U64_MAX && IdsBelow(db, next) && RowsFresh(db, next, rows)
  }

  /* ---- The map that callers see ---- */

  datatype Entry = Entry(blob: Blob, links: seq<Meta>)

  function Metas(meta: map<U64, Meta>, children: seq<U64>): seq<Meta>
    requires AllIn(children, meta)
  {
    seq(|children|, i requires 0 <= i < |children| => meta[children[i]])
  }

  function EntryAt(db: Db, k: Key): Entry
    requires Wf(db) && HasKey(db, k)
  {
    Entry(db.blobs[db.ids[k]], Metas(db.meta, db.graph[db.ids[k]]))
  }

  /** The database as one map from id key to blob and links. */
  function View(db: Db): map<Key, Entry>
    requires Wf(db)
  {
    map k | k in db.ids && HasKey(db, k) :: EntryAt(db, k)
  }

  lemma ViewIs(db: Db, v: map<Key, Entry>)
    requires Wf(db)
    requires forall k :: k in v <==> HasKey(db, k)
    requires forall k | k in v :: HasKey(db, k) && v[k] == EntryAt(db, k)
    ensures View(db) == v
  {
  }

  predicate Extends<K, V(==)>(small: map<K, V>, big: map<K, V>) {
    forall k | k in small :: k in big && big[k] == small[k]
  }

  /* ---- Link batches ---- */

  /** The link batch adds id and metadata rows with new ids and touches nothing else. */
  predicate EnsureRows(db: Db, next: nat, links: seq<Cid>)
    requires next + Missing(db.ids, links) <= U64_MAX
  {
    var after := EnsureDb(db, next, links);
    && after.blobs == db.blobs && after.graph == db.graph
    && Extends(db.meta, after.meta) && Extends(db.ids, after.ids)
    && (forall id | id in after.meta && id !in db.meta :: next <= id < next + Missing(db.ids, links))
    && (forall k | k in after.ids && k !in db.ids :: after.ids[k] >= next)
    && IdsNamed(after)
  }

  /** The children of a block lead through the metadata back to its links. */
  predicate EnsureChildren(db: Db, next: nat, links: seq<Cid>)
    requires next + Missing(db.ids, links) <= U64_MAX
  {
    var after, ids := EnsureDb(db, next, links), LinkIds(db.ids, next, links);
    AllIn(ids, after.meta) && Metas(after.meta, ids) == MetasOf(links)
  }

  lemma RegisterKeeps(before: Db, c: Cid, id: U64)
    requires IdsNamed(before) && id !in before.meta
    ensures var after := before.(ids := before.ids[IdKey(c) := id], meta := before.meta[id := MetaOf(c)]);
            IdsNamed(after) && Extends(before.meta, after.meta)
  {
  }

  /** The metadata read through an extended list of children. */
  lemma MetasAppend(small: map<U64, Meta>, big: map<U64, Meta>, ids: seq<U64>, id: U64, links: seq<Cid>)
    requires links != [] && Extends(small, big) && AllIn(ids, small)
    requires Metas(small, ids) == MetasOf(links[..|links| - 1])
    requires id in big && big[id] == MetaOf(links[|links| - 1])
    ensures AllIn(ids + [id], big) && Metas(big, ids + [id]) == MetasOf(links)
  {
    var n := |links| - 1;
    assert |ids| == |Metas(small, ids)| == n;
    forall i | 0 <= i < n ensures ids[i] in big && big[ids[i]] == MetaOf(links[i]) {
      assert Metas(small, ids)[i] == MetasOf(links[..n])[i];
    }
  }

  lemma {:induction false} EnsureKeepsRows(db: Db, next: nat, links: seq<Cid>)
    requires IdsNamed(db) && 0 < next && IdsBelow(db, next)
    requires next + Missing(db.ids, links) <= U64_MAX
    ensures EnsureRows(db, next, links)
  {
    if links != [] {
      var n := |links| - 1;
      EnsureKeepsRows(db, next, links[..n]);
      if IdKey(links[n]) !in db.ids {
        RegisterKeeps(EnsureDb(db, next, links[..n]), links[n], LastLinkId(db.ids, next, links));
      }
    }
  }

  lemma {:induction false} EnsureKeepsChildren(db: Db, next: nat, links: seq<Cid>)
    requires IdsNamed(db) && 0 < next && IdsBelow(db, next)
    requires next + Missing(db.ids, links) <= U64_MAX
    ensures EnsureChildren(db, next, links)
  {
    if links != [] {
      EnsureKeepsChildren(db, next, links[..|links| - 1]);
      EnsureKeepsRows(db, next, links[..|links| - 1]);
      LastChild(db, next, links);
    }
  }

  lemma LastChild(db: Db, next: nat, links: seq<Cid>)
    requires IdsNamed(db) && IdsBelow(db, next) && links != []
    requires next + Missing(db.ids, links) <= U64_MAX
    requires EnsureRows(db, next, links[..|links| - 1]) && EnsureChildren(db, next, links[..|links| - 1])
    ensures EnsureChildren(db, next, links)
  {
    var n := |links| - 1;
    var before, after := EnsureDb(db, next, links[..n]), EnsureDb(db, next, links);
    var id := LastLinkId(db.ids, next, links);
    if IdKey(links[n]) in db.ids {
      IdKeyOfLast(db, before, next, links);
    } else {
      RegisterKeeps(before, links[n], id);
    }
    MetasAppend(before.meta, after.meta, LinkIds(db.ids, next, links[..n]), id, links);
  }

  lemma EnsureKeeps(db: Db, next: nat, links: seq<Cid>)
    requires IdsNamed(db) && 0 < next && IdsBelow(db, next)
    requires next + Missing(db.ids, links) <= U64_MAX
    ensures EnsureRows(db, next, links) && EnsureChildren(db, next, links)
  {
    EnsureKeepsRows(db, next, links);
    EnsureKeepsChildren(db, next, links);
  }

  /** A link that already has an id has a metadata row with its codec and multihash. */
  lemma IdKeyOfLast(db: Db, before: Db, next: nat, links: seq<Cid>)
    requires links != [] && IdsNamed(db)
    requires next + Missing(db.ids, links) <= U64_MAX
    requires Extends(db.meta, before.meta)
    ensures IdKey(links[|links| - 1]) in db.ids ==>
              var id := LastLinkId(db.ids, next, links);
              id in before.meta && before.meta[id] == MetaOf(links[|links| - 1])
  {
    var c := links[|links| - 1];
    if IdKey(c) in db.ids {
      IdKeyIdentifies(db.meta[db.ids[IdKey(c)]], MetaOf(c));
    }
  }

  /** Growing the metadata does not change what known children mean. */
  lemma MetasStable(small: map<U64, Meta>, big: map<U64, Meta>, children: seq<U64>)
    requires Extends(small, big) && AllIn(children, small)
    ensures AllIn(children, big) && Metas(big, children) == Metas(small, children)
  {
  }

  lemma EnsureWf(db: Db, next: nat, links: seq<Cid>)
    requires Wf(db) && 0 < next && IdsBelow(db, next)
    requires next + Missing(db.ids, links) <= U64_MAX
    ensures var after := EnsureDb(db, next, links);
            Wf(after) && IdsBelow(after, next + Missing(db.ids, links))
  {
    EnsureKeeps(db, next, links);
    var after := EnsureDb(db, next, links);
    forall id | id in after.graph ensures AllIn(after.graph[id], after.meta) {
      MetasStable(db.meta, after.meta, db.graph[id]);
    }
  }

  /** Registering links does not change what is stored under a key. */
  lemma EnsureEntry(db: Db, next: nat, links: seq<Cid>, k: Key)
    requires Wf(db) && 0 < next && IdsBelow(db, next)
    requires next + Missing(db.ids, links) <= U64_MAX
    ensures var after := EnsureDb(db, next, links);
            && Wf(after)
            && (HasKey(after, k) <==> HasKey(db, k))
            && (HasKey(db, k) ==> EntryAt(after, k) == EntryAt(db, k))
  {
    EnsureKeeps(db, next, links);
    EnsureWf(db, next, links);
    var after := EnsureDb(db, next, links);
    if HasKey(db, k) {
      MetasStable(db.meta, after.meta, db.graph[db.ids[k]]);
    } else if k in after.ids && k !in db.ids {
      assert after.ids[k] !in db.meta;
    }
  }

  lemma EnsureRowsFresh(db: Db, next: nat, links: seq<Cid>, rows: seq<Row>)
    requires Good(db, next, rows)
    requires next + Missing(db.ids, links) <= U64_MAX
    ensures RowsFresh(EnsureDb(db, next, links), next + Missing(db.ids, links), rows)
  {
    EnsureKeeps(db, next, links);
    var after := EnsureDb(db, next, links);
    forall i | 0 <= i < |rows|
      ensures AllIn(rows[i].children, after.meta) && !HasKey(after, IdKey(rows[i].cid))
    {
      MetasStable(db.meta, after.meta, rows[i].children);
      EnsureEntry(db, next, links, IdKey(rows[i].cid));
    }
  }

  /** Registering links is invisible and keeps the queued rows usable. */
  lemma EnsureInvisible(db: Db, next: nat, links: seq<Cid>, rows: seq<Row>)
    requires Good(db, next, rows)
    requires next + Missing(db.ids, links) <= U64_MAX
    ensures var after := EnsureDb(db, next, links);
            && Good(after, next + Missing(db.ids, links), rows)
            && View(after) == View(db)
  {
    EnsureWf(db, next, links);
    EnsureRowsFresh(db, next, links, rows);
    var after := EnsureDb(db, next, links);
    var v := View(db);
    forall k
      ensures k in v <==> HasKey(after, k)
      ensures k in v ==> v[k] == EntryAt(after, k)
    {
      EnsureEntry(db, next, links, k);
    }
    ViewIs(after, v);
  }

  /* ---- Block batches ---- */

  lemma ApplyRowWf(db: Db, row: Row)
    requires Wf(db) && row.id !in db.meta && AllIn(row.children, db.meta)
    ensures var after := ApplyRow(db, row);
            Wf(after) && Extends(db.meta, after.meta) && after.meta.Keys == db.meta.Keys + {row.id}
  {
    var after := ApplyRow(db, row);
    forall id | id in after.graph ensures AllIn(after.graph[id], after.meta) {
      MetasStable(db.meta, after.meta, if id == row.id then row.children else db.graph[id]);
    }
  }

  lemma ApplyRowEntry(db: Db, row: Row, k: Key)
    requires Wf(db) && row.id !in db.meta && AllIn(row.children, db.meta)
    ensures var after := ApplyRow(db, row);
            && Wf(after)
            && (k == IdKey(row.cid) ==>
                  HasKey(after, k) && EntryAt(after, k) == Entry(row.blob, Metas(db.meta, row.children)))
            && (k != IdKey(row.cid) ==>
                  && (HasKey(after, k) <==> HasKey(db, k))
                  && (HasKey(db, k) ==> EntryAt(after, k) == EntryAt(db, k)))
  {
    ApplyRowWf(db, row);
    var after := ApplyRow(db, row);
    if k == IdKey(row.cid) {
      MetasStable(db.meta, after.meta, row.children);
    } else if HasKey(db, k) {
      MetasStable(db.meta, after.meta, db.graph[db.ids[k]]);
    }
  }

  lemma ApplyRowView(db: Db, row: Row)
    requires Wf(db) && row.id !in db.meta && AllIn(row.children, db.meta)
    ensures Wf(ApplyRow(db, row))
    ensures View(ApplyRow(db, row)) == View(db)[IdKey(row.cid) := Entry(row.blob, Metas(db.meta, row.children))]
  {
    ApplyRowWf(db, row);
    var key, entry := IdKey(row.cid), Entry(row.blob, Metas(db.meta, row.children));
    var v := View(db)[key := entry];
    var after := ApplyRow(db, row);
    forall k
      ensures k in v <==> HasKey(after, k)
      ensures k in v ==> v[k] == EntryAt(after, k)
    {
      ApplyRowEntry(db, row, k);
    }
    ViewIs(after, v);
  }

  /** Entries laid over a view in order; a later entry for the same key wins. */
  function Overlay(v: map<Key, Entry>, es: seq<(Key, Entry)>): map<Key, Entry> {
    if es == [] then v
    else Overlay(v, es[..|es| - 1])[es[|es| - 1].0 := es[|es| - 1].1]
  }

  function RowEntries(db: Db, rows: seq<Row>): seq<(Key, Entry)>
    requires forall i | 0 <= i < |rows| :: AllIn(rows[i].children, db.meta)
  {
    seq(|rows|, i requires 0 <= i < |rows| =>
      (IdKey(rows[i].cid), Entry(rows[i].blob, Metas(db.meta, rows[i].children))))
  }

  lemma {:induction false} ApplyRowsWf(db: Db, next: nat, rows: seq<Row>)
    requires Good(db, next, rows)
    ensures var after := ApplyRows(db, rows);
            && Wf(after) && IdsBelow(after, next) && Extends(db.meta, after.meta)
            && forall id | id in after.meta && id !in db.meta :: exists i | 0 <= i < |rows| :: rows[i].id == id
  {
    if rows != [] {
      var n := |rows| - 1;
      RowsFreshPrefix(db, next, rows);
      ApplyRowsWf(db, next, rows[..n]);
      var before := ApplyRows(db, rows[..n]);
      MetasStable(db.meta, before.meta, rows[n].children);
      ApplyRowWf(before, rows[n]);
    }
  }

  lemma RowsFreshPrefix(db: Db, next: nat, rows: seq<Row>)
    requires rows != [] && RowsFresh(db, next, rows)
    ensures RowsFresh(db, next, rows[..|rows| - 1])
  {
  }

  lemma RowEntriesSplit(db: Db, rows: seq<Row>)
    requires rows != [] && forall i | 0 <= i < |rows| :: AllIn(rows[i].children, db.meta)
    ensures var n := |rows| - 1;
            RowEntries(db, rows) == RowEntries(db, rows[..n])
              + [(IdKey(rows[n].cid), Entry(rows[n].blob, Metas(db.meta, rows[n].children)))]
  {
  }

  lemma OverlaySplit(v: map<Key, Entry>, es: seq<(Key, Entry)>, k: Key, e: Entry)
    ensures Overlay(v, es + [(k, e)]) == Overlay(v, es)[k := e]
  {
    assert (es + [(k, e)])[..|es|] == es;
  }

  lemma {:induction false} ApplyRowsView(db: Db, next: nat, rows: seq<Row>)
    requires Good(db, next, rows)
    ensures Wf(ApplyRows(db, rows))
    ensures View(ApplyRows(db, rows)) == Overlay(View(db), RowEntries(db, rows))
  {
    ApplyRowsWf(db, next, rows);
    if rows != [] {
      var n := |rows| - 1;
      RowsFreshPrefix(db, next, rows);
      ApplyRowsWf(db, next, rows[..n]);
      var before, row := ApplyRows(db, rows[..n]), rows[n];
      ApplyRowsView(db, next, rows[..n]);
      MetasStable(db.meta, before.meta, row.children);
      ApplyRowView(before, row);
      RowEntriesSplit(db, rows);
      OverlaySplit(View(db), RowEntries(db, rows[..n]), IdKey(row.cid),
                   Entry(row.blob, Metas(db.meta, row.children)));
    }
  }

  lemma {:induction false} OverlayNewKeys(v: map<Key, Entry>, es: seq<(Key, Entry)>)
    requires forall i | 0 <= i < |es| :: es[i].0 !in v
    ensures Extends(v, Overlay(v, es))
  {
    if es != [] {
      OverlayNewKeys(v, es[..|es| - 1]);
    }
  }

  /** Writing the batch adds entries and changes none. */
  lemma CommitExtends(db: Db, next: nat, rows: seq<Row>)
    requires Good(db, next, rows)
    ensures Wf(ApplyRows(db, rows)) && Extends(View(db), View(ApplyRows(db, rows)))
  {
    ApplyRowsView(db, next, rows);
    OverlayNewKeys(View(db), RowEntries(db, rows));
  }

  lemma AppendFresh(db: Db, next: nat, rows: seq<Row>, row: Row)
    requires RowsFresh(db, next, rows)
    requires 0 < row.id < next && row.id !in db.meta && forall i | 0 <= i < |rows| :: rows[i].id != row.id
    requires AllIn(row.children, db.meta) && !HasKey(db, IdKey(row.cid))
    ensures RowsFresh(db, next, rows + [row])
  {
  }

  /** Whether the loop takes the block: its CID is not taken already and its key holds no blob. */
  predicate Takes(p: Progress, b: Block) {
    p.ok && b.cid !in p.tracked && !HasKey(p.db, IdKey(b.cid))
  }

  predicate Fits(p: Progress, b: Block) {
    p.next + 1 + Missing(p.db.ids, b.links) <= U64_MAX
  }

  /** A block's link batch and its queued rows. */
  lemma TakenKeeps(db: Db, next: nat, rows: seq<Row>, b: Block)
    requires Good(db, next, rows) && !HasKey(db, IdKey(b.cid))
    requires next + 1 + Missing(db.ids, b.links) <= U64_MAX
    ensures var after := EnsureDb(db, next + 1, b.links);
            && Good(after, next + 1 + Missing(db.ids, b.links),
                    rows + [Row(b.cid, next, b.blob, LinkIds(db.ids, next + 1, b.links))])
            && View(after) == View(db)
  {
    GoodLater(db, next, rows);
    EnsureInvisible(db, next + 1, b.links, rows);
    EnsureEntry(db, next + 1, b.links, IdKey(b.cid));
    OwnIdFree(db, next, b.links);
    AppendGood(EnsureDb(db, next + 1, b.links), next + 1 + Missing(db.ids, b.links), rows,
               Row(b.cid, next, b.blob, LinkIds(db.ids, next + 1, b.links)));
  }

  lemma GoodLater(db: Db, next: nat, rows: seq<Row>)
    requires Good(db, next, rows) && next < U64_MAX
    ensures Good(db, next + 1, rows)
  {
  }

  /** The id a block takes before its links get theirs. */
  lemma OwnIdFree(db: Db, next: nat, links: seq<Cid>)
    requires IdsNamed(db) && 0 < next && IdsBelow(db, next)
    requires next + 1 + Missing(db.ids, links) <= U64_MAX
    ensures next !in EnsureDb(db, next + 1, links).meta
    ensures AllIn(LinkIds(db.ids, next + 1, links), EnsureDb(db, next + 1, links).meta)
  {
    EnsureKeeps(db, next + 1, links);
  }

  lemma AppendGood(db: Db, next: nat, rows: seq<Row>, row: Row)
    requires Good(db, next, rows)
    requires 0 < row.id < next && row.id !in db.meta && forall i | 0 <= i < |rows| :: rows[i].id != row.id
    requires AllIn(row.children, db.meta) && !HasKey(db, IdKey(row.cid))
    ensures Good(db, next, rows + [row])
  {
    AppendFresh(db, next, rows, row);
  }

  /** One loop turn keeps everything good and shows nothing to readers. */
  lemma AdvanceKeeps(p: Progress, b: Block)
    requires Good(p.db, p.next, p.rows)
    ensures var q := Advance(p, b);
            Good(q.db, q.next, q.rows) && View(q.db) == View(p.db)
  {
    if Takes(p, b) && Fits(p, b) {
      TakenKeeps(p.db, p.next, p.rows, b);
    }
  }

  /* ---- The store as a state machine ---- */

  datatype Phase = Idle | Writing(rest: seq<Block>, tracked: set<Cid>, rows: seq<Row>)

  datatype State = State(db: Db, next: nat, phase: Phase)

  /** What happens next. `Begin` starts `put` (one block) or `put_many`; `Turn` is one block up to
      and including its link batch; `Commit` writes the final batch. `Fail` is a write that returns
      an error, after any number of ids were taken; `Reopen` is a stop, at any point, then `open`. */
  datatype Label = Begin(blocks: seq<Block>) | Turn | Commit | Fail(next: nat) | Reopen

  predicate Step(s: State, l: Label, t: State) {
    match l
    case Begin(blocks) => s.phase.Idle? && t == s.(phase := Writing(blocks, {}, []))
    case Turn =>
      && s.phase.Writing? && s.phase.rest != [] && s.next <= U64_MAX
      && var p := Advance(Progress(true, s.db, s.next, s.phase.tracked, s.phase.rows), s.phase.rest[0]);
         t == State(p.db, p.next, if p.ok then Writing(s.phase.rest[1..], p.tracked, p.rows) else Idle)
    case Commit =>
      && s.phase.Writing? && s.phase.rest == []
      && t == State(ApplyRows(s.db, s.phase.rows), s.next, Idle)
    case Fail(next) => s.next <= next <= U64_MAX && t == State(s.db, next, Idle)
    case Reopen => t == State(s.db, OpenNext(s.db), Idle)
  }

  predicate Run(ss: seq<State>, ls: seq<Label>) {
    |ss| == |ls| + 1 && forall i | 0 <= i < |ls| :: Step(ss[i], ls[i], ss[i + 1])
  }

  /** `create` */
  const CREATED := State(EMPTY_DB, 1, Idle)

  predicate Inv(s: State) {
    Good(s.db, s.next, if s.phase.Writing? then s.phase.rows else [])
  }

  lemma LastIsTop(keys: seq<seq<Byte>>, last: U64, id: U64)
    requires Ascending(keys) && keys != [] && keys[|keys| - 1] == Be64(last) && Be64(id) in keys
    ensures id <= last
  {
    var i :| 0 <= i < |keys| && keys[i] == Be64(id);
    BeOrder(id, last);
    BeRoundTrip(id);
    BeRoundTrip(last);
  }

  /** The id after reopening lies above every id in use, and the `+ 1` does not overflow. */
  lemma OpenNextIsFresh(db: Db, next: nat)
    requires IdsBelow(db, next) && 0 < next <= U64_MAX
    ensures 0 < OpenNext(db) <= next
    ensures IdsBelow(db, OpenNext(db))
    ensures db.meta != map[] ==> (OpenNext(db) - 1) in db.meta
  {
    var raw := set id | id in db.meta :: Be64(id);
    var keys := SortedKeys(raw);
    forall id: U64 | id in db.meta ensures Be64(id) in keys {
      assert Be64(id) in raw;
    }
    if keys != [] {
      var top := keys[|keys| - 1];
      assert top in raw;
      var last: U64 :| last in db.meta && top == Be64(last);
      BeRoundTrip(last);
      forall id: U64 | id in db.meta ensures id <= last {
        LastIsTop(keys, last, id);
      }
    }
  }

  /** What one step does to the invariant and to the visible map. */
  predicate Grows(s: State, t: State) {
    Inv(s) && Inv(t) && Extends(View(s.db), View(t.db))
  }

  lemma TurnKeeps(s: State, t: State)
    requires Inv(s) && Step(s, Turn, t)
    ensures Inv(t) && View(t.db) == View(s.db)
  {
    AdvanceKeeps(Progress(true, s.db, s.next, s.phase.tracked, s.phase.rows), s.phase.rest[0]);
  }

  lemma CommitKeeps(s: State, t: State)
    requires Inv(s) && Step(s, Commit, t)
    ensures Grows(s, t)
  {
    ApplyRowsWf(s.db, s.next, s.phase.rows);
    CommitExtends(s.db, s.next, s.phase.rows);
  }

  lemma ReopenKeeps(s: State, t: State)
    requires Inv(s) && Step(s, Reopen, t)
    ensures Inv(t)
  {
    OpenNextIsFresh(s.db, s.next);
  }

  /** Every step keeps the invariant; only writing the final batch shows anything to readers. */
  lemma StepKeeps(s: State, l: Label, t: State)
    requires Inv(s) && Step(s, l, t)
    ensures Grows(s, t)
    ensures !l.Commit? ==> View(t.db) == View(s.db)
  {
    match l
    case Begin(_) =>
    case Turn => TurnKeeps(s, t);
    case Commit => CommitKeeps(s, t);
    case Fail(_) =>
    case Reopen => ReopenKeeps(s, t);
  }

  lemma {:induction false} RunInv(ss: seq<State>, ls: seq<Label>, i: nat)
    requires Run(ss, ls) && Inv(ss[0]) && i < |ss|
    ensures Inv(ss[i])
  {
    if i > 0 {
      RunInv(ss, ls, i - 1);
      StepKeeps(ss[i - 1], ls[i - 1], ss[i]);
    }
  }

  lemma {:induction false} GrowsChain(ss: seq<State>, i: nat, j: nat)
    requires i <= j < |ss| && Inv(ss[i])
    requires forall k | 0 <= k < |ss| - 1 :: Grows(ss[k], ss[k + 1])
    ensures Grows(ss[i], ss[j])
    decreases j
  {
    if i < j {
      GrowsChain(ss, i, j - 1);
      assert Grows(ss[j - 1], ss[j - 1 + 1]);
    }
  }

  /** Safety over whole runs: the invariant holds throughout and the visible map only grows, with
      stored entries never changing, across puts, failures, stops and reopening. */
  lemma RunKeeps(ss: seq<State>, ls: seq<Label>, i: nat, j: nat)
    requires Run(ss, ls) && Inv(ss[0])
    requires i <= j < |ss|
    ensures Inv(ss[i]) && Inv(ss[j])
    ensures Extends(View(ss[i].db), View(ss[j].db))
  {
    forall k | 0 <= k < |ss| - 1 ensures Grows(ss[k], ss[k + 1]) {
      RunInv(ss, ls, k);
      StepKeeps(ss[k], ls[k], ss[k + 1]);
    }
    RunInv(ss, ls, i);
    GrowsChain(ss, i, j);
  }

  lemma CreatedIsGood()
    ensures Inv(CREATED)
  {
  }

  /** Distinct keys have distinct ids, in every state of every run of a created store; every id in
      any column family has a metadata row. */
  lemma ReachableIndex(ss: seq<State>, ls: seq<Label>, i: nat)
    requires Run(ss, ls) && ss[0] == CREATED && i < |ss|
    ensures var db := ss[i].db;
            && IdsNamed(db) && RowsNamed(db) && IdsBelow(db, ss[i].next) && ss[i].next <= U64_MAX
            && forall k, m | k in db.ids && m in db.ids && db.ids[k] == db.ids[m] :: k == m
  {
    CreatedIsGood();
    RunKeeps(ss, ls, i, i);
  }
}
