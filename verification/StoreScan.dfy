/** Finding every CID with a given multihash by an ordered scan over the id keys. */
module StoreScan {
  import opened Bytes
  import opened Cids
  import opened StoreModel
  import opened StoreRuns

  datatype CodeAndId = CodeAndId(code: nat, id: U64)

  /** The id keys from `from` on, in iteration order. */
  function KeysFrom(ids: map<Key, U64>, from: Key): (s: seq<Key>)
    ensures Ascending(s)
    ensures forall k :: k in s <==> k in ids && LexLeq(from, k)
  {
    SortedKeys(set k | k in ids && LexLeq(from, k))
  }

  /** The test that ends the scan. */
  predicate Belongs(k: Key, hash: seq<Byte>) {
    |k| == |hash| + 8 && hash <= k
  }

  function TakeWhile(keys: seq<Key>, hash: seq<Byte>): (s: seq<Key>)
    ensures s <= keys
    ensures forall i | 0 <= i < |s| :: Belongs(s[i], hash)
    ensures |s| < |keys| ==> !Belongs(keys[|s|], hash)
  {
    if keys == [] || !Belongs(keys[0], hash) then []
    else
      var rest := TakeWhile(keys[1..], hash);
      assert |rest| < |keys[1..]| ==> keys[1..][|rest|] == keys[|rest| + 1];
      [keys[0]] + rest
  }

  /** The keys that the scan for a multihash visits. */
  function ScanKeys(db: Db, h: Hash): seq<Key> {
    TakeWhile(KeysFrom(db.ids, HashBytes(h)), HashBytes(h))
  }

  /** `get_ids_for_hash` */
  function IdsForHash(db: Db, h: Hash): (r: seq<CodeAndId>)
    ensures |r| == |ScanKeys(db, h)|
  {
    var keys := ScanKeys(db, h);
    assert forall i | 0 <= i < |keys| :: keys[i] in db.ids && Belongs(keys[i], HashBytes(h)) by {
      forall i | 0 <= i < |keys| ensures keys[i] in db.ids {
        assert keys[i] in KeysFrom(db.ids, HashBytes(h));
      }
    }
    seq(|keys|, i requires 0 <= i < |keys| =>
      CodeAndId(FromBe(keys[i][|HashBytes(h)|..]), db.ids[keys[i]]))
  }

  /** An id key that starts with a multihash belongs to a CID with that multihash. */
  lemma StartsWithHash(db: Db, k: Key, h: Hash)
    requires IdsNamed(db) && k in db.ids
    ensures HashBytes(h) <= k <==> db.meta[db.ids[k]].hash == h
    ensures HashBytes(h) <= k ==> k == KeyOf(Meta(db.meta[db.ids[k]].codec, h)) && Belongs(k, HashBytes(h))
  {
    var m := db.meta[db.ids[k]];
    if HashBytes(h) <= k {
      HashBytesPrefixFree(h, m.hash, Be64(m.codec));
    }
  }

  /** Stopping at the first key that does not belong loses nothing, because keys with a common
      prefix are consecutive. */
  lemma TakeWhileIsFilter(keys: seq<Key>, hash: seq<Byte>, i: nat)
    requires Ascending(keys) && i < |keys|
    requires forall j | 0 <= j < |keys| :: LexLeq(hash, keys[j]) && (hash <= keys[j] ==> Belongs(keys[j], hash))
    requires hash <= keys[i]
    ensures keys[i] in TakeWhile(keys, hash)
  {
    var scan := TakeWhile(keys, hash);
    if i >= |scan| {
      var stop := keys[|scan|];
      PrefixBlockIsConsecutive(hash, stop, keys[i]);
      LexTrichotomy(keys[i], stop);
      assert false;
    }
    assert scan[i] == keys[i];
  }

  /** The scan visits exactly the keys that start with the multihash: it neither stops early nor
      takes a key of another hash. */
  lemma ScanVisits(db: Db, h: Hash, k: Key)
    requires IdsNamed(db)
    ensures k in ScanKeys(db, h) <==> k in db.ids && HashBytes(h) <= k
  {
    var hash, keys := HashBytes(h), KeysFrom(db.ids, HashBytes(h));
    if k in ScanKeys(db, h) {
      assert k in keys;
    } else if k in db.ids && hash <= k {
      PrefixSortsFirst(hash, k);
      assert k in keys;
      var i :| 0 <= i < |keys| && keys[i] == k;
      forall j | 0 <= j < |keys|
        ensures LexLeq(hash, keys[j]) && (hash <= keys[j] ==> Belongs(keys[j], hash))
      {
        assert keys[j] in keys;
        StartsWithHash(db, keys[j], h);
      }
      TakeWhileIsFilter(keys, hash, i);
    }
  }

  /** What belongs in the result: an id entry for the multihash under the code. */
  predicate IsEntry(db: Db, h: Hash, e: CodeAndId) {
    && e.code <= U64_MAX
    && KeyOf(Meta(e.code, h)) in db.ids
    && db.ids[KeyOf(Meta(e.code, h))] == e.id
  }

  lemma ScanKeyOfCode(db: Db, h: Hash, i: nat)
    requires IdsNamed(db) && i < |ScanKeys(db, h)|
    ensures IsEntry(db, h, IdsForHash(db, h)[i])
    ensures ScanKeys(db, h)[i] == KeyOf(Meta(IdsForHash(db, h)[i].code, h))
  {
    var k := ScanKeys(db, h)[i];
    ScanVisits(db, h, k);
    StartsWithHash(db, k, h);
    var codec := db.meta[db.ids[k]].codec;
    assert k[|HashBytes(h)|..] == Be64(codec);
    BeRoundTrip(codec);
  }

  lemma AppendKeepsOrder(p: seq<Byte>, a: seq<Byte>, b: seq<Byte>)
    ensures LexLess(p + a, p + b) <==> LexLess(a, b)
  {
    if p == [] {
      assert p + a == a && p + b == b;
    } else {
      AppendKeepsOrder(p[1..], a, b);
      assert (p + a)[1..] == p[1..] + a && (p + b)[1..] == p[1..] + b;
    }
  }

  lemma EntryIsFound(db: Db, h: Hash, e: CodeAndId)
    requires IdsNamed(db) && IsEntry(db, h, e)
    ensures e in IdsForHash(db, h)
  {
    var r, keys, k := IdsForHash(db, h), ScanKeys(db, h), KeyOf(Meta(e.code, h));
    ScanVisits(db, h, k);
    var i :| 0 <= i < |keys| && keys[i] == k;
    ScanKeyOfCode(db, h, i);
    IdKeyIdentifies(Meta(r[i].code, h), Meta(e.code, h));
    assert r[i] == e;
  }

  lemma CodesAscendAt(db: Db, h: Hash, i: nat, j: nat)
    requires IdsNamed(db) && i < j < |IdsForHash(db, h)|
    ensures IdsForHash(db, h)[i].code < IdsForHash(db, h)[j].code
  {
    var r := IdsForHash(db, h);
    ScanKeyOfCode(db, h, i);
    ScanKeyOfCode(db, h, j);
    AppendKeepsOrder(HashBytes(h), Be64(r[i].code), Be64(r[j].code));
    BeOrder(r[i].code, r[j].code);
  }

  /** `get_ids_for_hash` returns exactly the (code, id) pairs of all stored CIDs with the multihash,
      each once, by ascending code. */
  lemma IdsForHashExact(db: Db, h: Hash)
    requires IdsNamed(db)
    ensures forall e :: e in IdsForHash(db, h) <==> IsEntry(db, h, e)
    ensures forall i, j | 0 <= i < j < |IdsForHash(db, h)| :: IdsForHash(db, h)[i].code < IdsForHash(db, h)[j].code
  {
    var r := IdsForHash(db, h);
    forall e | e in r ensures IsEntry(db, h, e) {
      var i :| 0 <= i < |r| && r[i] == e;
      ScanKeyOfCode(db, h, i);
    }
    forall e | IsEntry(db, h, e) ensures e in r { EntryIsFound(db, h, e); }
    forall i, j | 0 <= i < j < |r| ensures r[i].code < r[j].code { CodesAscendAt(db, h, i, j); }
  }

  /** The CID with this multihash and code is stored with this blob. */
  predicate BlobUnder(db: Db, h: Hash, code: U64, blob: Blob) {
    HasKey(db, KeyOf(Meta(code, h))) && db.blobs[db.ids[KeyOf(Meta(code, h))]] == blob
  }

  /** Some stored CID has this multihash. */
  ghost predicate AnyBlob(db: Db, h: Hash) {
    exists code: U64, blob :: BlobUnder(db, h, code, blob)
  }

  ghost predicate LeastBlob(db: Db, h: Hash, code: U64, blob: Blob) {
    BlobUnder(db, h, code, blob) && forall c: U64, x | BlobUnder(db, h, c, x) :: code <= c
  }

  /** The blob of the stored CID with the smallest code. */
  ghost predicate IsLeastBlob(db: Db, h: Hash, blob: Blob) {
    exists code: U64 :: LeastBlob(db, h, code, blob)
  }

  /** Every stored CID with the multihash has its row in the scan. */
  lemma BlobHasRow(db: Db, h: Hash, code: U64, blob: Blob) returns (j: nat)
    requires IdsNamed(db) && BlobUnder(db, h, code, blob)
    ensures j < |IdsForHash(db, h)|
    ensures IdsForHash(db, h)[j].code == code && IdsForHash(db, h)[j].id in db.blobs
  {
    IdsForHashExact(db, h);
    var e := CodeAndId(code, db.ids[KeyOf(Meta(code, h))]);
    assert IsEntry(db, h, e);
    assert e in IdsForHash(db, h);
    j :| 0 <= j < |IdsForHash(db, h)| && IdsForHash(db, h)[j] == e;
  }

  lemma RowHasBlob(db: Db, h: Hash, i: nat)
    requires IdsNamed(db) && i < |IdsForHash(db, h)| && IdsForHash(db, h)[i].id in db.blobs
    ensures IdsForHash(db, h)[i].code <= U64_MAX
    ensures BlobUnder(db, h, IdsForHash(db, h)[i].code, db.blobs[IdsForHash(db, h)[i].id])
  {
    IdsForHashExact(db, h);
    assert IdsForHash(db, h)[i] in IdsForHash(db, h);
  }

  /** The first row of the scan with a blob has the smallest code of all stored CIDs. */
  lemma FirstBlobIsLeast(db: Db, h: Hash, rows: seq<CodeAndId>, i: nat)
    requires IdsNamed(db) && rows == IdsForHash(db, h) && i < |rows|
    requires forall j | 0 <= j < i :: rows[j].id !in db.blobs
    requires rows[i].id in db.blobs
    ensures IsLeastBlob(db, h, db.blobs[rows[i].id])
    ensures AnyBlob(db, h)
  {
    RowHasBlob(db, h, i);
    forall c: U64, x | BlobUnder(db, h, c, x) ensures rows[i].code <= c {
      var j := BlobHasRow(db, h, c, x);
      CodesAscend(db, h, i, j);
    }
    assert LeastBlob(db, h, rows[i].code, db.blobs[rows[i].id]);
  }

  lemma CodesAscend(db: Db, h: Hash, i: nat, j: nat)
    requires IdsNamed(db) && i <= j < |IdsForHash(db, h)|
    ensures IdsForHash(db, h)[i].code <= IdsForHash(db, h)[j].code
  {
    IdsForHashExact(db, h);
  }

  lemma NoBlobFound(db: Db, h: Hash, rows: seq<CodeAndId>)
    requires IdsNamed(db) && rows == IdsForHash(db, h)
    requires forall j | 0 <= j < |rows| :: rows[j].id !in db.blobs
    ensures !AnyBlob(db, h)
  {
    forall c: U64, x | BlobUnder(db, h, c, x) ensures false {
      var j := BlobHasRow(db, h, c, x);
    }
  }
}
