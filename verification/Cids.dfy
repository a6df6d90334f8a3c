/** Content identifiers and multihashes with their byte forms, following the CID and multihash
    specifications as the `cid` and `multihash` crates implement them. */
module Cids {
  import opened Bytes
  import Varint

  const MAX_DIGEST: nat := 64
  const DAG_PB: nat := 0x70
  const SHA2_256: nat := 0x12
  const SHA2_256_SIZE: nat := 32

  datatype Version = V0 | V1

  datatype RawMultihash = Multihash(code: U64, digest: seq<Byte>)
  type Hash = h: RawMultihash | |h.digest| <= MAX_DIGEST witness Multihash(0, [])

  datatype RawCid = MakeCid(version: Version, codec: U64, hash: Hash)

  predicate IsV0Form(codec: U64, hash: Hash) {
    codec == DAG_PB && hash.code == SHA2_256 && |hash.digest| == SHA2_256_SIZE
  }

  /** A version 0 CID is always a dag-pb sha2-256 one. */
  type Cid = c: RawCid | c.version.V0? ==> IsV0Form(c.codec, c.hash)
    witness MakeCid(V1, 0, Multihash(0, []))

  datatype CidResult = Ok(cid: Cid, len: nat) | Bad

  /** `Cid::new`: a version 0 CID must have the version 0 form. */
  function NewCid(version: Version, codec: U64, hash: Hash): (r: CidResult)
    ensures r.Ok? <==> (version.V0? ==> IsV0Form(codec, hash))
    ensures r.Ok? ==> r == Ok(MakeCid(version, codec, hash), 0)
  {
    if version.V0? && !IsV0Form(codec, hash) then Bad else Ok(MakeCid(version, codec, hash), 0)
  }

  function VersionNumber(v: Version): U64 {
    if v.V0? then 0 else 1
  }

  /* ---- Multihash bytes ---- */

  function HashBytes(h: Hash): (s: seq<Byte>) {
    Varint.Encode(h.code) + Varint.Encode(|h.digest|) + h.digest
  }

  datatype HashResult = HashOk(hash: Hash, len: nat) | HashBad

  /** `Multihash::read` */
  function ReadHash(s: seq<Byte>): (r: HashResult)
    ensures r.HashOk? ==> r.len <= |s|
  {
    match Varint.Decode(s)
    case Value(code, n) =>
      (match Varint.Decode(s[n..])
       case Value(size, m) =>
         var digest := s[n + m..];
         if size > MAX_DIGEST || size > |digest| then HashBad
         else HashOk(Multihash(code, digest[..size]), n + m + size)
       case _ => HashBad)
    case _ => HashBad
  }

  /** Two varints in a row are read back one after the other. */
  lemma TwoVarints(x: U64, y: U64, rest: seq<Byte>)
    ensures var s := Varint.Encode(x) + Varint.Encode(y) + rest;
            var n, m := |Varint.Encode(x)|, |Varint.Encode(y)|;
            && Varint.Decode(s) == Varint.Value(x, n)
            && Varint.Decode(s[n..]) == Varint.Value(y, m)
            && s[n + m..] == rest
  {
    var a, b := Varint.Encode(x), Varint.Encode(y);
    var s := a + b + rest;
    Varint.DecodeEncode(x, b + rest);
    assert s == a + (b + rest);
    Varint.DecodeEncode(y, rest);
    assert s[|a|..] == b + rest;
  }

  /** A multihash is recovered from any byte string it starts, so no multihash encoding is a
      prefix of another one. */
  lemma HashRoundTrip(h: Hash, rest: seq<Byte>)
    ensures ReadHash(HashBytes(h) + rest) == HashOk(h, |HashBytes(h)|)
  {
    TwoVarints(h.code, |h.digest|, h.digest + rest);
    assert (h.digest + rest)[..|h.digest|] == h.digest;
    Regroup(Varint.Encode(h.code), Varint.Encode(|h.digest|), h.digest, rest);
  }

  lemma HashBytesPrefixFree(h: Hash, g: Hash, rest: seq<Byte>)
    requires HashBytes(h) <= HashBytes(g) + rest
    ensures h == g
  {
    var s := HashBytes(g) + rest;
    assert s == HashBytes(h) + s[|HashBytes(h)|..];
    HashRoundTrip(h, s[|HashBytes(h)|..]);
    HashRoundTrip(g, rest);
  }

  /* ---- CID bytes ---- */

  /** `Cid::to_bytes` and `Cid::write_bytes` */
  function CidBytes(c: Cid): (s: seq<Byte>) {
    if c.version.V0? then HashBytes(c.hash)
    else Varint.Encode(1) + Varint.Encode(c.codec) + HashBytes(c.hash)
  }

  /** `Cid::read_bytes` */
  function ReadCid(s: seq<Byte>): (r: CidResult)
    ensures r.Ok? ==> r.len <= |s|
  {
    match Varint.Decode(s)
    case Value(version, n) =>
      (match Varint.Decode(s[n..])
       case Value(codec, m) =>
         if version == SHA2_256 && codec == SHA2_256_SIZE then
           var digest := s[n + m..];
           if SHA2_256_SIZE > |digest| then Bad
           else Ok(MakeCid(V0, DAG_PB, Multihash(SHA2_256, digest[..SHA2_256_SIZE])), n + m + SHA2_256_SIZE)
         else if version != 1 then Bad
         else (match ReadHash(s[n + m..])
               case HashOk(hash, k) => Ok(MakeCid(V1, codec, hash), n + m + k)
               case HashBad => Bad)
       case _ => Bad)
    case _ => Bad
  }

  lemma CidRoundTripV0(c: Cid, rest: seq<Byte>)
    requires c.version.V0?
    ensures ReadCid(CidBytes(c) + rest) == Ok(c, |CidBytes(c)|)
  {
    var d := c.hash.digest;
    TwoVarints(SHA2_256, SHA2_256_SIZE, d + rest);
    assert (d + rest)[..SHA2_256_SIZE] == d;
    Regroup(Varint.Encode(SHA2_256), Varint.Encode(SHA2_256_SIZE), d, rest);
  }

  /** Behind the version and codec of a version 1 CID only the multihash is left to read. */
  lemma ReadV1(codec: U64, rest: seq<Byte>)
    ensures ReadCid(Varint.Encode(1) + Varint.Encode(codec) + rest) ==
            var r := ReadHash(rest);
            if r.HashOk? then Ok(MakeCid(V1, codec, r.hash), |Varint.Encode(1)| + |Varint.Encode(codec)| + r.len)
            else Bad
  {
    TwoVarints(1, codec, rest);
  }

  lemma Regroup(a: seq<Byte>, b: seq<Byte>, c: seq<Byte>, d: seq<Byte>)
    ensures a + b + c + d == a + b + (c + d)
  {
  }

  lemma CidRoundTripV1(c: Cid, rest: seq<Byte>)
    requires c.version.V1?
    ensures ReadCid(CidBytes(c) + rest) == Ok(c, |CidBytes(c)|)
  {
    HashRoundTrip(c.hash, rest);
    ReadV1(c.codec, HashBytes(c.hash) + rest);
    Regroup(Varint.Encode(1), Varint.Encode(c.codec), HashBytes(c.hash), rest);
  }

  lemma CidRoundTrip(c: Cid, rest: seq<Byte>)
    ensures ReadCid(CidBytes(c) + rest) == Ok(c, |CidBytes(c)|)
  {
    if c.version.V0? { CidRoundTripV0(c, rest); } else { CidRoundTripV1(c, rest); }
  }

  lemma CidReadsBack(c: Cid)
    ensures ReadCid(CidBytes(c)) == Ok(c, |CidBytes(c)|)
  {
    CidRoundTrip(c, []);
    assert CidBytes(c) + [] == CidBytes(c);
  }

  /* ---- What is not a CID ---- */

  lemma CutConcat(a: seq<Byte>, b: seq<Byte>, k: nat)
    requires k <= |a| + |b|
    ensures (a + b)[..k] == if k <= |a| then a[..k] else a + b[..k - |a|]
  {
  }

  lemma CutBehind(a: seq<Byte>, b: seq<Byte>, k: nat)
    requires k <= |b|
    ensures (a + b)[..|a| + k] == a + b[..k]
  {
  }

  /** Two varints cut short. */
  lemma TwoVarintsCut(x: U64, y: U64, rest: seq<Byte>, k: nat)
    requires k < |Varint.Encode(x)| + |Varint.Encode(y)|
    ensures var s := (Varint.Encode(x) + Varint.Encode(y) + rest)[..k];
            Varint.Decode(s).Value? ==> Varint.Decode(s[Varint.Decode(s).len..]).Truncated?
  {
    var a, b := Varint.Encode(x), Varint.Encode(y);
    var s := (a + b + rest)[..k];
    if k < |a| {
      assert s == a[..k];
      Varint.DecodeCut(x, k);
    } else {
      assert s == a + b[..k - |a|];
      Varint.DecodeEncode(x, b[..k - |a|]);
      Varint.DecodeCut(y, k - |a|);
      assert s[|a|..] == b[..k - |a|];
    }
  }

  lemma HashCut(h: Hash, k: nat)
    requires k < |HashBytes(h)|
    ensures ReadHash(HashBytes(h)[..k]).HashBad?
  {
    if k < |Varint.Encode(h.code)| + |Varint.Encode(|h.digest|)| {
      TwoVarintsCut(h.code, |h.digest|, h.digest, k);
    } else {
      DigestCut(h, k);
    }
  }

  lemma DigestCut(h: Hash, k: nat)
    requires |Varint.Encode(h.code)| + |Varint.Encode(|h.digest|)| <= k < |HashBytes(h)|
    ensures ReadHash(HashBytes(h)[..k]).HashBad?
  {
    var head := Varint.Encode(h.code) + Varint.Encode(|h.digest|);
    var part := h.digest[..k - |head|];
    TwoVarints(h.code, |h.digest|, part);
    assert HashBytes(h)[..k] == head + part by { CutConcat(head, h.digest, k); }
  }

  lemma CidCutV0(c: Cid, k: nat)
    requires c.version.V0? && k < |CidBytes(c)|
    ensures ReadCid(CidBytes(c)[..k]).Bad?
  {
    var n := |Varint.Encode(SHA2_256)| + |Varint.Encode(SHA2_256_SIZE)|;
    if k < n {
      TwoVarintsCut(SHA2_256, SHA2_256_SIZE, c.hash.digest, k);
    } else {
      CutConcat(Varint.Encode(SHA2_256) + Varint.Encode(SHA2_256_SIZE), c.hash.digest, k);
      TwoVarints(SHA2_256, SHA2_256_SIZE, c.hash.digest[..k - n]);
    }
  }

  /** Behind the head of a version 1 CID there is no multihash. */
  lemma BadHashBad(s: seq<Byte>, codec: U64, rest: seq<Byte>)
    requires s == Varint.Encode(1) + Varint.Encode(codec) + rest && ReadHash(rest).HashBad?
    ensures ReadCid(s).Bad?
  {
    ReadV1(codec, rest);
  }

  lemma CidCutV1(c: Cid, k: nat)
    requires c.version.V1? && k < |CidBytes(c)|
    ensures ReadCid(CidBytes(c)[..k]).Bad?
  {
    var n := |Varint.Encode(1) + Varint.Encode(c.codec)|;
    if k < n {
      TwoVarintsCut(1, c.codec, HashBytes(c.hash), k);
    } else {
      HashCut(c.hash, k - n);
      CutBehind(Varint.Encode(1) + Varint.Encode(c.codec), HashBytes(c.hash), k - n);
      BadHashBad(CidBytes(c)[..k], c.codec, HashBytes(c.hash)[..k - n]);
    }
  }

  /** The bytes of a CID cut short are not a CID. */
  lemma CidCut(c: Cid, k: nat)
    requires k < |CidBytes(c)|
    ensures ReadCid(CidBytes(c)[..k]).Bad?
  {
    if c.version.V0? { CidCutV0(c, k); } else { CidCutV1(c, k); }
  }

  /** Two varints in front that are neither version 1 and a codec nor the multihash head of a version 0 CID. */
  lemma OtherVersionsBad(version: U64, codec: U64, rest: seq<Byte>)
    requires version != 1 && !(version == SHA2_256 && codec == SHA2_256_SIZE)
    ensures ReadCid(Varint.Encode(version) + Varint.Encode(codec) + rest).Bad?
  {
    TwoVarints(version, codec, rest);
  }
}
