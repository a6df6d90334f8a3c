/** Unsigned LEB128 variable-length integers, as the `unsigned-varint` crate (CIDs, multihashes,
    bitswap prefixes) and the `integer-encoding` crate (CAR section lengths) read them. */
module Varint {
  import opened Bytes

  /** Longest encoding of a u64. */
  const MAX_LEN: nat := 10

  datatype Decoded =
    | Value(value: U64, len: nat)
    | Truncated
    | NotMinimal
    | Overflow

  function Encode(n: nat): (s: seq<Byte>)
    ensures |s| > 0
    ensures forall i | 0 <= i < |s| - 1 :: s[i] >= 128
    ensures s[|s| - 1] < 128
  {
    if n < 128 then [n] else [128 + n % 128] + Encode(n / 128)
  }

  /** Puts the seven bits of one more low byte under an already decoded value. */
  function Prepend(b: Byte, rest: Decoded): (d: Decoded)
    requires b >= 128
  {
    match rest
    case Value(v, len) => Value((b - 128 + 128 * v) % (U64_MAX + 1), len + 1)
    case _ => rest
  }

  /** `unsigned_varint::decode::u64`: refuses a redundant final zero and an eleventh byte. */
  function DecodeFrom(s: seq<Byte>, i: nat): (d: Decoded)
    requires i < MAX_LEN
    decreases MAX_LEN - i
    ensures d.Value? ==> 0 < d.len <= |s|
  {
    if s == [] then Truncated
    else if s[0] < 128 then
      if s[0] == 0 && i > 0 then NotMinimal else Value(s[0], 1)
    else if i == MAX_LEN - 1 then Overflow
    else Prepend(s[0], DecodeFrom(s[1..], i + 1))
  }

  function Decode(s: seq<Byte>): (d: Decoded)
    ensures d.Value? ==> 0 < d.len <= |s|
  {
    DecodeFrom(s, 0)
  }

  /** `read_varint_async` of `integer-encoding`: accepts redundant zeros, and notices a missing
      terminator only when an eleventh byte arrives. */
  function ReadFrom(s: seq<Byte>, i: nat): (d: Decoded)
    requires i <= MAX_LEN
    decreases MAX_LEN - i
    ensures d.Value? ==> 0 < d.len <= |s|
  {
    if s == [] then Truncated
    else if i == MAX_LEN then Overflow
    else if s[0] < 128 then Value(s[0], 1)
    else Prepend(s[0], ReadFrom(s[1..], i + 1))
  }

  function Read(s: seq<Byte>): (d: Decoded)
    ensures d.Value? ==> 0 < d.len <= |s|
  {
    ReadFrom(s, 0)
  }

  /** Bound on values whose encoding still fits when `i` bytes have been read. */
  function Room(i: nat): nat
    requires i <= MAX_LEN
    decreases MAX_LEN - i
  {
    if i == MAX_LEN then 1 else 128 * Room(i + 1)
  }

  lemma U64HasRoom()
    ensures U64_MAX < Room(0)
  {
    assert Room(6) == 128 * 128 * 128 * 128;
    assert Room(3) == 128 * 128 * 128 * Room(6);
    assert Room(0) == 128 * 128 * 128 * Room(3);
  }

  lemma PrependBits(n: U64, len: nat)
    ensures Prepend(128 + n % 128, Value(n / 128, len)) == Value(n, len + 1)
  {
    assert n % 128 + 128 * (n / 128) == n;
  }

  lemma QuotientBelow(n: nat, bound: nat)
    requires n < 128 * bound
    ensures n / 128 < bound
  {
  }

  lemma EncodeTail(n: nat, rest: seq<Byte>)
    requires n >= 128
    ensures (Encode(n) + rest)[0] == 128 + n % 128
    ensures (Encode(n) + rest)[1..] == Encode(n / 128) + rest
  {
    ConsAppend(128 + n % 128, Encode(n / 128), rest);
  }

  lemma ConsAppend(x: Byte, xs: seq<Byte>, rest: seq<Byte>)
    ensures ([x] + xs + rest)[0] == x && ([x] + xs + rest)[1..] == xs + rest
  {
  }

  lemma ConsCut(x: Byte, xs: seq<Byte>, k: nat)
    requires 0 < k <= |xs| + 1
    ensures ([x] + xs)[..k][0] == x && ([x] + xs)[..k][1..] == xs[..k - 1]
  {
  }

  lemma {:induction false} DecodeEncodeFrom(n: U64, rest: seq<Byte>, i: nat)
    requires i < MAX_LEN && n < Room(i)
    requires n > 0 || i == 0
    ensures DecodeFrom(Encode(n) + rest, i) == Value(n, |Encode(n)|)
    decreases n
  {
    if n >= 128 {
      QuotientBelow(n, Room(i + 1));
      DecodeEncodeFrom(n / 128, rest, i + 1);
      EncodeTail(n, rest);
      PrependBits(n, |Encode(n / 128)|);
    }
  }

  /** Decoding is the inverse of encoding and stops exactly at the end of the encoding. */
  lemma DecodeEncode(n: U64, rest: seq<Byte>)
    ensures Decode(Encode(n) + rest) == Value(n, |Encode(n)|)
  {
    U64HasRoom();
    DecodeEncodeFrom(n, rest, 0);
  }

  lemma {:induction false} ReadEncodeFrom(n: U64, rest: seq<Byte>, i: nat)
    requires i < MAX_LEN && n < Room(i)
    ensures ReadFrom(Encode(n) + rest, i) == Value(n, |Encode(n)|)
    decreases n
  {
    if n >= 128 {
      QuotientBelow(n, Room(i + 1));
      ReadEncodeFrom(n / 128, rest, i + 1);
      EncodeTail(n, rest);
      PrependBits(n, |Encode(n / 128)|);
    }
  }

  lemma ReadEncode(n: U64, rest: seq<Byte>)
    ensures Read(Encode(n) + rest) == Value(n, |Encode(n)|)
  {
    U64HasRoom();
    ReadEncodeFrom(n, rest, 0);
  }

  lemma CutTail(n: nat, k: nat)
    requires n >= 128 && 0 < k < |Encode(n)|
    ensures Encode(n)[..k][0] >= 128
    ensures Encode(n)[..k][1..] == Encode(n / 128)[..k - 1]
  {
    ConsCut(128 + n % 128, Encode(n / 128), k);
  }

  lemma {:induction false} ReadCutFrom(n: U64, k: nat, i: nat)
    requires i < MAX_LEN && n < Room(i)
    requires k < |Encode(n)|
    ensures ReadFrom(Encode(n)[..k], i) == Truncated
    decreases n
  {
    if k > 0 {
      QuotientBelow(n, Room(i + 1));
      ReadCutFrom(n / 128, k - 1, i + 1);
      CutTail(n, k);
    }
  }

  /** Any proper prefix of an encoding reads as the end of the input. */
  lemma ReadCut(n: U64, k: nat)
    requires k < |Encode(n)|
    ensures Read(Encode(n)[..k]) == Truncated
  {
    U64HasRoom();
    ReadCutFrom(n, k, 0);
  }

  lemma {:induction false} DecodeCutFrom(n: U64, k: nat, i: nat)
    requires i < MAX_LEN && n < Room(i)
    requires k < |Encode(n)|
    ensures DecodeFrom(Encode(n)[..k], i) == Truncated
    decreases n
  {
    if k > 0 {
      QuotientBelow(n, Room(i + 1));
      CutTail(n, k);
      if i < MAX_LEN - 1 {
        DecodeCutFrom(n / 128, k - 1, i + 1);
      }
    }
  }

  lemma DecodeCut(n: U64, k: nat)
    requires k < |Encode(n)|
    ensures Decode(Encode(n)[..k]) == Truncated
  {
    U64HasRoom();
    DecodeCutFrom(n, k, 0);
  }

  /** The first `n` bytes say that more follow. */
  predicate Unended(s: seq<Byte>, n: nat)
    requires n <= |s|
  {
    forall i | 0 <= i < n :: s[i] >= 128
  }

  /** What `read_varint_async` makes of any input, when `i` bytes have been read. */
  lemma {:induction false} ReadFromIs(s: seq<Byte>, i: nat)
    requires i <= MAX_LEN
    ensures var d := ReadFrom(s, i);
            && (d.Truncated? <==> |s| <= MAX_LEN - i && Unended(s, |s|))
            && (d.Overflow? <==> |s| > MAX_LEN - i && Unended(s, MAX_LEN - i))
            && (d.Value? ==> d.len <= MAX_LEN - i && Unended(s, d.len - 1) && s[d.len - 1] < 128)
            && !d.NotMinimal?
    decreases MAX_LEN - i
  {
    if s != [] && i < MAX_LEN && s[0] >= 128 {
      var d := ReadFrom(s[1..], i + 1);
      ReadFromIs(s[1..], i + 1);
      UnendedTail(s, |s|);
      if |s| > MAX_LEN - i {
        UnendedTail(s, MAX_LEN - i);
      }
      if d.Value? {
        UnendedTail(s, d.len);
      }
    }
  }

  lemma UnendedTail(s: seq<Byte>, n: nat)
    requires 0 < n <= |s| && s[0] >= 128
    ensures Unended(s, n) <==> Unended(s[1..], n - 1)
  {
    if Unended(s[1..], n - 1) {
      forall i | 0 < i < n ensures s[i] >= 128 {
        assert s[i] == s[1..][i - 1];
      }
    }
  }

  /** Every input: it is cut short if it ends within ten bytes that all say that more follow, and it overflows
      if ten such bytes are followed by anything; otherwise a number is read. */
  lemma ReadIs(s: seq<Byte>)
    ensures Read(s).Truncated? <==> |s| <= MAX_LEN && Unended(s, |s|)
    ensures Read(s).Overflow? <==> |s| > MAX_LEN && Unended(s, MAX_LEN)
    ensures Read(s).Value? ==> Unended(s, Read(s).len - 1) && s[Read(s).len - 1] < 128
    ensures !Read(s).NotMinimal?
  {
    ReadFromIs(s, 0);
  }

  /** The encoding at the front ends in a byte that adds nothing. */
  predicate Redundant(s: seq<Byte>, d: Decoded, i: nat) {
    d.Value? && 0 < d.len <= |s| && i + d.len > 1 && s[d.len - 1] == 0
  }

  lemma {:induction false} DecodeFromIs(s: seq<Byte>, i: nat)
    requires i < MAX_LEN
    ensures var d, r := DecodeFrom(s, i), ReadFrom(s, i);
            && (d.Value? <==> r.Value? && !Redundant(s, r, i))
            && (d.Value? ==> d == r)
            && (d.NotMinimal? <==> Redundant(s, r, i))
            && (d.Truncated? <==> |s| < MAX_LEN - i && Unended(s, |s|))
    decreases MAX_LEN - i
  {
    if s != [] && s[0] >= 128 {
      UnendedTail(s, |s|);
      if i < MAX_LEN - 1 {
        DecodeFromIs(s[1..], i + 1);
      }
    }
  }

  /** The two readers agree on what they both accept. The one of `unsigned-varint` refuses besides a final byte
      that adds nothing, and it notices a missing terminator at the tenth byte and not at the eleventh. */
  lemma DecodeIs(s: seq<Byte>)
    ensures Decode(s).Value? <==> Read(s).Value? && !Redundant(s, Read(s), 0)
    ensures Decode(s).Value? ==> Decode(s) == Read(s)
    ensures Decode(s).NotMinimal? <==> Redundant(s, Read(s), 0)
    ensures Decode(s).Truncated? <==> |s| < MAX_LEN && Unended(s, |s|)
    ensures Decode(s).Overflow? <==> |s| >= MAX_LEN && Unended(s, MAX_LEN)
  {
    DecodeFromIs(s, 0);
    ReadIs(s);
  }
}
