/** Bytes, the byte order that RocksDB sorts its keys by, and fixed-width big-endian integers. */
module Bytes {

  type Byte = b: nat | b < 256

  const U64_MAX: nat := 0xFFFF_FFFF_FFFF_FFFF

  type U64 = n: nat | n <= U64_MAX

  /** Lexicographic order on byte strings: a proper prefix sorts before its extensions. */
  predicate LexLess(a: seq<Byte>, b: seq<Byte>) {
    b != [] && (a == [] || a[0] < b[0] || (a[0] == b[0] && LexLess(a[1..], b[1..])))
  }

  predicate LexLeq(a: seq<Byte>, b: seq<Byte>) {
    a == b || LexLess(a, b)
  }

  predicate Ascending(keys: seq<seq<Byte>>) {
    forall i, j | 0 <= i < j < |keys| :: LexLess(keys[i], keys[j])
  }

  lemma {:induction false} LexTrichotomy(a: seq<Byte>, b: seq<Byte>)
    ensures LexLess(a, b) || a == b || LexLess(b, a)
    ensures !(LexLess(a, b) && LexLess(b, a))
    ensures a == b ==> !LexLess(a, b)
  {
    if a != [] && b != [] {
      LexTrichotomy(a[1..], b[1..]);
      assert a == [a[0]] + a[1..] && b == [b[0]] + b[1..];
    }
  }

  lemma {:induction false} LexTransitive(a: seq<Byte>, b: seq<Byte>, c: seq<Byte>)
    requires LexLess(a, b) && LexLess(b, c)
    ensures LexLess(a, c)
  {
    if a != [] && a[0] == b[0] == c[0] {
      LexTransitive(a[1..], b[1..], c[1..]);
    }
  }

  /** The strings that start with `p` are consecutive in the order: whatever is at or above `p`
      without starting with it is above all of them. */
  lemma {:induction false} PrefixBlockIsConsecutive(p: seq<Byte>, x: seq<Byte>, ext: seq<Byte>)
    requires LexLeq(p, x)
    requires !(p <= x)
    requires p <= ext
    ensures LexLess(ext, x)
  {
    assert p != [] && x != [];
    if p[0] == x[0] {
      PrefixBlockIsConsecutive(p[1..], x[1..], ext[1..]);
    }
  }

  /** A string sorts at or below each of its extensions. */
  lemma {:induction false} PrefixSortsFirst(p: seq<Byte>, ext: seq<Byte>)
    requires p <= ext
    ensures LexLeq(p, ext)
  {
    if p != [] {
      PrefixSortsFirst(p[1..], ext[1..]);
      assert p == [p[0]] + p[1..] && ext == [ext[0]] + ext[1..];
    }
  }

  /* ---- Fixed-width big-endian integers (`to_be_bytes`, `from_be_bytes`) ---- */

  function Pow256(width: nat): nat {
    if width == 0 then 1 else 256 * Pow256(width - 1)
  }

  function ToBe(n: nat, width: nat): (s: seq<Byte>)
    ensures |s| == width
  {
    if width == 0 then [] else ToBe(n / 256, width - 1) + [n % 256]
  }

  function FromBe(s: seq<Byte>): nat {
    if s == [] then 0 else 256 * FromBe(s[..|s| - 1]) + s[|s| - 1]
  }

  /** `u64::to_be_bytes` */
  function Be64(n: U64): (s: seq<Byte>)
    ensures |s| == 8
  {
    ToBe(n, 8)
  }

  lemma U64IsEightBytes()
    ensures Pow256(8) == U64_MAX + 1
  {
    assert Pow256(4) == 0x1_0000_0000;
    assert Pow256(8) == 256 * 256 * 256 * 256 * Pow256(4);
  }

  lemma {:induction false} BeRoundTripWidth(n: nat, width: nat)
    requires n < Pow256(width)
    ensures FromBe(ToBe(n, width)) == n
  {
    if width != 0 {
      BeRoundTripWidth(n / 256, width - 1);
      assert ToBe(n, width)[..width - 1] == ToBe(n / 256, width - 1);
    }
  }

  lemma BeRoundTrip(n: U64)
    ensures FromBe(Be64(n)) == n
  {
    U64IsEightBytes();
    BeRoundTripWidth(n, 8);
  }

  lemma {:induction false} LexAppend(a: seq<Byte>, b: seq<Byte>, x: Byte, y: Byte)
    requires |a| == |b|
    requires LexLess(a, b) || (a == b && x < y)
    ensures LexLess(a + [x], b + [y])
  {
    if a != [] {
      assert (a + [x])[1..] == a[1..] + [x] && (b + [y])[1..] == b[1..] + [y];
      if a[0] == b[0] {
        LexAppend(a[1..], b[1..], x, y);
      }
    }
  }

  lemma {:induction false} BeOrderWidth(n: nat, m: nat, width: nat)
    requires n < m < Pow256(width)
    ensures LexLess(ToBe(n, width), ToBe(m, width))
  {
    if n / 256 < m / 256 {
      BeOrderWidth(n / 256, m / 256, width - 1);
    }
    LexAppend(ToBe(n / 256, width - 1), ToBe(m / 256, width - 1), n % 256, m % 256);
  }

  /** Byte order of big-endian keys is numeric order. */
  lemma BeOrder(n: U64, m: U64)
    ensures LexLess(Be64(n), Be64(m)) <==> n < m
  {
    U64IsEightBytes();
    if n < m {
      BeOrderWidth(n, m, 8);
    } else {
      LexTrichotomy(Be64(n), Be64(m));
      if m < n {
        BeOrderWidth(m, n, 8);
      }
    }
  }

  /* ---- Ordered iteration over a set of keys ---- */

  lemma {:induction false} LeastKeyExists(keys: set<seq<Byte>>)
    requires keys != {}
    ensures exists k :: k in keys && forall o | o in keys :: LexLeq(k, o)
  {
    var k :| k in keys;
    var rest := keys - {k};
    if rest == {} {
      assert keys == {k};
    } else {
      LeastKeyExists(rest);
      var m :| m in rest && forall o | o in rest :: LexLeq(m, o);
      LexTrichotomy(k, m);
      var least := if LexLess(k, m) then k else m;
      forall o | o in keys ensures LexLeq(least, o) {
        if o != k && least == k && o != m {
          assert o in rest && LexLeq(m, o);
          LexTransitive(k, m, o);
        }
      }
    }
  }

  lemma LeastKeyUnique(keys: set<seq<Byte>>, a: seq<Byte>, b: seq<Byte>)
    requires a in keys && forall o | o in keys :: LexLeq(a, o)
    requires b in keys && forall o | o in keys :: LexLeq(b, o)
    ensures a == b
  {
    LexTrichotomy(a, b);
  }

  function LeastKey(keys: set<seq<Byte>>): (k: seq<Byte>)
    requires keys != {}
    ensures k in keys && forall o | o in keys :: LexLeq(k, o)
  {
    LeastKeyExists(keys);
    assert forall a, b | a in keys && b in keys
        && (forall o | o in keys :: LexLeq(a, o)) && (forall o | o in keys :: LexLeq(b, o)) :: a == b by {
      forall a, b | a in keys && b in keys
        && (forall o | o in keys :: LexLeq(a, o)) && (forall o | o in keys :: LexLeq(b, o))
        ensures a == b
      { LeastKeyUnique(keys, a, b); }
    }
    var k :| k in keys && forall o | o in keys :: LexLeq(k, o);
    k
  }

  /** The keys in the order a RocksDB iterator visits them. */
  function SortedKeys(keys: set<seq<Byte>>): (s: seq<seq<Byte>>)
    ensures forall k :: k in s <==> k in keys
    ensures Ascending(s)
    ensures |s| == |keys|
  {
    if keys == {} then []
    else
      var k := LeastKey(keys);
      var rest := SortedKeys(keys - {k});
      assert forall i | 0 <= i < |rest| :: LexLess(k, rest[i]) by {
        forall i | 0 <= i < |rest| ensures LexLess(k, rest[i]) {
          assert rest[i] in keys - {k};
        }
      }
      [k] + rest
  }
}
