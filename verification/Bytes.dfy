/** Fixed-width integers, little-endian fields and flattening, shared by every layer. */
module Bytes {

  type byte = x: int | 0 <= x < 0x100
  type u32 = x: int | 0 <= x < TWO32
  type u64 = x: int | 0 <= x < TWO64
  type i64 = x: int | -TWO63 <= x < TWO63

  const TWO32: int := 0x1_0000_0000
  const TWO63: int := 0x8000_0000_0000_0000
  const TWO64: int := 0x1_0000_0000_0000_0000

  datatype Option<+T> = None | Some(value: T)

  function Max(a: int, b: int): int { if a >= b then a else b }

  function Min(a: int, b: int): int { if a <= b then a else b }

  /** Two's complement truncation to 64 bits: what release-mode `i64` arithmetic leaves behind. */
  function WrapI64(x: int): (r: i64)
    ensures -TWO63 <= x < TWO63 ==> r == x
    ensures (r - x) % TWO64 == 0
  {
    var m := x % TWO64;
    if m < TWO63 then m else m - TWO64
  }

  function NextU32(x: u32): u32 { if x == TWO32 - 1 then 0 else x + 1 }

  // ----- little-endian fields -----

  function Pow256(n: nat): (r: nat)
    ensures r > 0
  {
    if n == 0 then 1 else 0x100 * Pow256(n - 1)
  }

  /** The `n` low bytes of `v`, least significant first. */
  function Le(v: nat, n: nat): (r: seq<byte>)
    ensures |r| == n
  {
    if n == 0 then [] else [v % 0x100] + Le(v / 0x100, n - 1)
  }

  function FromLe(s: seq<byte>): (r: nat)
    ensures r < Pow256(|s|)
  {
    if s == [] then 0 else s[0] + 0x100 * FromLe(s[1..])
  }

  lemma {:induction false} FromLeOfLe(v: nat, n: nat)
    requires v < Pow256(n)
    ensures FromLe(Le(v, n)) == v
  {
    if n > 0 {
      FromLeOfLe(v / 0x100, n - 1);
      assert Le(v, n)[1..] == Le(v / 0x100, n - 1);
    }
  }

  lemma {:induction false} LeOfFromLe(s: seq<byte>)
    ensures Le(FromLe(s), |s|) == s
  {
    if s != [] {
      LeOfFromLe(s[1..]);
      assert FromLe(s) % 0x100 == s[0] && FromLe(s) / 0x100 == FromLe(s[1..]);
    }
  }

  lemma Pow256Values()
    ensures Pow256(4) == TWO32 && Pow256(8) == TWO64
  {
    assert Pow256(2) == 0x1_0000;
    assert Pow256(4) == TWO32;
    assert Pow256(6) == 0x1_0000_0000_0000;
  }

  const ZERO_U32: seq<byte> := [0, 0, 0, 0]
  const ZERO_U64: seq<byte> := [0, 0, 0, 0, 0, 0, 0, 0]

  function LeU32(v: u32): (r: seq<byte>)
    ensures |r| == 4
  {
    Le(v, |ZERO_U32|)
  }

  function LeU64(v: u64): (r: seq<byte>)
    ensures |r| == 8
  {
    Le(v, |ZERO_U64|)
  }

  /** The bit pattern of a signed 64-bit value read as an unsigned one. */
  function AsU64(v: i64): u64 { if v >= 0 then v else v + TWO64 }

  function AsI64(v: u64): i64 { if v < TWO63 then v else v - TWO64 }

  function LeI64(v: i64): (r: seq<byte>)
    ensures |r| == 8
  {
    LeU64(AsU64(v))
  }

  function ReadU32(s: seq<byte>): u32
    requires |s| == 4
  {
    Pow256Values();
    FromLe(s)
  }

  function ReadU64(s: seq<byte>): u64
    requires |s| == 8
  {
    Pow256Values();
    FromLe(s)
  }

  function ReadI64(s: seq<byte>): i64
    requires |s| == 8
  {
    AsI64(ReadU64(s))
  }

  lemma U32RoundTrip(v: u32)
    ensures ReadU32(LeU32(v)) == v
  {
    Pow256Values();
    FromLeOfLe(v, |ZERO_U32|);
  }

  lemma U64RoundTrip(v: u64)
    ensures ReadU64(LeU64(v)) == v
  {
    Pow256Values();
    FromLeOfLe(v, |ZERO_U64|);
  }

  lemma I64RoundTrip(v: i64)
    ensures ReadI64(LeI64(v)) == v
  {
    U64RoundTrip(AsU64(v));
  }

  lemma U32Rewrite(s: seq<byte>)
    requires |s| == 4
    ensures LeU32(ReadU32(s)) == s
  {
    LeOfFromLe(s);
  }

  lemma U64Rewrite(s: seq<byte>)
    requires |s| == 8
    ensures LeU64(ReadU64(s)) == s
  {
    LeOfFromLe(s);
  }

  lemma I64Rewrite(s: seq<byte>)
    requires |s| == 8
    ensures LeI64(ReadI64(s)) == s
  {
    U64Rewrite(s);
  }

  // ----- sequences -----

  lemma Assoc<T>(a: seq<T>, b: seq<T>, c: seq<T>)
    ensures (a + b) + c == a + (b + c)
  {}

  lemma PlusNil<T>(a: seq<T>)
    ensures a + [] == a && [] + a == a
  {}

  lemma DropHead<T>(s: seq<T>, at: nat, head: seq<T>, tail: seq<T>)
    requires at <= |s| && s[at..] == head + tail
    ensures at + |head| <= |s| && s[at + |head|..] == tail
  {
    assert s[at..][|head|..] == tail;
  }

  lemma UnSnoc<T>(a: seq<T>, x: T)
    ensures (a + [x])[..|a|] == a && (a + [x])[|a|] == x && |a + [x]| == |a| + 1
  {}

  lemma SplitLast<T>(s: seq<T>)
    requires s != []
    ensures s == s[..|s| - 1] + [s[|s| - 1]]
  {}

  lemma ConcatTail<T>(a: seq<T>, b: seq<T>)
    requires a != []
    ensures (a + b)[0] == a[0] && (a + b)[1..] == a[1..] + b
  {}

  lemma ConcatFront<T>(a: seq<T>, b: seq<T>)
    requires b != []
    ensures (a + b)[..|a + b| - 1] == a + b[..|b| - 1] && (a + b)[|a + b| - 1] == b[|b| - 1]
  {}

  function Flatten<T>(ss: seq<seq<T>>): seq<T>
  {
    if ss == [] then [] else ss[0] + Flatten(ss[1..])
  }

  lemma {:induction false} FlattenConcat<T>(a: seq<seq<T>>, b: seq<seq<T>>)
    ensures Flatten(a + b) == Flatten(a) + Flatten(b)
  {
    if a == [] {
      assert a + b == b;
    } else {
      FlattenConcat(a[1..], b);
      ConcatTail(a, b);
      Assoc(a[0], Flatten(a[1..]), Flatten(b));
    }
  }

  lemma FlattenSnoc<T>(a: seq<seq<T>>, x: seq<T>)
    ensures Flatten(a + [x]) == Flatten(a) + x
  {
    FlattenConcat(a, [x]);
    assert Flatten([x]) == x + Flatten<T>([]);
  }

  /** The sum of a page's lacing values: the length of its body. */
  function Sum(lacing: seq<byte>): nat
  {
    if lacing == [] then 0 else lacing[0] + Sum(lacing[1..])
  }

  lemma {:induction false} SumConcat(a: seq<byte>, b: seq<byte>)
    ensures Sum(a + b) == Sum(a) + Sum(b)
  {
    if a == [] {
      assert a + b == b;
    } else {
      SumConcat(a[1..], b);
      assert (a + b)[1..] == a[1..] + b;
    }
  }

  /** Which byte goes where: the least significant first. */
  lemma LittleEndian(v: u32)
    ensures LeU32(v) == [v % 0x100, v / 0x100 % 0x100, v / 0x1_0000 % 0x100, v / 0x100_0000]
  {
    var a, b, c := v / 0x100, v / 0x1_0000, v / 0x100_0000;
    assert a / 0x100 == b && b / 0x100 == c && c < 0x100;
    assert Le(c, 1) == [c];
    assert Le(b, 2) == [b % 0x100, c];
    assert Le(a, 3) == [a % 0x100, b % 0x100, c];
  }
}
