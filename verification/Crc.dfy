/**
 The Ogg page checksum (section 6, field 7, of RFC 3533): the slice-by-4 table loop
 against bit-serial division by the generator polynomial. A register or a message is the
 sequence of its bits, most significant first.
 */
module Crc {
  import opened Bytes

  type Bits = seq<bool>
  type Word = b: Bits | |b| == 32 witness seq(32, _ => false)

  const CRC_FIELD_OFFSET := 22
  const CRC_FIELD_LEN := 4

  // ----- numbers and their bits -----

  /** The `n` low bits of `v`, most significant first. */
  function BitsOf(v: nat, n: nat): (r: Bits)
    ensures |r| == n
  {
    if n == 0 then [] else BitsOf(v / 2, n - 1) + [v % 2 == 1]
  }

  function Pow2(n: nat): (r: nat)
    ensures r > 0
  {
    if n == 0 then 1 else 2 * Pow2(n - 1)
  }

  function Value(b: Bits): (r: nat)
    ensures r < Pow2(|b|)
  {
    if b == [] then 0 else 2 * Value(b[..|b| - 1]) + if b[|b| - 1] then 1 else 0
  }

  lemma {:induction false} ValueOfBits(v: nat, n: nat)
    requires v < Pow2(n)
    ensures Value(BitsOf(v, n)) == v
  {
    if n > 0 {
      ValueOfBits(v / 2, n - 1);
      assert BitsOf(v, n)[..n - 1] == BitsOf(v / 2, n - 1);
    }
  }

  lemma {:induction false} BitsOfValue(b: Bits)
    ensures BitsOf(Value(b), |b|) == b
  {
    if b != [] {
      var front := b[..|b| - 1];
      BitsOfValue(front);
      assert Value(b) / 2 == Value(front);
      assert b == front + [b[|b| - 1]];
    }
  }

  lemma Pow2Values()
    ensures Pow2(8) == 0x100 && Pow2(32) == TWO32
  {
    assert Pow2(8) == 0x100;
    assert Pow2(16) == 0x1_0000;
    assert Pow2(24) == 0x100_0000;
    assert Pow2(32) == TWO32;
  }

  /** A byte's position in a 256-entry table. */
  function Index(b: Bits): (i: nat)
    requires |b| == 8
    ensures i < 0x100
  {
    Pow2Values();
    Value(b)
  }

  function AsU32(w: Word): u32
  {
    Pow2Values();
    Value(w)
  }

  function Zeros(n: nat): (r: Bits)
    ensures |r| == n && forall i :: 0 <= i < n ==> !r[i]
  {
    seq(n, _ => false)
  }

  function Xor(a: Bits, b: Bits): (r: Bits)
    requires |a| == |b|
    ensures |r| == |a| && forall i :: 0 <= i < |a| ==> r[i] == (a[i] != b[i])
  {
    seq(|a|, i requires 0 <= i < |a| => a[i] != b[i])
  }

  const ZERO: Word := Zeros(32)
  const POLY: Word := BitsOf(0x04C1_1DB7, |ZERO|)
  const ZERO_BYTE: Bits := Zeros(8)

  function ByteBits(b: byte): (r: Bits)
    ensures |r| == 8
  {
    BitsOf(b, |ZERO_BYTE|)
  }

  // ----- the definition: polynomial division, one message bit at a time -----

  function Shl(c: Word): Word { c[1..] + [false] }

  function ShiftIn(c: Word, bit: bool): Word
  {
    if c[0] != bit then Xor(Shl(c), POLY) else Shl(c)
  }

  function Divide(c: Word, message: Bits): Word
    decreases |message|
  {
    if message == [] then c else Divide(ShiftIn(c, message[0]), message[1..])
  }

  /** The register after dividing in `bytes`, starting from state `c`. */
  function Crc(c: Word, bytes: seq<byte>): Word
    decreases |bytes|
  {
    if bytes == [] then c else Crc(Divide(c, ByteBits(bytes[0])), bytes[1..])
  }

  lemma {:induction false} CrcConcat(c: Word, a: seq<byte>, b: seq<byte>)
    ensures Crc(c, a + b) == Crc(Crc(c, a), b)
    decreases |a|
  {
    if a == [] {
      assert a + b == b;
    } else {
      CrcConcat(Divide(c, ByteBits(a[0])), a[1..], b);
      assert (a + b)[1..] == a[1..] + b;
    }
  }

  lemma {:induction false} DivideConcat(c: Word, a: Bits, b: Bits)
    ensures Divide(c, a + b) == Divide(Divide(c, a), b)
    decreases |a|
  {
    if a == [] {
      assert a + b == b;
    } else {
      DivideConcat(ShiftIn(c, a[0]), a[1..], b);
      assert (a + b)[1..] == a[1..] + b;
    }
  }

  // ----- the register with no input is linear and invertible -----

  function Step(c: Word): Word { ShiftIn(c, false) }

  function Run(c: Word, n: nat): Word
    decreases n
  {
    if n == 0 then c else Run(Step(c), n - 1)
  }

  lemma RunOnce(c: Word, n: nat)
    ensures Run(c, n + 1) == Run(if c[0] then Xor(Shl(c), POLY) else Shl(c), n)
  {}

  lemma StepXor(a: Word, b: Word)
    ensures Step(Xor(a, b)) == Xor(Step(a), Step(b))
  {}

  lemma {:induction false} RunXor(a: Word, b: Word, n: nat)
    ensures Run(Xor(a, b), n) == Xor(Run(a, n), Run(b, n))
    decreases n
  {
    if n > 0 {
      StepXor(a, b);
      RunXor(Step(a), Step(b), n - 1);
    }
  }

  lemma {:induction false} RunSplit(c: Word, m: nat, n: nat)
    ensures Run(c, m + n) == Run(Run(c, m), n)
    decreases m
  {
    if m > 0 {
      RunSplit(Step(c), m - 1, n);
    }
  }

  /** The generator's constant term is 1. */
  lemma GeneratorIsOdd()
    ensures POLY[31]
  {
    assert POLY == BitsOf(0x04C1_1DB7 / 2, 31) + [true];
  }

  /** So a step leaves its feedback in the low bit. */
  lemma StepLow(c: Word)
    ensures Step(c)[31] == c[0]
  {
    GeneratorIsOdd();
  }

  lemma StepHigh(c: Word, i: nat)
    requires 1 <= i < 32
    ensures Step(c)[i - 1] == (c[i] != (c[0] && POLY[i - 1]))
  {}

  lemma StepInjective(a: Word, b: Word)
    requires Step(a) == Step(b)
    ensures a == b
  {
    StepLow(a);
    StepLow(b);
    forall i | 1 <= i < 32
      ensures a[i] == b[i]
    {
      StepHigh(a, i);
      StepHigh(b, i);
    }
  }

  lemma {:induction false} RunInjective(a: Word, b: Word, n: nat)
    requires Run(a, n) == Run(b, n)
    ensures a == b
    decreases n
  {
    if n > 0 {
      RunInjective(Step(a), Step(b), n - 1);
      StepInjective(a, b);
    }
  }

  // ----- up to 32 message bits at once -----

  /** `m` placed `k` bits below the top of the register. */
  function Place(k: nat, m: Bits): Word
    requires k + |m| <= 32
  {
    Zeros(k) + m + Zeros(32 - k - |m|)
  }

  lemma XorPlaceNothing(c: Word)
    ensures Xor(c, Place(0, [])) == c
  {}

  lemma ShlOfPlace(c: Word, m: Bits)
    requires 0 < |m| <= 32
    ensures Shl(Xor(c, Place(0, m))) == Xor(Shl(c), Place(0, m[1..]))
  {}

  lemma XorPast(a: Word, b: Word, m: Word)
    ensures Xor(Xor(a, m), b) == Xor(Xor(a, b), m)
  {}

  lemma StepOfPlace(c: Word, m: Bits)
    requires 0 < |m| <= 32
    ensures Step(Xor(c, Place(0, m))) == Xor(ShiftIn(c, m[0]), Place(0, m[1..]))
  {
    ShlOfPlace(c, m);
    XorPast(Shl(c), POLY, Place(0, m[1..]));
    assert Xor(c, Place(0, m))[0] == (c[0] != m[0]);
  }

  lemma {:induction false} DivideIsRun(c: Word, m: Bits)
    requires |m| <= 32
    ensures Divide(c, m) == Run(Xor(c, Place(0, m)), |m|)
    decreases |m|
  {
    if m == [] {
      XorPlaceNothing(c);
    } else {
      DivideIsRun(ShiftIn(c, m[0]), m[1..]);
      StepOfPlace(c, m);
    }
  }

  /** Leading zeros are shifted out without feedback. */
  lemma {:induction false} RunLeadingZeros(k: nat, m: Bits)
    requires k + |m| <= 32
    ensures Run(Place(k, m), k) == Place(0, m)
    decreases k
  {
    if k > 0 {
      assert Step(Place(k, m)) == Place(k - 1, m);
      RunLeadingZeros(k - 1, m);
    }
  }

  // ----- table lookups -----

  /** What the table of rank `r` holds: a top byte advanced by `r + 1` whole bytes. */
  function Entry(r: nat, i: byte): Word { Run(Place(0, ByteBits(i)), 8 * (r + 1)) }

  lemma PlacedByte(r: nat, b: Bits)
    requires |b| == 8 && r < 4
    ensures Run(Place(24 - 8 * r, b), 32) == Entry(r, Index(b))
  {
    var k := 24 - 8 * r;
    RunLeadingZeros(k, b);
    RunSplit(Place(k, b), k, 8 * (r + 1));
    BitsOfValue(b);
  }

  /** The slice-by-4 fan-in: four bytes advance at once through four tables. */
  lemma SliceFour(w: Word)
    ensures Run(w, 32) == SliceStep(w)
  {
    var p3, p2, p1, p0 := Place(0, w[..8]), Place(8, w[8..16]), Place(16, w[16..24]), Place(24, w[24..]);
    assert w == Xor(Xor(Xor(p3, p2), p1), p0);
    RunXor(Xor(Xor(p3, p2), p1), p0, 32);
    RunXor(Xor(p3, p2), p1, 32);
    RunXor(p3, p2, 32);
    PlacedByte(3, w[..8]);
    PlacedByte(2, w[8..16]);
    PlacedByte(1, w[16..24]);
    PlacedByte(0, w[24..]);
  }

  /** The scalar step: shift out the top byte and fold in its table entry. */
  lemma TableStep(c: Word)
    ensures Run(c, 8) == Xor(c[8..] + Zeros(8), Entry(0, Index(c[..8])))
  {
    var low := Place(8, c[8..]);
    var top := Place(0, c[..8]);
    assert c == Xor(low, top);
    RunXor(low, top, 8);
    RunLeadingZeros(8, c[8..]);
    assert Place(0, c[8..]) == c[8..] + Zeros(8);
    BitsOfValue(c[..8]);
  }

  lemma OneByte(c: Word, b: byte)
    ensures Divide(c, ByteBits(b)) == ScalarStep(c, b)
  {
    DivideIsRun(c, ByteBits(b));
    var x := Xor(c, Place(0, ByteBits(b)));
    assert x[..8] == Xor(c[..8], ByteBits(b)) && x[8..] == c[8..];
    TableStep(x);
  }

  /** One iteration of the scalar tail. */
  function ScalarStep(c: Word, b: byte): Word
  {
    Xor(c[8..] + Zeros(8), Entry(0, Index(Xor(c[..8], ByteBits(b)))))
  }

  lemma ScalarAdvance(c: Word, bytes: seq<byte>, pos: nat)
    requires pos < |bytes|
    ensures Crc(c, bytes[pos..]) == Crc(ScalarStep(c, bytes[pos]), bytes[pos + 1..])
  {
    OneByte(c, bytes[pos]);
    assert bytes[pos..][1..] == bytes[pos + 1..];
  }

  /** One iteration of the slice-by-4 loop. */
  function SliceStep(w: Word): Word
  {
    Xor(Xor(Xor(Entry(3, Index(w[..8])), Entry(2, Index(w[8..16]))), Entry(1, Index(w[16..24]))),
        Entry(0, Index(w[24..])))
  }

  lemma SliceAdvance(c: Word, bytes: seq<byte>, pos: nat)
    requires pos + 4 <= |bytes|
    ensures Crc(c, bytes[pos..]) == Crc(SliceStep(Xor(c, BigEndian(bytes[pos..pos + 4]))), bytes[pos + 4..])
  {
    var chunk := bytes[pos..pos + 4];
    FourBytes(c, chunk);
    SliceFour(Xor(c, BigEndian(chunk)));
    assert bytes[pos..] == chunk + bytes[pos + 4..];
    CrcConcat(c, chunk, bytes[pos + 4..]);
  }

  function BigEndian(s: seq<byte>): Word
    requires |s| == 4
  {
    ByteBits(s[0]) + ByteBits(s[1]) + ByteBits(s[2]) + ByteBits(s[3])
  }

  lemma FourBytes(c: Word, s: seq<byte>)
    requires |s| == 4
    ensures Crc(c, s) == Run(Xor(c, BigEndian(s)), 32)
  {
    var b0, b1, b2, b3 := ByteBits(s[0]), ByteBits(s[1]), ByteBits(s[2]), ByteBits(s[3]);
    DivideConcat(c, b0, b1);
    DivideConcat(c, b0 + b1, b2);
    DivideConcat(c, b0 + b1 + b2, b3);
    assert s == [s[0]] + [s[1]] + [s[2]] + [s[3]];
    CrcConcat(c, [s[0]], [s[1]]);
    CrcConcat(c, [s[0]] + [s[1]], [s[2]]);
    CrcConcat(c, [s[0]] + [s[1]] + [s[2]], [s[3]]);
    DivideIsRun(c, BigEndian(s));
    assert Place(0, BigEndian(s)) == BigEndian(s);
  }

  // ----- the page checksum -----

  const FIELD_ZEROS: seq<byte> := ZERO_U32

  /** `page` with its checksum field replaced by zeros. */
  function Blanked(page: seq<byte>): (r: seq<byte>)
    requires |page| >= CRC_FIELD_OFFSET + CRC_FIELD_LEN
    ensures |r| == |page|
  {
    page[..CRC_FIELD_OFFSET] + FIELD_ZEROS + page[CRC_FIELD_OFFSET + CRC_FIELD_LEN..]
  }

  lemma ZeroByte(c: Word)
    ensures ScalarStep(c, 0) == Xor(c[8..] + Zeros(8), Entry(0, Index(c[..8])))
  {
    assert ByteBits(0) == Zeros(8);
    assert Xor(c[..8], Zeros(8)) == c[..8];
  }

  function Checksum(bytes: seq<byte>): u32 { AsU32(Crc(ZERO, bytes)) }

  function PageChecksum(page: seq<byte>): u32
    requires |page| >= CRC_FIELD_OFFSET + CRC_FIELD_LEN
  {
    Checksum(Blanked(page))
  }

  // ----- burst detection -----

  lemma {:induction false} CrcInjective(a: Word, b: Word, bytes: seq<byte>)
    requires Crc(a, bytes) == Crc(b, bytes)
    ensures a == b
    decreases |bytes|
  {
    if bytes != [] {
      var m := ByteBits(bytes[0]);
      CrcInjective(Divide(a, m), Divide(b, m), bytes[1..]);
      DivideIsRun(a, m);
      DivideIsRun(b, m);
      RunInjective(Xor(a, Place(0, m)), Xor(b, Place(0, m)), 8);
      XorCancel(a, b, Place(0, m));
    }
  }

  lemma XorCancel(a: Bits, b: Bits, p: Bits)
    requires |a| == |b| == |p| && Xor(a, p) == Xor(b, p)
    ensures a == b
  {
    forall i | 0 <= i < |a|
      ensures a[i] == b[i]
    {
      assert Xor(a, p)[i] == Xor(b, p)[i];
    }
  }

  lemma XorCancelLeft(p: Bits, a: Bits, b: Bits)
    requires |a| == |b| == |p| && Xor(p, a) == Xor(p, b)
    ensures a == b
  {
    assert Xor(p, a) == Xor(a, p) && Xor(p, b) == Xor(b, p);
    XorCancel(a, b, p);
  }

  lemma BitsOfInjective(x: byte, y: byte)
    requires ByteBits(x) == ByteBits(y)
    ensures x == y
  {
    Pow2Values();
    ValueOfBits(x, 8);
    ValueOfBits(y, 8);
  }

  lemma BigEndianInjective(s: seq<byte>, t: seq<byte>)
    requires |s| == |t| == 4 && BigEndian(s) == BigEndian(t)
    ensures s == t
  {
    forall i | 0 <= i < 4
      ensures s[i] == t[i]
    {
      assert BigEndian(s)[8 * i..8 * i + 8] == ByteBits(s[i]);
      assert BigEndian(t)[8 * i..8 * i + 8] == ByteBits(t[i]);
      BitsOfInjective(s[i], t[i]);
    }
  }

  lemma FourBytesInjective(c: Word, s: seq<byte>, t: seq<byte>)
    requires |s| == |t| == 4 && Crc(c, s) == Crc(c, t)
    ensures s == t
  {
    FourBytes(c, s);
    FourBytes(c, t);
    RunInjective(Xor(c, BigEndian(s)), Xor(c, BigEndian(t)), 32);
    XorCancelLeft(c, BigEndian(s), BigEndian(t));
    BigEndianInjective(s, t);
  }

  lemma ChecksumInjective(v: Word, w: Word)
    requires AsU32(v) == AsU32(w)
    ensures v == w
  {
    BitsOfValue(v);
    BitsOfValue(w);
  }

  /** Two messages that agree outside a window of four bytes. */
  predicate DifferWithin(a: seq<byte>, b: seq<byte>, at: nat)
  {
    |a| == |b| && a != b && forall i :: 0 <= i < |a| && !(at <= i < at + 4) ==> a[i] == b[i]
  }

  lemma BurstAt(a: seq<byte>, b: seq<byte>, at: nat)
    requires DifferWithin(a, b, at) && at + 4 <= |a|
    ensures Checksum(a) != Checksum(b)
  {
    var head, x, y, tail := a[..at], a[at..at + 4], b[at..at + 4], a[at + 4..];
    assert a == head + x + tail;
    assert b == head + y + tail;
    if Checksum(a) == Checksum(b) {
      ChecksumInjective(Crc(ZERO, a), Crc(ZERO, b));
      CrcConcat(ZERO, head + x, tail);
      CrcConcat(ZERO, head + y, tail);
      CrcConcat(ZERO, head, x);
      CrcConcat(ZERO, head, y);
      CrcInjective(Crc(Crc(ZERO, head), x), Crc(Crc(ZERO, head), y), tail);
      FourBytesInjective(Crc(ZERO, head), x, y);
      assert false;
    }
  }

  /** Any damage confined to four consecutive bytes outside the field changes the page checksum. */
  lemma BurstIsDetected(a: seq<byte>, b: seq<byte>, at: nat)
    requires |a| >= CRC_FIELD_OFFSET + CRC_FIELD_LEN
    requires DifferWithin(a, b, at)
    requires a[CRC_FIELD_OFFSET..CRC_FIELD_OFFSET + CRC_FIELD_LEN]
        == b[CRC_FIELD_OFFSET..CRC_FIELD_OFFSET + CRC_FIELD_LEN]
    ensures PageChecksum(a) != PageChecksum(b)
  {
    var x, y := Blanked(a), Blanked(b);
    var start := Min(at, |a| - 4);
    forall i | 0 <= i < |a| && !(start <= i < start + 4)
      ensures x[i] == y[i]
    {
      assert a[i] == b[i];
    }
    if x == y {
      forall i | 0 <= i < |a|
        ensures a[i] == b[i]
      {
        if CRC_FIELD_OFFSET <= i < CRC_FIELD_OFFSET + CRC_FIELD_LEN {
          var k := i - CRC_FIELD_OFFSET;
          assert a[CRC_FIELD_OFFSET..CRC_FIELD_OFFSET + CRC_FIELD_LEN][k]
              == b[CRC_FIELD_OFFSET..CRC_FIELD_OFFSET + CRC_FIELD_LEN][k];
        } else {
          assert x[i] == a[i] && y[i] == b[i];
        }
      }
      assert false;
    }
    BurstAt(x, y, start);
  }

  // ----- the code: four tables and one running register -----

  class SliceTables {
    const t0: array<Word>
    const t1: array<Word>
    const t2: array<Word>
    const t3: array<Word>

    ghost predicate Valid()
      reads t0, t1, t2, t3
    {
      && Holds(t0, 0)
      && Holds(t1, 1)
      && Holds(t2, 2)
      && Holds(t3, 3)
    }

    static ghost predicate Holds(t: array<Word>, r: nat)
      reads t
    {
      t.Length == 0x100 && forall i :: 0 <= i < 0x100 ==> t[i] == Entry(r, i)
    }

    static method BuildFirst() returns (t: array<Word>)
      ensures fresh(t) && Holds(t, 0)
    {
      t := new Word[0x100];
      for i := 0 to 0x100
        invariant forall k :: 0 <= k < i ==> t[k] == Entry(0, k)
      {
        assert Place(0, ByteBits(i)) == ByteBits(i) + Zeros(24);
        var r := Advance(ByteBits(i) + Zeros(24), 8);
        t[i] := r;
      }
    }

    static method Advance(c: Word, n: nat) returns (r: Word)
      ensures r == Run(c, n)
    {
      r := c;
      for j := 0 to n
        invariant Run(r, n - j) == Run(c, n)
      {
        RunOnce(r, n - j - 1);
        r := if r[0] then Xor(Shl(r), POLY) else Shl(r);
      }
    }

    static method BuildSlice(first: array<Word>, prev: array<Word>, ghost r: nat) returns (t: array<Word>)
      requires Holds(first, 0) && Holds(prev, r)
      ensures fresh(t) && Holds(t, r + 1)
    {
      t := new Word[0x100];
      for i := 0 to 0x100
        invariant forall k :: 0 <= k < i ==> t[k] == Entry(r + 1, k)
      {
        var v := prev[i];
        t[i] := Xor(v[8..] + Zeros(8), first[Index(v[..8])]);
        TableStep(v);
        RunSplit(Place(0, ByteBits(i)), 8 * (r + 1), 8);
      }
    }

    constructor ()
      ensures Valid()
    {
      var a := BuildFirst();
      var b := BuildSlice(a, a, 0);
      var c := BuildSlice(a, b, 1);
      var d := BuildSlice(a, c, 2);
      t0, t1, t2, t3 := a, b, c, d;
    }

    method ContinueChecksum(state: Word, bytes: seq<byte>) returns (crc: Word)
      requires Valid()
      ensures crc == Crc(state, bytes)
    {
      crc := state;
      var pos := 0;
      while pos + 4 <= |bytes|
        invariant 0 <= pos <= |bytes|
        invariant Crc(crc, bytes[pos..]) == Crc(state, bytes)
      {
        SliceAdvance(crc, bytes, pos);
        var w: Word := Xor(crc, BigEndian(bytes[pos..pos + 4]));
        crc := Xor(Xor(Xor(t3[Index(w[..8])], t2[Index(w[8..16])]), t1[Index(w[16..24])]), t0[Index(w[24..])]);
        pos := pos + 4;
      }
      while pos < |bytes|
        invariant 0 <= pos <= |bytes|
        invariant Crc(crc, bytes[pos..]) == Crc(state, bytes)
      {
        ScalarAdvance(crc, bytes, pos);
        crc := Xor(crc[8..] + Zeros(8), t0[Index(Xor(crc[..8], ByteBits(bytes[pos])))]);
        pos := pos + 1;
      }
    }

    method AdvanceFourZeroBytes(state: Word) returns (crc: Word)
      requires Valid()
      ensures crc == Crc(state, FIELD_ZEROS)
    {
      crc := state;
      for i := 0 to 4
        invariant Crc(crc, FIELD_ZEROS[i..]) == Crc(state, FIELD_ZEROS)
      {
        ScalarAdvance(crc, FIELD_ZEROS, i);
        ZeroByte(crc);
        crc := Xor(crc[8..] + Zeros(8), t0[Index(crc[..8])]);
      }
    }

    method ComputePageChecksum(page: seq<byte>) returns (r: Option<u32>)
      requires Valid()
      ensures r == if |page| < CRC_FIELD_OFFSET + CRC_FIELD_LEN then None else Some(PageChecksum(page))
    {
      if |page| < CRC_FIELD_OFFSET + CRC_FIELD_LEN {
        return None;
      }
      var prefix := ContinueChecksum(ZERO, page[..CRC_FIELD_OFFSET]);
      var afterField := AdvanceFourZeroBytes(prefix);
      var crc := ContinueChecksum(afterField, page[CRC_FIELD_OFFSET + CRC_FIELD_LEN..]);
      CrcConcat(ZERO, page[..CRC_FIELD_OFFSET], FIELD_ZEROS);
      CrcConcat(ZERO, page[..CRC_FIELD_OFFSET] + FIELD_ZEROS, page[CRC_FIELD_OFFSET + CRC_FIELD_LEN..]);
      return Some(AsU32(crc));
    }
  }

  // ----- a value to check by -----

  lemma {:induction false} ZeroStaysZero(n: nat)
    ensures Divide(ZERO, Zeros(n)) == ZERO
  {
    if n > 0 {
      assert Zeros(n)[1..] == Zeros(n - 1);
      assert Shl(ZERO) == ZERO;
      ZeroStaysZero(n - 1);
    }
  }

  lemma OneInBits()
    ensures ByteBits(1) == Zeros(7) + [true]
  {
    ZeroInBits(7);
  }

  lemma {:induction false} ZeroInBits(n: nat)
    ensures BitsOf(0, n) == Zeros(n)
  {
    if n > 0 {
      ZeroInBits(n - 1);
      assert Zeros(n - 1) + [false] == Zeros(n);
    }
  }

  /** The byte 1 alone leaves the generator polynomial itself. */
  lemma OneLeavesPolynomial()
    ensures AsU32(Crc(ZERO, [1])) == 0x04C1_1DB7
  {
    OneInBits();
    ZeroStaysZero(7);
    DivideConcat(ZERO, Zeros(7), [true]);
    var last := Xor(Shl(ZERO), POLY);
    assert last == POLY;
    assert Divide(ZERO, [true]) == Divide(last, []);
    assert Crc(ZERO, [1]) == Crc(POLY, []);
    Pow2Values();
    ValueOfBits(0x04C1_1DB7, |ZERO|);
  }
}
