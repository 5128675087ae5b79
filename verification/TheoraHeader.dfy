/** The Theora identification header (Theora specification, section 6.2), big-endian throughout. */
module TheoraHeader {
  import opened Bytes
  import Theora

  const ID_HEADER_LEN := 42
  const MAGIC: seq<byte> := [0x80, 0x74, 0x68, 0x65, 0x6F, 0x72, 0x61]

  /** The `n` low bytes of `v`, most significant first. */
  function Be(v: nat, n: nat): (r: seq<byte>)
    ensures |r| == n
  {
    if n == 0 then [] else Be(v / 0x100, n - 1) + [v % 0x100]
  }

  function FromBe(s: seq<byte>): (r: nat)
    ensures r < Pow256(|s|)
  {
    if s == [] then 0 else 0x100 * FromBe(s[..|s| - 1]) + s[|s| - 1]
  }

  lemma {:induction false} FromBeOfBe(v: nat, n: nat)
    requires v < Pow256(n)
    ensures FromBe(Be(v, n)) == v
  {
    if n > 0 {
      FromBeOfBe(v / 0x100, n - 1);
      UnSnoc(Be(v / 0x100, n - 1), v % 0x100);
    }
  }

  lemma {:induction false} BeOfFromBe(s: seq<byte>)
    ensures Be(FromBe(s), |s|) == s
  {
    if s != [] {
      BeOfFromBe(s[..|s| - 1]);
      assert FromBe(s) / 0x100 == FromBe(s[..|s| - 1]) && FromBe(s) % 0x100 == s[|s| - 1];
    }
  }

  const TWO_BYTES: seq<byte> := [0, 0]
  const THREE_BYTES: seq<byte> := [0, 0, 0]

  function Be16(v: nat): (r: seq<byte>)
    ensures |r| == 2
  {
    Be(v, |TWO_BYTES|)
  }

  function Be24(v: nat): (r: seq<byte>)
    ensures |r| == 3
  {
    Be(v, |THREE_BYTES|)
  }

  function Be32(v: nat): (r: seq<byte>)
    ensures |r| == 4
  {
    Be(v, |ZERO_U32|)
  }

  datatype IdHeader = IdHeader(
    vmaj: byte, vmin: byte, vrev: byte,
    fmbw: nat, fmbh: nat,
    picw: nat, pich: nat, picx: byte, picy: byte,
    frn: nat, frd: nat, parn: nat, pard: nat,
    cs: byte, nombr: nat,
    qual: nat, kfgshift: nat, pf: nat)

  const U16: int := 0x1_0000
  const U24: int := 0x100_0000

  /** QUAL, KFGSHIFT and PF share the last 16 bits, three of which stay zero. */
  function Tail(h: IdHeader): nat { h.qual % 64 * 1024 + h.kfgshift % 32 * 32 + h.pf % 4 * 8 }

  /** Fields wider than their place are cut to it. */
  function ToBytes(h: IdHeader): (r: seq<byte>)
    ensures |r| == ID_HEADER_LEN
  {
    MAGIC + [h.vmaj, h.vmin, h.vrev]
    + (Be16(h.fmbw) + Be16(h.fmbh))
    + (Be24(h.picw) + Be24(h.pich) + [h.picx, h.picy])
    + (Be32(h.frn) + Be32(h.frd))
    + (Be24(h.parn) + Be24(h.pard) + [h.cs])
    + (Be24(h.nombr) + Be16(Tail(h)))
  }

  function Fields(p: seq<byte>): IdHeader
    requires |p| >= ID_HEADER_LEN
  {
    var tail := FromBe(p[40..42]);
    IdHeader(p[7], p[8], p[9], FromBe(p[10..12]), FromBe(p[12..14]),
             FromBe(p[14..17]), FromBe(p[17..20]), p[20], p[21],
             FromBe(p[22..26]), FromBe(p[26..30]), FromBe(p[30..33]), FromBe(p[33..36]),
             p[36], FromBe(p[37..40]),
             tail / 1024, tail / 32 % 32, tail / 8 % 4)
  }

  /** What the container mapping relies on: version 3.2 and no zero size or rate. */
  predicate Acceptable(h: IdHeader)
  {
    h.vmaj == 3 && h.vmin == 2 && h.fmbw != 0 && h.fmbh != 0 && h.frn != 0 && h.frd != 0
  }

  /** The parsed header; None is the error return. */
  function Parse(p: seq<byte>): Option<IdHeader>
  {
    if |p| < ID_HEADER_LEN || p[..7] != MAGIC || !Acceptable(Fields(p)) then None else Some(Fields(p))
  }

  /** The granule packing the header announces. */
  function GranuleOf(h: IdHeader): Theora.Granule { Theora.Granule(h.kfgshift, h.vrev >= 1) }

  /** No field is wider than its place. */
  predicate FitsWire(h: IdHeader)
  {
    && h.fmbw < U16 && h.fmbh < U16 && h.picw < U24 && h.pich < U24
    && h.frn < TWO32 && h.frd < TWO32 && h.parn < U24 && h.pard < U24 && h.nombr < U24
    && h.qual < 64 && h.kfgshift < 32 && h.pf < 4
  }

  lemma Widths()
    ensures Pow256(|TWO_BYTES|) == U16 && Pow256(|THREE_BYTES|) == U24 && Pow256(|ZERO_U32|) == TWO32
  {
    Pow256Values();
    assert Pow256(3) == 0x100 * Pow256(2);
  }

  lemma Be16RoundTrip(v: nat)
    requires v < U16
    ensures FromBe(Be16(v)) == v
  {
    Widths();
    FromBeOfBe(v, |TWO_BYTES|);
  }

  lemma Be24RoundTrip(v: nat)
    requires v < U24
    ensures FromBe(Be24(v)) == v
  {
    Widths();
    FromBeOfBe(v, |THREE_BYTES|);
  }

  lemma Be32RoundTrip(v: nat)
    requires v < TWO32
    ensures FromBe(Be32(v)) == v
  {
    Widths();
    FromBeOfBe(v, |ZERO_U32|);
  }

  lemma Read16(s: seq<byte>)
    requires |s| == 2
    ensures Be16(FromBe(s)) == s && FromBe(s) < U16
  {
    Widths();
    BeOfFromBe(s);
  }

  lemma Read24(s: seq<byte>)
    requires |s| == 3
    ensures Be24(FromBe(s)) == s && FromBe(s) < U24
  {
    Widths();
    BeOfFromBe(s);
  }

  lemma Read32(s: seq<byte>)
    requires |s| == 4
    ensures Be32(FromBe(s)) == s && FromBe(s) < TWO32
  {
    Widths();
    BeOfFromBe(s);
  }

  lemma Layout(h: IdHeader)
    ensures var p := ToBytes(h);
            && p[..7] == MAGIC && p[7] == h.vmaj && p[8] == h.vmin && p[9] == h.vrev
            && p[10..12] == Be16(h.fmbw) && p[12..14] == Be16(h.fmbh)
            && p[14..17] == Be24(h.picw) && p[17..20] == Be24(h.pich) && p[20] == h.picx && p[21] == h.picy
            && p[22..26] == Be32(h.frn) && p[26..30] == Be32(h.frd)
            && p[30..33] == Be24(h.parn) && p[33..36] == Be24(h.pard) && p[36] == h.cs
            && p[37..40] == Be24(h.nombr) && p[40..42] == Be16(Tail(h))
  {}

  lemma BitFields(a: nat, b: nat, c: nat, t: nat)
    requires a < 64 && b < 32 && c < 4 && t == a * 1024 + b * 32 + c * 8
    ensures t < U16 && t / 1024 == a && t / 32 % 32 == b && t / 8 % 4 == c
  {
    assert t / 32 == a * 32 + b;
    assert t / 8 == a * 128 + b * 4 + c;
  }

  lemma TailSplits(t: nat)
    requires t < U16
    ensures t / 1024 < 64 && t == t / 1024 * 1024 + t / 32 % 32 * 32 + t / 8 % 4 * 8 + t % 8
  {
    var u, lo := t / 8, t % 8;
    var v, c := u / 4, u % 4;
    var a, b := v / 32, v % 32;
    assert t == 32 * v + (8 * c + lo) && 8 * c + lo < 32;
    assert t == 1024 * a + (32 * b + 8 * c + lo) && 32 * b + 8 * c + lo < 1024;
  }

  lemma SizesRead(h: IdHeader, p: seq<byte>)
    requires FitsWire(h) && p == ToBytes(h)
    ensures FromBe(p[10..12]) == h.fmbw && FromBe(p[12..14]) == h.fmbh
    ensures FromBe(p[14..17]) == h.picw && FromBe(p[17..20]) == h.pich
  {
    Layout(h);
    Be16RoundTrip(h.fmbw);
    Be16RoundTrip(h.fmbh);
    Be24RoundTrip(h.picw);
    Be24RoundTrip(h.pich);
  }

  lemma RatesRead(h: IdHeader, p: seq<byte>)
    requires FitsWire(h) && p == ToBytes(h)
    ensures FromBe(p[22..26]) == h.frn && FromBe(p[26..30]) == h.frd
    ensures FromBe(p[30..33]) == h.parn && FromBe(p[33..36]) == h.pard && FromBe(p[37..40]) == h.nombr
  {
    Layout(h);
    Be32RoundTrip(h.frn);
    Be32RoundTrip(h.frd);
    Be24RoundTrip(h.parn);
    Be24RoundTrip(h.pard);
    Be24RoundTrip(h.nombr);
  }

  lemma TailRead(h: IdHeader, p: seq<byte>)
    requires FitsWire(h) && p == ToBytes(h)
    ensures FromBe(p[40..42]) == Tail(h)
    ensures Tail(h) / 1024 == h.qual && Tail(h) / 32 % 32 == h.kfgshift && Tail(h) / 8 % 4 == h.pf
  {
    Layout(h);
    BitFields(h.qual, h.kfgshift, h.pf, Tail(h));
    Be16RoundTrip(Tail(h));
  }

  lemma FieldsOfToBytes(h: IdHeader)
    requires FitsWire(h)
    ensures Fields(ToBytes(h)) == h
  {
    var p := ToBytes(h);
    Layout(h);
    SizesRead(h, p);
    RatesRead(h, p);
    TailRead(h, p);
  }

  lemma FieldsFit(p: seq<byte>)
    requires |p| >= ID_HEADER_LEN
    ensures FitsWire(Fields(p))
  {
    Read16(p[10..12]);
    Read16(p[12..14]);
    Read24(p[14..17]);
    Read24(p[17..20]);
    Read32(p[22..26]);
    Read32(p[26..30]);
    Read24(p[30..33]);
    Read24(p[33..36]);
    Read24(p[37..40]);
    Read16(p[40..42]);
    TailSplits(FromBe(p[40..42]));
  }

  /** A header comes back from its bytes exactly when it is acceptable and its fields fit. */
  lemma ParseOfToBytes(h: IdHeader)
    ensures Parse(ToBytes(h)) == Some(h) <==> Acceptable(h) && FitsWire(h)
  {
    Layout(h);
    FieldsFit(ToBytes(h));
    if FitsWire(h) {
      FieldsOfToBytes(h);
    }
  }

  lemma TwoBytes(s: seq<byte>, hi: int, lo: int)
    requires |s| == 2 && hi == s[0] && lo == s[1]
    ensures FromBe(s) == 0x100 * hi + lo
  {
    assert s[..1] == [s[0]] && [s[0]][..0] == [];
  }

  lemma ClearLow(hi: int, lo: int)
    ensures (0x100 * hi + lo) % 8 == lo % 8
  {}

  lemma TailIs(h: IdHeader, t: nat)
    requires t < U16 && h.qual == t / 1024 && h.kfgshift == t / 32 % 32 && h.pf == t / 8 % 4
    ensures Tail(h) == t - t % 8
  {
    TailSplits(t);
  }

  /** The last two bytes of a header written back: the reserved bits are cleared. */
  lemma TailWritten(s: seq<byte>, h: IdHeader)
    requires |s| == 2
    requires h.qual == FromBe(s) / 1024 && h.kfgshift == FromBe(s) / 32 % 32 && h.pf == FromBe(s) / 8 % 4
    ensures Be16(Tail(h)) == [s[0], s[1] - s[1] % 8]
  {
    var cleared := [s[0], s[1] - s[1] % 8];
    Read16(s);
    Read16(cleared);
    TailIs(h, FromBe(s));
    TwoBytes(s, s[0], s[1]);
    TwoBytes(cleared, s[0], s[1] - s[1] % 8);
    ClearLow(s[0], s[1]);
  }

  /** Writing a parsed header back gives its first 42 bytes, reserved bits cleared. */
  lemma ToBytesOfParse(p: seq<byte>)
    requires Parse(p).Some?
    ensures ToBytes(Parse(p).value) == p[..41] + [p[41] - p[41] % 8]
  {
    var h := Fields(p);
    TailWritten(p[40..42], h);
    Read16(p[10..12]);
    Read16(p[12..14]);
    Read24(p[14..17]);
    Read24(p[17..20]);
    Read32(p[22..26]);
    Read32(p[26..30]);
    Read24(p[30..33]);
    Read24(p[33..36]);
    Read24(p[37..40]);
    Reassemble(p);
  }

  lemma Reassemble(p: seq<byte>)
    requires |p| >= ID_HEADER_LEN
    ensures p[..7] + [p[7], p[8], p[9]] + (p[10..12] + p[12..14]) + (p[14..17] + p[17..20] + [p[20], p[21]])
            + (p[22..26] + p[26..30]) + (p[30..33] + p[33..36] + [p[36]]) + (p[37..40] + [p[40], p[41] - p[41] % 8])
         == p[..41] + [p[41] - p[41] % 8]
  {}
}
