/** One Ogg page (section 6 of RFC 3533): serialization, parsing, and the in-place EOS patch. */
module Pages {
  import opened Bytes
  import opened Crc

  const CAPTURE: seq<byte> := [0x4F, 0x67, 0x67, 0x53]  // "OggS"
  const HEADER_LEN := 27
  const CONTINUED: byte := 1
  const FIRST_PAGE: byte := 2
  const LAST_PAGE: byte := 4

  datatype Page = Page(
    flags: byte,
    granule: i64,
    serial: u32,
    seqNo: u32,
    lacing: seq<byte>,
    data: seq<byte>)

  predicate HasContinued(flags: byte) { flags % 2 == 1 }

  predicate HasFirst(flags: byte) { flags / 2 % 2 == 1 }

  predicate HasLast(flags: byte) { flags / 4 % 2 == 1 }

  predicate IsContinued(p: Page) { HasContinued(p.flags) }

  predicate IsFirst(p: Page) { HasFirst(p.flags) }

  predicate IsLast(p: Page) { HasLast(p.flags) }

  /** `flags | LAST_PAGE`. */
  function WithLast(flags: byte): (r: byte)
    ensures HasLast(r)
    ensures HasContinued(r) == HasContinued(flags) && HasFirst(r) == HasFirst(flags)
    ensures r / 8 == flags / 8
  {
    if HasLast(flags) then flags else flags + LAST_PAGE
  }

  function MarkLast(p: Page): Page { p.(flags := WithLast(p.flags)) }

  /** The page ends on a 255 lacing value: its last packet goes on. */
  predicate EndsOpen(lacing: seq<byte>) { lacing != [] && lacing[|lacing| - 1] == 255 }

  /** The lacing invariants every serializable page obeys. */
  predicate WellFormed(p: Page)
  {
    |p.lacing| <= 255 && |p.data| == Sum(p.lacing)
  }

  predicate AllWellFormed(pages: seq<Page>) { forall i :: 0 <= i < |pages| ==> WellFormed(pages[i]) }

  // ----- the wire image -----

  /** The fixed header; the segment count is truncated to its one byte. */
  function Header(p: Page, crc: u32): (r: seq<byte>)
    ensures |r| == HEADER_LEN
  {
    CAPTURE + [0, p.flags] + LeI64(p.granule) + LeU32(p.serial) + LeU32(p.seqNo) + LeU32(crc) + [|p.lacing| % 0x100]
  }

  /** How many bytes a page takes on the wire. */
  function Size(p: Page): (n: nat)
    ensures n >= HEADER_LEN
  {
    HEADER_LEN + |p.lacing| + |p.data|
  }

  function Image(p: Page, crc: u32): (r: seq<byte>)
    ensures |r| == Size(p)
  {
    Header(p, crc) + p.lacing + p.data
  }

  /** The bytes of a page, checksum included. */
  function ToBytes(p: Page): (r: seq<byte>)
    ensures |r| == Size(p)
  {
    Image(p, Checksum(Image(p, 0)))
  }

  datatype Error = NeedMore | MissingCapture | UnsupportedVersion | CrcMismatch | BadLacing

  datatype Result<+T> = Ok(value: T) | Err(error: Error)

  function TryToBytes(p: Page): Result<seq<byte>>
  {
    if WellFormed(p) then Ok(ToBytes(p)) else Err(BadLacing)
  }

  function TotalSize(pages: seq<Page>): nat
  {
    if pages == [] then 0 else Size(pages[0]) + TotalSize(pages[1..])
  }

  function AllBytes(pages: seq<Page>): (r: seq<byte>)
    ensures |r| == TotalSize(pages)
  {
    if pages == [] then [] else ToBytes(pages[0]) + AllBytes(pages[1..])
  }

  // ----- reading the fields back -----

  /** A header's declared extent, or how many bytes it still needs. */
  datatype Extent = Short(need: nat) | Complete(headerLen: nat, total: nat)

  function ExtentOf(b: seq<byte>): (e: Extent)
    ensures e.Short? ==> |b| < e.need
    ensures e.Complete? ==> HEADER_LEN <= e.headerLen <= e.total <= |b| && e.headerLen == HEADER_LEN + b[26]
    ensures e.Complete? ==> e.total == e.headerLen + Sum(b[HEADER_LEN..e.headerLen])
  {
    if |b| < HEADER_LEN then Short(HEADER_LEN)
    else
      var headerLen := HEADER_LEN + b[26];
      if |b| < headerLen then Short(headerLen)
      else
        var total := headerLen + Sum(b[HEADER_LEN..headerLen]);
        if |b| < total then Short(total) else Complete(headerLen, total)
  }

  function StoredCrc(b: seq<byte>): u32
    requires |b| >= HEADER_LEN
  {
    ReadU32(b[22..26])
  }

  /** The fields of the structurally complete page at the front of `b`, whatever its version. */
  function PageOf(b: seq<byte>): Page
    requires ExtentOf(b).Complete?
  {
    var e := ExtentOf(b);
    Page(b[5], ReadI64(b[6..14]), ReadU32(b[14..18]), ReadU32(b[18..22]), b[HEADER_LEN..e.headerLen],
         b[e.headerLen..e.total])
  }

  /** `Page::parse`: the page at the front of `b` and its length. */
  function Parse(b: seq<byte>): Result<(Page, nat)>
  {
    if |b| < HEADER_LEN then Err(NeedMore)
    else if b[..4] != CAPTURE then Err(MissingCapture)
    else if b[4] != 0 then Err(UnsupportedVersion)
    else
      var e := ExtentOf(b);
      if e.Short? then Err(NeedMore)
      else if PageChecksum(b[..e.total]) != StoredCrc(b) then Err(CrcMismatch)
      else Ok((PageOf(b), e.total))
  }

  // ----- codec lemmas -----

  lemma HeaderFields(p: Page, crc: u32)
    requires |p.lacing| <= 255
    ensures var h := Header(p, crc);
            && h[..4] == CAPTURE && h[4] == 0 && h[5] == p.flags && h[6..14] == LeI64(p.granule)
            && h[14..18] == LeU32(p.serial) && h[18..22] == LeU32(p.seqNo) && h[22..26] == LeU32(crc)
            && h[26] == |p.lacing|
  {}

  lemma ImageFields(p: Page, crc: u32, rest: seq<byte>)
    requires WellFormed(p)
    ensures var b := Image(p, crc) + rest;
            && b[..4] == CAPTURE && b[4] == 0
            && ExtentOf(b) == Complete(HEADER_LEN + |p.lacing|, |Image(p, crc)|)
            && PageOf(b) == p && StoredCrc(b) == crc
  {
    var h := Header(p, crc);
    var b := Image(p, crc) + rest;
    HeaderFields(p, crc);
    assert b[..HEADER_LEN] == h;
    assert b[..4] == h[..4] && b[6..14] == h[6..14] && b[14..18] == h[14..18];
    assert b[18..22] == h[18..22] && b[22..26] == h[22..26];
    assert b[HEADER_LEN..HEADER_LEN + |p.lacing|] == p.lacing;
    assert b[HEADER_LEN + |p.lacing|..|Image(p, crc)|] == p.data;
    I64RoundTrip(p.granule);
    U32RoundTrip(p.serial);
    U32RoundTrip(p.seqNo);
    U32RoundTrip(crc);
  }

  /** The stored checksum takes no part in the computed one. */
  lemma BlankedImage(p: Page, crc: u32)
    requires WellFormed(p)
    ensures Blanked(Image(p, crc)) == Image(p, 0)
  {
    assert LeU32(0) == FIELD_ZEROS;
    HeaderFields(p, crc);
    HeaderFields(p, 0);
    assert Header(p, crc)[..22] == Header(p, 0)[..22];
    assert Header(p, crc)[26..] == Header(p, 0)[26..];
    assert Image(p, 0) == Header(p, 0)[..22] + FIELD_ZEROS + Header(p, 0)[26..] + p.lacing + p.data;
    assert Image(p, crc)[26..] == Header(p, crc)[26..] + p.lacing + p.data;
  }

  lemma ToBytesChecksum(p: Page)
    requires WellFormed(p)
    ensures PageChecksum(ToBytes(p)) == Checksum(Image(p, 0)) == StoredCrc(ToBytes(p))
  {
    BlankedImage(p, Checksum(Image(p, 0)));
    ImageFields(p, Checksum(Image(p, 0)), []);
    assert ToBytes(p) + [] == ToBytes(p);
  }

  /** Parsing inverts serializing, whatever follows the page. */
  lemma ParseOfToBytes(p: Page, rest: seq<byte>)
    requires WellFormed(p)
    ensures Parse(ToBytes(p) + rest) == Ok((p, |ToBytes(p)|))
  {
    ImageFields(p, Checksum(Image(p, 0)), rest);
    ToBytesChecksum(p);
    assert (ToBytes(p) + rest)[..|ToBytes(p)|] == ToBytes(p);
  }

  /** A complete version-0 page with its capture pattern is its own image. */
  lemma ImageOfPageOf(b: seq<byte>)
    requires ExtentOf(b).Complete? && b[..4] == CAPTURE && b[4] == 0
    ensures WellFormed(PageOf(b)) && Image(PageOf(b), StoredCrc(b)) == b[..ExtentOf(b).total]
  {
    var e := ExtentOf(b);
    var p := PageOf(b);
    I64Rewrite(b[6..14]);
    U32Rewrite(b[14..18]);
    U32Rewrite(b[18..22]);
    U32Rewrite(b[22..26]);
    assert Header(p, StoredCrc(b)) == b[..HEADER_LEN];
    assert b[..e.total] == b[..HEADER_LEN] + b[HEADER_LEN..e.headerLen] + b[e.headerLen..e.total];
  }

  /** Serializing inverts parsing: it reproduces exactly the consumed bytes. */
  lemma ToBytesOfParse(b: seq<byte>)
    requires Parse(b).Ok?
    ensures var (p, n) := Parse(b).value;
            HEADER_LEN <= n <= |b| && WellFormed(p) && ToBytes(p) == b[..n]
  {
    var (p, n) := Parse(b).value;
    ImageOfPageOf(b);
    BlankedImage(p, StoredCrc(b));
  }

  /** Serializing succeeds on exactly the pages that some bytes parse to. */
  lemma SerializedIsParsed(p: Page)
    ensures TryToBytes(p).Ok? <==> exists b :: Parse(b).Ok? && Parse(b).value.0 == p
    ensures TryToBytes(p).Ok? ==> Parse(TryToBytes(p).value) == Ok((p, |TryToBytes(p).value|))
  {
    if TryToBytes(p).Ok? {
      ParseOfToBytes(p, []);
      PlusNil(ToBytes(p));
      assert Parse(ToBytes(p)).Ok?;
    }
    forall b | Parse(b).Ok? && Parse(b).value.0 == p
      ensures WellFormed(p)
    {
      ToBytesOfParse(b);
    }
  }

  lemma ImagePrefix(p: Page, crc: u32, b: seq<byte>)
    requires WellFormed(p) && b <= Image(p, crc)
    ensures |b| >= 5 ==> b[..4] == CAPTURE && b[4] == 0
    ensures |b| >= HEADER_LEN ==> b[26] == |p.lacing|
    ensures |b| >= HEADER_LEN + |p.lacing| ==> b[HEADER_LEN..HEADER_LEN + |p.lacing|] == p.lacing
  {
    var all := Image(p, crc);
    HeaderFields(p, crc);
    assert all[..HEADER_LEN] == Header(p, crc);
    assert all[..4] == Header(p, crc)[..4] && all[4] == Header(p, crc)[4] && all[26] == Header(p, crc)[26];
    assert all[HEADER_LEN..HEADER_LEN + |p.lacing|] == p.lacing;
    forall k | 0 <= k < |b|
      ensures b[k] == all[k]
    {}
  }

  /** A page cut short anywhere asks for more, never for something else. */
  lemma TruncatedNeedsMore(p: Page, b: seq<byte>)
    requires WellFormed(p) && b < ToBytes(p)
    ensures Parse(b) == Err(NeedMore)
  {
    ImagePrefix(p, Checksum(Image(p, 0)), b);
  }

  // ----- the EOS patch -----

  function Splice(b: seq<byte>, at: nat, patch: seq<byte>): (r: seq<byte>)
    requires at + |patch| <= |b|
    ensures |r| == |b|
  {
    b[..at] + patch + b[at + |patch|..]
  }

  /** Set the EOS flag, then store the checksum computed over the patched page. */
  function PatchEos(b: seq<byte>): (r: seq<byte>)
    requires |b| >= HEADER_LEN
    ensures |r| == |b|
  {
    var flagged := b[5 := WithLast(b[5])];
    Splice(flagged, CRC_FIELD_OFFSET, LeU32(PageChecksum(flagged)))
  }

  /** The other route to the same patch: zero the field, then checksum the whole page. */
  function PatchEosZeroing(b: seq<byte>): (r: seq<byte>)
    requires |b| >= HEADER_LEN
    ensures |r| == |b|
  {
    var zeroed := Splice(b[5 := WithLast(b[5])], CRC_FIELD_OFFSET, FIELD_ZEROS);
    Splice(zeroed, CRC_FIELD_OFFSET, LeU32(Checksum(zeroed)))
  }

  lemma SpliceImage(p: Page, crc: u32, crc': u32)
    requires WellFormed(p)
    ensures Splice(Image(p, crc), CRC_FIELD_OFFSET, LeU32(crc')) == Image(p, crc')
  {
    assert Header(p, crc)[..22] == Header(p, crc')[..22];
    assert Header(p, crc)[26..] == Header(p, crc')[26..];
    assert Image(p, crc)[..22] == Header(p, crc)[..22];
    assert Image(p, crc)[26..] == Header(p, crc)[26..] + p.lacing + p.data;
    HeaderFields(p, crc');
    assert Header(p, crc') == Header(p, crc')[..22] + LeU32(crc') + Header(p, crc')[26..];
  }

  lemma FlagImage(p: Page, crc: u32)
    requires WellFormed(p)
    ensures Image(p, crc)[5 := WithLast(Image(p, crc)[5])] == Image(MarkLast(p), crc)
  {
    HeaderFields(p, crc);
    assert Image(p, crc)[5] == Header(p, crc)[5];
    assert Header(p, crc)[5 := WithLast(p.flags)] == Header(MarkLast(p), crc);
  }

  /** Both patches turn the bytes of a page into the bytes of the same page with only EOS added. */
  lemma EosPatch(p: Page)
    requires WellFormed(p)
    ensures PatchEos(ToBytes(p)) == ToBytes(MarkLast(p)) == PatchEosZeroing(ToBytes(p))
  {
    var crc := Checksum(Image(p, 0));
    var q := MarkLast(p);
    FlagImage(p, crc);
    BlankedImage(q, crc);
    SpliceImage(q, crc, Checksum(Image(q, 0)));
    SpliceImage(q, crc, 0);
    assert LeU32(0) == FIELD_ZEROS;
    SpliceImage(q, 0, Checksum(Image(q, 0)));
  }

  lemma {:induction false} AllBytesConcat(a: seq<Page>, b: seq<Page>)
    ensures AllBytes(a + b) == AllBytes(a) + AllBytes(b)
  {
    if a == [] {
      assert a + b == b;
    } else {
      ConcatTail(a, b);
      AllBytesConcat(a[1..], b);
      Assoc(ToBytes(a[0]), AllBytes(a[1..]), AllBytes(b));
    }
  }

  lemma AllBytesSnoc(a: seq<Page>, p: Page)
    ensures AllBytes(a + [p]) == AllBytes(a) + ToBytes(p)
  {
    AllBytesConcat(a, [p]);
    assert AllBytes([p]) == ToBytes(p) + AllBytes([]);
  }
}
