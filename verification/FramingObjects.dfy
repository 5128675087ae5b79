/** The page writer and packet assembler as the code runs them. */
module FramingObjects {
  import opened Bytes
  import opened Pages
  import opened Segments
  import opened Paging
  import opened Framing

  class PacketAssembler {
    var serial: Option<u32>
    var pending: Packet
    var midPacket: bool

    function Now(): Assembler
      reads this
    {
      Assembler(serial, pending, midPacket)
    }

    constructor ()
      ensures Now() == UNLOCKED
    {
      serial, pending, midPacket := None, [], false;
    }

    method Reset()
      modifies this
      ensures Now() == UNLOCKED
    {
      serial, pending, midPacket := None, [], false;
    }

    method PushPage(page: Page) returns (r: Outcome<seq<Packet>>)
      requires WellFormed(page)
      modifies this
      ensures (Now(), r) == Framing.PushPage(old(Now()), page)
    {
      if serial.Some? && serial.value != page.serial {
        return Bad(OtherSerial);
      }
      serial := Some(page.serial);
      if IsContinued(page) != midPacket {
        return Bad(BrokenContinuity);
      }
      var packets := FeedSegments(page);
      return Good(packets);
    }

    /** Walk the lacing table, closing a packet at every value below 255. */
    method FeedSegments(page: Page) returns (packets: seq<Packet>)
      requires WellFormed(page)
      modifies this`pending, this`midPacket
      ensures Assembly(packets, pending, midPacket) == Feed(Assembly([], old(pending), old(midPacket)), PageSegs(page))
    {
      packets := [];
      var pos := 0;
      AllSegments(page);
      for i := 0 to |page.lacing|
        invariant 0 <= pos <= |page.data| && Sum(page.lacing[i..]) == |page.data| - pos
        invariant Feed(Assembly(packets, pending, midPacket), Segs(page.lacing[i..], page.data[pos..]))
               == Feed(Assembly([], old(pending), old(midPacket)), PageSegs(page))
      {
        packets, pos := NextSegment(page, i, pos, packets);
      }
    }

    method NextSegment(page: Page, i: nat, pos: nat, packets: seq<Packet>) returns (packets': seq<Packet>, pos': nat)
      requires i < |page.lacing| && pos <= |page.data| && Sum(page.lacing[i..]) == |page.data| - pos
      modifies this`pending, this`midPacket
      ensures pos' <= |page.data| && Sum(page.lacing[i + 1..]) == |page.data| - pos'
      ensures Feed(Assembly(packets', pending, midPacket), Segs(page.lacing[i + 1..], page.data[pos'..]))
           == Feed(Assembly(packets, old(pending), old(midPacket)), Segs(page.lacing[i..], page.data[pos..]))
    {
      pos' := pos + page.lacing[i];
      TakeSegment(Assembly(packets, pending, midPacket), page.lacing, i, page.data, pos, i + 1, pos');
      packets' := AddSegment(packets, page.data[pos..pos']);
    }

    method AddSegment(packets: seq<Packet>, segment: Segment) returns (packets': seq<Packet>)
      modifies this`pending, this`midPacket
      ensures Assembly(packets', pending, midPacket)
          == FeedOne(Assembly(packets, old(pending), old(midPacket)), segment)
    {
      pending := pending + segment;
      packets' := packets;
      if |segment| < 255 {
        packets' := packets + [pending];
        pending := [];
        midPacket := false;
      } else {
        midPacket := true;
      }
    }

    static lemma AllSegments(page: Page)
      requires WellFormed(page)
      ensures page.lacing[0..] == page.lacing && page.data[0..] == page.data
      ensures Segs(page.lacing[0..], page.data[0..]) == PageSegs(page)
    {}

    static lemma TakeSegment(a: Assembly, lacing: seq<byte>, i: nat, data: seq<byte>, pos: nat, i': nat, pos': nat)
      requires i < |lacing| && pos <= |data| && Sum(lacing[i..]) == |data| - pos
      requires i' == i + 1 && pos' == pos + lacing[i]
      ensures pos' <= |data| && Sum(lacing[i'..]) == |data| - pos'
      ensures Feed(a, Segs(lacing[i..], data[pos..]))
          == Feed(FeedOne(a, data[pos..pos']), Segs(lacing[i'..], data[pos'..]))
    {
      assert lacing[i..][1..] == lacing[i'..];
      var head := data[pos..pos'];
      assert data[pos..][lacing[i]..] == data[pos'..] && data[pos..][..lacing[i]] == head;
      FeedConcat(a, [head], Segs(lacing[i'..], data[pos'..]));
      FeedSnoc(a, [], head);
      assert [] + [head] == [head];
    }
  }

  method ParseAllPages(data: seq<byte>) returns (r: Outcome<seq<Page>>)
    ensures r == ParsePages(data)
  {
    var pages: seq<Page> := [];
    var pos := 0;
    assert data[0..] == data;
    PrependNone(ParsePages(data));
    while pos < |data|
      invariant 0 <= pos <= |data|
      invariant ParsePages(data) == Prepend(pages, ParsePages(data[pos..]))
    {
      var parsed := Parse(data[pos..]);
      if parsed.Err? {
        return Bad(Malformed(parsed.error));
      }
      var (page, used) := parsed.value;
      NextPage(data, pos, page, used, pages, pos + used);
      pages := pages + [page];
      pos := pos + used;
    }
    PlusNil(pages);
    return Good(pages);
  }

  lemma PrependNone(rest: Outcome<seq<Page>>)
    ensures Prepend([], rest) == rest
  {
    if rest.Good? {
      PlusNil(rest.value);
    }
  }

  lemma NextPage(data: seq<byte>, pos: nat, page: Page, used: nat, pages: seq<Page>, next: nat)
    requires pos < |data| && Parse(data[pos..]) == Pages.Ok((page, used)) && next == pos + used
    ensures pos < next <= |data|
    ensures Prepend(pages, ParsePages(data[pos..])) == Prepend(pages + [page], ParsePages(data[next..]))
  {
    assert data[pos..][used..] == data[next..];
    PrependOne(pages, page, ParsePages(data[next..]));
  }

  function Prepend(pages: seq<Page>, rest: Outcome<seq<Page>>): Outcome<seq<Page>>
  {
    if rest.Good? then Good(pages + rest.value) else rest
  }

  lemma PrependOne(pages: seq<Page>, page: Page, rest: Outcome<seq<Page>>)
    ensures Prepend(pages, Prepend([page], rest)) == Prepend(pages + [page], rest)
  {
    if rest.Good? {
      Assoc(pages, [page], rest.value);
    }
  }

  method ReadPackets(data: seq<byte>) returns (r: Outcome<seq<Packet>>)
    ensures r == PagesToPackets(data)
  {
    var parsed := ParseAllPages(data);
    if parsed.Bad? {
      return Bad(parsed.failure);
    }
    ParsedBytes(data);
    var pages := parsed.value;
    var assembler := new PacketAssembler();
    var packets: seq<Packet> := [];
    var i := 0;
    assert pages[..0] == [];
    while i < |pages|
      invariant 0 <= i <= |pages| && fresh(assembler)
      invariant Assemble(pages[..i]) == (assembler.Now(), Good(packets))
    {
      assert pages[..i + 1] == pages[..i] + [pages[i]];
      UnSnoc(pages[..i], pages[i]);
      var more := assembler.PushPage(pages[i]);
      if more.Bad? {
        StaysBad(pages, i + 1);
        return Bad(more.failure);
      }
      packets := packets + more.value;
      i := i + 1;
    }
    assert pages[..i] == pages;
    return Good(packets);
  }

  lemma {:induction false} StaysBad(pages: seq<Page>, n: nat)
    requires n <= |pages| && Assemble(pages[..n]).1.Bad?
    ensures Assemble(pages).1 == Assemble(pages[..n]).1
    decreases |pages| - n
  {
    if n == |pages| {
      assert pages[..n] == pages;
    } else {
      UnSnoc(pages[..n], pages[n]);
      assert pages[..n + 1] == pages[..n] + [pages[n]];
      StaysBad(pages, n + 1);
    }
  }

  class PageWriter {
    const serial: u32
    var sequence: u32
    var lacing: seq<byte>
    var body: seq<byte>
    var pageGranule: Option<i64>
    var pendingContinued: bool
    var bosPending: bool
    var lastPageRange: Option<(nat, nat)>
    var pageTarget: Option<nat>
    var out: seq<byte>

    /** The pages `out` is made of. */
    ghost var pages: seq<Page>

    /** The output is the bytes of `pages`, and the last of them is where it is said to be. */
    ghost predicate Written()
      reads this
    {
      && AllWellFormed(pages) && out == AllBytes(pages)
      && lastPageRange == (if pages == [] then None else Some((TotalSize(pages[..|pages| - 1]), |out|)))
    }

    ghost predicate Valid()
      reads this
    {
      && Written()
      && sequence == |pages| % TWO32
      && bosPending == (pages == [])
      && |lacing| <= 255 && |body| == Sum(lacing)
    }

    ghost function Now(): Writer
      reads this
    {
      Writer(serial, pages, lacing, body, pageGranule, pendingContinued, pageTarget)
    }

    constructor (serial: u32)
      ensures Valid() && Now() == NewWriter(serial)
    {
      this.serial := serial;
      sequence, lacing, body, pageGranule := 0, [], [], None;
      pendingContinued, bosPending, lastPageRange, pageTarget := false, true, None, None;
      out, pages := [], [];
    }

    method SetPageTarget(bytes: Option<nat>)
      requires Valid()
      modifies this`pageTarget
      ensures Valid() && Now() == Apply(old(Now()), SetTarget(bytes))
    {
      pageTarget := bytes;
    }

    method AppendBytes(page: Page)
      requires Written() && WellFormed(page)
      modifies this`out, this`lastPageRange, this`pages
      ensures Written() && pages == old(pages) + [page]
    {
      var start := |out|;
      AllBytesSnoc(pages, page);
      OnePageMore(pages, page);
      out := out + ToBytes(page);
      lastPageRange := Some((start, |out|));
      pages := pages + [page];
    }

    method WritePage(page: Page)
      requires Valid() && WellFormed(page)
      modifies this`out, this`lastPageRange, this`pages, this`sequence, this`bosPending
      ensures Valid() && pages == old(pages) + [page]
    {
      CountWraps(|pages|);
      bosPending := false;
      sequence := NextU32(sequence);
      AppendBytes(page);
    }

    /** The pending data as a page; it takes the next sequence number and BOS if it is the first. */
    method PendingPage(eos: bool) returns (page: Page)
      requires Valid()
      ensures page == PageOut(Now(), eos) && WellFormed(page)
    {
      var granule := if pageGranule.Some? then pageGranule.value else -1;
      page := Page(Flags(pendingContinued, bosPending, eos), granule, serial, sequence, lacing, body);
    }

    method EmitPage(nextContinued: bool, eos: bool)
      requires Valid()
      modifies this
      ensures Valid() && Now() == Emit(old(Now()), nextContinued, eos)
    {
      var page := PendingPage(eos);
      WritePage(page);
      StartPage(nextContinued);
    }

    method StartPage(continued: bool)
      requires Valid()
      modifies this`lacing, this`body, this`pageGranule, this`pendingContinued
      ensures Valid() && lacing == [] && body == [] && pageGranule == None && pendingContinued == continued
    {
      lacing, body := [], [];
      pageGranule := None;
      pendingContinued := continued;
    }

    method PushPacket(packet: Packet, granulepos: i64)
      requires Valid()
      modifies this
      ensures Valid() && Now() == Framing.PushPacket(old(Now()), packet, granulepos)
    {
      if |lacing| == MAX_PAGE_SEGMENTS {
        EmitPage(false, false);
      }
      ghost var target := Put(Now(), packet, granulepos);
      var remaining := packet;
      while true
        invariant Valid() && |lacing| < MAX_PAGE_SEGMENTS && Put(Now(), remaining, granulepos) == target
        decreases |remaining|
      {
        var done;
        remaining, done := FillTable(remaining, granulepos);
        if done {
          return;
        }
        PutFull(Now(), remaining, granulepos);
        EmitPage(true, false);
      }
    }

    /** Append segments until the packet ends or the table is full with the packet still going on. */
    method FillTable(packet: Packet, granulepos: i64) returns (remaining: Packet, done: bool)
      requires Valid() && |lacing| < MAX_PAGE_SEGMENTS
      modifies this
      ensures Valid()
      ensures done ==> Now() == Put(old(Now()), packet, granulepos)
      ensures !done ==> |lacing| == MAX_PAGE_SEGMENTS && |remaining| < |packet|
      ensures !done ==> Put(Now(), remaining, granulepos) == Put(old(Now()), packet, granulepos)
    {
      remaining := packet;
      while |lacing| < MAX_PAGE_SEGMENTS
        invariant Valid() && Put(Now(), remaining, granulepos) == Put(old(Now()), packet, granulepos)
        invariant |remaining| < |packet| || |lacing| < MAX_PAGE_SEGMENTS
        invariant |remaining| <= |packet|
        decreases |remaining|
      {
        var take := Min(|remaining|, 255);
        PutSegment(Now(), remaining, granulepos);
        assert take < 255 ==> remaining[..take] == remaining;
        AppendSegment(remaining[..take]);
        remaining := remaining[take..];
        if take < 255 {
          CompletePacket(granulepos);
          return remaining, true;
        }
      }
      return remaining, false;
    }

    method AppendSegment(segment: Segment)
      requires Valid() && |segment| <= 255 && |lacing| < 255
      modifies this`lacing, this`body
      ensures Valid() && Now() == AddSegment(old(Now()), segment)
    {
      OneSeg(segment);
      SumConcat(lacing, [|segment|]);
      lacing := lacing + [|segment|];
      body := body + segment;
    }

    method CompletePacket(granulepos: i64)
      requires Valid()
      modifies this
      ensures Valid() && Now() == EndPacket(old(Now()), granulepos)
    {
      pageGranule := Some(granulepos);
      if pageTarget.Some? && |body| >= pageTarget.value {
        EmitPage(false, false);
      }
    }

    method FlushPage()
      requires Valid()
      modifies this
      ensures Valid() && Now() == Framing.FlushPage(old(Now()))
    {
      if lacing != [] {
        EmitPage(false, false);
      }
    }

    /** Close the stream and hand over its bytes; the last page gets its EOS flag in place. */
    method Finish() returns (bytes: seq<byte>)
      requires Valid()
      modifies this
      ensures bytes == AllBytes(Framing.Finish(old(Now())))
    {
      if lacing != [] {
        EmitPage(false, true);
      } else if lastPageRange.Some? {
        var (start, end) := lastPageRange.value;
        PatchLast(pages);
        out := out[..start] + PatchEos(out[start..end]) + out[end..];
      }
      return out;
    }
  }

  lemma OnePageMore(pages: seq<Page>, page: Page)
    requires AllWellFormed(pages) && WellFormed(page)
    ensures var r := pages + [page]; AllWellFormed(r) && r != [] && r[..|r| - 1] == pages
  {
    UnSnoc(pages, page);
  }

  lemma CountWraps(n: nat)
    ensures NextU32(n % TWO32) == (n + 1) % TWO32
  {}

  /** Patching the last page's bytes in place marks that page and touches nothing else. */
  lemma PatchLast(pages: seq<Page>)
    requires pages != [] && AllWellFormed(pages)
    ensures var front := pages[..|pages| - 1];
            var out := AllBytes(pages);
            && TotalSize(front) <= |out| && |out[TotalSize(front)..|out|]| >= HEADER_LEN
            && out[..TotalSize(front)] + PatchEos(out[TotalSize(front)..|out|]) + out[|out|..]
            == AllBytes(WithEos(pages))
  {
    var front, last := pages[..|pages| - 1], pages[|pages| - 1];
    assert pages == front + [last];
    AllBytesSnoc(front, last);
    AllBytesSnoc(front, MarkLast(last));
    EosPatch(last);
    CutBytes(AllBytes(front), ToBytes(last));
  }

  lemma CutBytes(a: seq<byte>, b: seq<byte>)
    ensures (a + b)[..|a|] == a && (a + b)[|a|..|a + b|] == b && (a + b)[|a + b|..] == []
  {}
}
