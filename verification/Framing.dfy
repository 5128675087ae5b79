/**
 Packets to pages and back for one logical bitstream: what the page writer and the strict
 packet assembler compute, and the proof that they are inverse for every schedule of calls.
 `FramingObjects` holds the objects that run it.
 */
module Framing {
  import opened Bytes
  import opened Pages
  import opened Segments
  import opened Validation
  import opened Grammar
  import opened Decision
  import opened Paging

  const MAX_PAGE_SEGMENTS := 255

  // ----- reading: pages of a buffer -----

  datatype Failure = Malformed(error: Pages.Error) | OtherSerial | BrokenContinuity

  datatype Outcome<+T> = Good(value: T) | Bad(failure: Failure)

  /** Every page of a buffer, or the first parse error. */
  function ParsePages(data: seq<byte>): Outcome<seq<Page>>
    decreases |data|
  {
    if data == [] then Good([])
    else
      match Parse(data)
      case Err(e) => Bad(Malformed(e))
      case Ok((page, used)) =>
        match ParsePages(data[used..])
        case Bad(f) => Bad(f)
        case Good(rest) => Good([page] + rest)
  }

  lemma {:induction false} ParseAllBytes(pages: seq<Page>)
    requires AllWellFormed(pages)
    ensures ParsePages(AllBytes(pages)) == Good(pages)
    decreases |pages|
  {
    if pages != [] {
      var rest := AllBytes(pages[1..]);
      ParseOfToBytes(pages[0], rest);
      assert (ToBytes(pages[0]) + rest)[Size(pages[0])..] == rest;
      ParseAllBytes(pages[1..]);
      assert [pages[0]] + pages[1..] == pages;
    }
  }

  lemma HeadBytes(page: Page, rest: seq<Page>)
    requires WellFormed(page) && AllWellFormed(rest)
    ensures AllWellFormed([page] + rest) && AllBytes([page] + rest) == ToBytes(page) + AllBytes(rest)
  {
    assert ([page] + rest)[1..] == rest;
  }

  lemma ParsedHead(data: seq<byte>, page: Page, used: nat, rest: seq<Page>)
    requires Parse(data) == Ok((page, used))
    requires used <= |data| && AllWellFormed(rest) && AllBytes(rest) == data[used..]
    ensures used > 0 && AllWellFormed([page] + rest) && AllBytes([page] + rest) == data
  {
    ToBytesOfParse(data);
    HeadBytes(page, rest);
    assert data == data[..used] + data[used..];
  }

  /** A buffer that parses is the concatenation of the pages it parses to. */
  lemma {:induction false} ParsedBytes(data: seq<byte>)
    requires ParsePages(data).Good?
    ensures AllWellFormed(ParsePages(data).value) && AllBytes(ParsePages(data).value) == data
    decreases |data|
  {
    if data != [] {
      var (page, used) := Parse(data).value;
      var rest := ParsePages(data[used..]).value;
      ParsedBytes(data[used..]);
      ParsedHead(data, page, used, rest);
    }
  }

  // ----- reading: the strict assembler -----

  datatype Assembler = Assembler(serial: Option<u32>, pending: Packet, midPacket: bool)

  const UNLOCKED := Assembler(None, [], false)

  /** One page in: the packets that end on it, or why it does not belong here. */
  function PushPage(a: Assembler, page: Page): (Assembler, Outcome<seq<Packet>>)
  {
    if a.serial.Some? && a.serial.value != page.serial then (a, Bad(OtherSerial))
    else
      var locked := a.(serial := Some(page.serial));
      if IsContinued(page) != a.midPacket then (locked, Bad(BrokenContinuity))
      else
        var fed := Feed(Assembly([], a.pending, a.midPacket), PageSegs(page));
        (Assembler(Some(page.serial), fed.pending, fed.open), Good(fed.packets))
  }

  /** All pages in, from a fresh assembler; it stops at the first error. */
  function Assemble(pages: seq<Page>): (Assembler, Outcome<seq<Packet>>)
  {
    if pages == [] then (UNLOCKED, Good([]))
    else
      var (a, done) := Assemble(pages[..|pages| - 1]);
      if done.Bad? then (a, done)
      else
        var (a', more) := PushPage(a, pages[|pages| - 1]);
        (a', if more.Bad? then more else Good(done.value + more.value))
  }

  function PagesToPackets(data: seq<byte>): Outcome<seq<Packet>>
  {
    match ParsePages(data)
    case Bad(f) => Bad(f)
    case Good(pages) => Assemble(pages).1
  }

  /** `continued` on each page says whether the segments before it end inside a packet. */
  predicate Contiguous(pages: seq<Page>)
  {
    pages == [] ||
    (&& Contiguous(pages[..|pages| - 1])
     && IsContinued(pages[|pages| - 1]) == Feed(FRESH, AllSegs(pages[..|pages| - 1])).open)
  }

  predicate OneSerial(pages: seq<Page>) { forall i :: 0 <= i < |pages| ==> pages[i].serial == pages[0].serial }

  lemma AssembleStep(pages: seq<Page>, page: Page, a: Assembler)
    requires var fed := Feed(FRESH, AllSegs(pages));
             a.pending == fed.pending && a.midPacket == fed.open && Assemble(pages) == (a, Good(fed.packets))
    requires a.serial == (if pages == [] then None else Some(pages[0].serial))
    requires pages == [] || pages[0].serial == page.serial
    requires IsContinued(page) == a.midPacket
    ensures var fed := Feed(FRESH, AllSegs(pages + [page]));
            Assemble(pages + [page]) == (Assembler(Some(page.serial), fed.pending, fed.open), Good(fed.packets))
  {
    UnSnoc(pages, page);
    var fed := Feed(FRESH, AllSegs(pages));
    AllSegsSnoc(pages, page);
    FeedConcat(FRESH, AllSegs(pages), PageSegs(page));
    PlusNil(fed.packets);
    FeedFrame(Assembly([], fed.pending, fed.open), fed.packets, PageSegs(page));
  }

  /**
   The assembler accepts exactly the runs of one serial whose `continued` flags agree with the
   packets in progress, and then returns what reassembling all their segments returns.
   */
  lemma {:induction false} AssembleMeaning(pages: seq<Page>)
    ensures Assemble(pages).1.Good? <==> OneSerial(pages) && Contiguous(pages)
    ensures Assemble(pages).1.Good? ==>
              var fed := Feed(FRESH, AllSegs(pages));
              var serial := if pages == [] then None else Some(pages[0].serial);
              Assemble(pages) == (Assembler(serial, fed.pending, fed.open), Good(fed.packets))
  {
    if pages != [] {
      var front, last := pages[..|pages| - 1], pages[|pages| - 1];
      AssembleMeaning(front);
      SerialSnoc(front, last);
      assert pages == front + [last];
      if Assemble(front).1.Good? && OneSerial(pages) && IsContinued(last) == Assemble(front).0.midPacket {
        AssembleStep(front, last, Assemble(front).0);
      }
    }
  }

  /** It stops at the first page that does not belong: one of another serial, or one whose flag is wrong. */
  lemma {:induction false} AssembleFails(pages: seq<Page>) returns (k: nat)
    requires Assemble(pages).1.Bad?
    ensures k < |pages| && OneSerial(pages[..k]) && Contiguous(pages[..k])
    ensures var other := k > 0 && pages[k].serial != pages[0].serial;
            && Assemble(pages).1.failure == (if other then OtherSerial else BrokenContinuity)
            && (!other ==> IsContinued(pages[k]) != Feed(FRESH, AllSegs(pages[..k])).open)
  {
    var n := |pages| - 1;
    if Assemble(pages[..n]).1.Bad? {
      k := AssembleFails(pages[..n]);
      assert pages[..n][..k] == pages[..k];
    } else {
      k := n;
      AssembleMeaning(pages[..n]);
    }
  }

  lemma SerialSnoc(pages: seq<Page>, p: Page)
    ensures OneSerial(pages + [p]) <==> OneSerial(pages) && (pages == [] || p.serial == pages[0].serial)
  {
    var r := pages + [p];
    if OneSerial(r) {
      forall i | 0 <= i < |pages|
        ensures pages[i].serial == pages[0].serial
      {
        assert r[i].serial == r[0].serial;
      }
      assert r[|pages|].serial == r[0].serial;
    }
  }

  // ----- writing -----

  /** A page writer's state; `pages` are the pages already in its output. */
  datatype Writer = Writer(
    serial: u32,
    pages: seq<Page>,
    lacing: seq<byte>,
    body: seq<byte>,
    pageGranule: Option<i64>,
    pendingContinued: bool,
    pageTarget: Option<nat>)

  function NewWriter(serial: u32): Writer { Writer(serial, [], [], [], None, false, None) }

  function PageOut(w: Writer, eos: bool): Page
  {
    Page(Flags(w.pendingContinued, w.pages == [], eos), if w.pageGranule.Some? then w.pageGranule.value else -1,
         w.serial, |w.pages| % TWO32, w.lacing, w.body)
  }

  function Emit(w: Writer, nextContinued: bool, eos: bool): Writer
  {
    w.(pages := w.pages + [PageOut(w, eos)], lacing := [], body := [], pageGranule := None,
       pendingContinued := nextContinued)
  }

  /** The packet's last segment is in place: stamp the page, and emit it at the soft target. */
  function EndPacket(w: Writer, granule: i64): Writer
  {
    var stamped := w.(pageGranule := Some(granule));
    if w.pageTarget.Some? && |w.body| >= w.pageTarget.value then Emit(stamped, false, false) else stamped
  }

  function AddSegment(w: Writer, segment: Segment): Writer
    requires |segment| <= 255
  {
    w.(lacing := w.lacing + [|segment|], body := w.body + segment)
  }

  /** Lay out what remains of a packet, cutting a page whenever the segment table fills. */
  function Put(w: Writer, rest: Packet, granule: i64): Writer
    decreases |rest|
  {
    var v := if |w.lacing| >= MAX_PAGE_SEGMENTS then Emit(w, true, false) else w;
    if |rest| < 255 then EndPacket(AddSegment(v, rest), granule)
    else Put(AddSegment(v, rest[..255]), rest[255..], granule)
  }

  lemma PutFull(w: Writer, rest: Packet, granule: i64)
    requires |w.lacing| == MAX_PAGE_SEGMENTS
    ensures Put(w, rest, granule) == Put(Emit(w, true, false), rest, granule)
  {}

  lemma PutSegment(w: Writer, rest: Packet, granule: i64)
    requires |w.lacing| < MAX_PAGE_SEGMENTS
    ensures |rest| < 255 ==> Put(w, rest, granule) == EndPacket(AddSegment(w, rest), granule)
    ensures |rest| >= 255 ==> Put(w, rest, granule) == Put(AddSegment(w, rest[..255]), rest[255..], granule)
  {}

  function PushPacket(w: Writer, packet: Packet, granule: i64): Writer
  {
    Put(if |w.lacing| == MAX_PAGE_SEGMENTS then Emit(w, false, false) else w, packet, granule)
  }

  function FlushPage(w: Writer): Writer { if w.lacing == [] then w else Emit(w, false, false) }

  /** The pages of the finished stream: pending data goes out as EOS, else the last page is patched. */
  function Finish(w: Writer): seq<Page>
  {
    if w.lacing != [] then Emit(w, false, true).pages else WithEos(w.pages)
  }

  datatype Call = Push(packet: Packet, granule: i64) | Flush | SetTarget(target: Option<nat>)

  function Apply(w: Writer, call: Call): Writer
  {
    match call
    case Push(packet, granule) => PushPacket(w, packet, granule)
    case Flush => FlushPage(w)
    case SetTarget(target) => w.(pageTarget := target)
  }

  function After(serial: u32, calls: seq<Call>): Writer
  {
    if calls == [] then NewWriter(serial) else Apply(After(serial, calls[..|calls| - 1]), calls[|calls| - 1])
  }

  function Packets(calls: seq<Call>): seq<Packet>
  {
    if calls == [] then []
    else
      var last := calls[|calls| - 1];
      Packets(calls[..|calls| - 1]) + if last.Push? then [last.packet] else []
  }

  function Stamps(calls: seq<Call>): seq<i64>
  {
    if calls == [] then []
    else
      var last := calls[|calls| - 1];
      Stamps(calls[..|calls| - 1]) + if last.Push? then [last.granule] else []
  }

  // ----- what every schedule of calls keeps -----

  function View(w: Writer): Builder
  {
    Builder(w.lacing, w.body, if w.pageGranule.Some? then w.pageGranule.value else -1, w.pendingContinued)
  }

  /** The writer holds exactly the segments `segs`, stamped `stamps`. */
  predicate Holds(w: Writer, segs: seq<Segment>, stamps: seq<i64>)
  {
    Framed(w.pages, w.serial, View(w), segs, stamps)
  }

  lemma EmitHolds(w: Writer, segs: seq<Segment>, stamps: seq<i64>)
    requires Holds(w, segs, stamps) && w.lacing != []
    ensures Holds(Emit(w, EndsOpen(w.lacing), false), segs, stamps)
  {
    CutFramed(w.pages, w.serial, View(w), segs, stamps);
  }

  lemma OneLace(n: byte)
    ensures Sum([n]) == n && CompletedCount([n]) == (if n < 255 then 1 else 0)
  {
    assert Sum([n]) == n + Sum([]);
    assert [n][..0] == [];
  }

  lemma AddFull(w: Writer, segment: Segment, segs: seq<Segment>, stamps: seq<i64>)
    requires Holds(w, segs, stamps) && |w.lacing| < 255 && |segment| == 255
    ensures Holds(AddSegment(w, segment), segs + [segment], stamps)
  {
    OneLace(255);
    OneSeg(segment);
    AppendOpen(w.pages, w.serial, View(w), segs, stamps, [255], segment);
  }

  lemma AddLast(w: Writer, segment: Segment, granule: i64, segs: seq<Segment>, stamps: seq<i64>)
    requires Holds(w, segs, stamps) && |w.lacing| < 255 && |segment| < 255
    ensures Holds(AddSegment(w, segment).(pageGranule := Some(granule)), segs + [segment], stamps + [granule])
  {
    OneLace(|segment|);
    OneSeg(segment);
    AppendEnd(w.pages, w.serial, View(w), segs, stamps, [|segment|], segment, granule);
  }

  lemma EndHolds(w: Writer, granule: i64, segs: seq<Segment>, stamps: seq<i64>)
    requires Holds(w.(pageGranule := Some(granule)), segs, stamps) && w.lacing != [] && !EndsOpen(w.lacing)
    ensures Holds(EndPacket(w, granule), segs, stamps)
  {
    EmitHolds(w.(pageGranule := Some(granule)), segs, stamps);
  }

  lemma ShortPacket(packet: Packet)
    requires |packet| < 255
    ensures PacketSegs(packet) == [packet]
  {
    LaceStep(|packet|);
    OneSeg(packet);
  }

  lemma {:induction false} PutHolds(w: Writer, rest: Packet, granule: i64, segs: seq<Segment>, stamps: seq<i64>)
    requires Holds(w, segs, stamps) && (|w.lacing| == 255 ==> EndsOpen(w.lacing))
    ensures Holds(Put(w, rest, granule), segs + PacketSegs(rest), stamps + [granule])
    decreases |rest|
  {
    var v := if |w.lacing| >= MAX_PAGE_SEGMENTS then Emit(w, true, false) else w;
    if |w.lacing| == 255 {
      EmitHolds(w, segs, stamps);
    }
    if |rest| < 255 {
      ShortPacket(rest);
      AddLast(v, rest, granule, segs, stamps);
      EndHolds(AddSegment(v, rest), granule, segs + [rest], stamps + [granule]);
    } else {
      AddFull(v, rest[..255], segs, stamps);
      PacketSegsStep(rest);
      Assoc(segs, [rest[..255]], PacketSegs(rest[255..]));
      PutHolds(AddSegment(v, rest[..255]), rest[255..], granule, segs + [rest[..255]], stamps);
    }
  }

  /** Between calls the writer holds whole packets only. */
  predicate HoldsPackets(w: Writer, packets: seq<Packet>, stamps: seq<i64>)
  {
    Holds(w, AllPacketSegs(packets), stamps)
  }

  lemma NothingOpen(w: Writer, packets: seq<Packet>, stamps: seq<i64>)
    requires HoldsPackets(w, packets, stamps)
    ensures !EndsOpen(w.lacing) && (w.lacing == [] ==> !LeftOpen(w.pages))
  {
    FeedAllPackets(packets);
    BetweenPackets(w.pages, w.serial, View(w), AllPacketSegs(packets), stamps);
  }

  lemma PushHolds(w: Writer, packet: Packet, granule: i64, packets: seq<Packet>, stamps: seq<i64>)
    requires HoldsPackets(w, packets, stamps)
    ensures HoldsPackets(PushPacket(w, packet, granule), packets + [packet], stamps + [granule])
  {
    NothingOpen(w, packets, stamps);
    AllPacketSegsSnoc(packets, packet);
    var v := if |w.lacing| == MAX_PAGE_SEGMENTS then Emit(w, false, false) else w;
    if |w.lacing| == MAX_PAGE_SEGMENTS {
      EmitHolds(w, AllPacketSegs(packets), stamps);
    }
    PutHolds(v, packet, granule, AllPacketSegs(packets), stamps);
  }

  lemma FlushHolds(w: Writer, packets: seq<Packet>, stamps: seq<i64>)
    requires HoldsPackets(w, packets, stamps)
    ensures HoldsPackets(FlushPage(w), packets, stamps)
  {
    NothingOpen(w, packets, stamps);
    if w.lacing != [] {
      EmitHolds(w, AllPacketSegs(packets), stamps);
    }
  }

  lemma {:induction false} CallsHold(serial: u32, calls: seq<Call>)
    ensures After(serial, calls).serial == serial
    ensures HoldsPackets(After(serial, calls), Packets(calls), Stamps(calls))
  {
    if calls == [] {
      StartsFramed(serial);
    } else {
      var front, last := calls[..|calls| - 1], calls[|calls| - 1];
      CallsHold(serial, front);
      var w := After(serial, front);
      KeepsSerial(w, last);
      match last
      case Push(packet, granule) => PushHolds(w, packet, granule, Packets(front), Stamps(front));
      case Flush =>
        PlusNil(Packets(front));
        PlusNil(Stamps(front));
        FlushHolds(w, Packets(front), Stamps(front));
      case SetTarget(_) =>
        PlusNil(Packets(front));
        PlusNil(Stamps(front));
    }
  }

  lemma KeepsSerial(w: Writer, call: Call)
    ensures Apply(w, call).serial == w.serial
  {
    if call.Push? {
      PutKeepsSerial(if |w.lacing| == MAX_PAGE_SEGMENTS then Emit(w, false, false) else w, call.packet, call.granule);
    }
  }

  lemma {:induction false} PutKeepsSerial(w: Writer, rest: Packet, granule: i64)
    ensures Put(w, rest, granule).serial == w.serial
    decreases |rest|
  {
    if |rest| >= 255 {
      var v := if |w.lacing| >= MAX_PAGE_SEGMENTS then Emit(w, true, false) else w;
      PutKeepsSerial(AddSegment(v, rest[..255]), rest[255..], granule);
    }
  }

  // ----- the finished stream -----

  /** Ending on pending data and patching the last page come to the same pages. */
  lemma FinishIsFlush(w: Writer)
    ensures Finish(w) == WithEos(FlushPage(w).pages)
  {
    if w.lacing != [] {
      assert MarkLast(PageOut(w, false)) == PageOut(w, true);
      UnSnoc(w.pages, PageOut(w, false));
    }
  }

  /** The pages of a writer that has been flushed hold all its packets. */
  lemma FlushedPages(w: Writer, packets: seq<Packet>, stamps: seq<i64>)
    requires HoldsPackets(w, packets, stamps)
    ensures var q := FlushPage(w).pages;
            && CutPages(q, w.serial, stamps) && AllSegs(q) == AllPacketSegs(packets) && Done(q) == |stamps|
            && !LeftOpen(q)
  {
    FlushHolds(w, packets, stamps);
    NothingOpen(FlushPage(w), packets, stamps);
    PlusNil(AllSegs(FlushPage(w).pages));
  }

  /** On pages a writer cut, an open packet is one whose last page ends on a full segment. */
  lemma CutOpen(q: seq<Page>, serial: u32, stamps: seq<i64>)
    requires CutPages(q, serial, stamps)
    ensures Feed(FRESH, AllSegs(q)).open == LeftOpen(q)
  {
    FeedCounts(FRESH, AllSegs(q));
    if q != [] {
      var front, p := q[..|q| - 1], q[|q| - 1];
      assert CutPage(front, p, serial, stamps);
      ConcatFront(AllSegs(front), PageSegs(p));
    }
  }

  lemma {:induction false} CutContiguous(q: seq<Page>, serial: u32, stamps: seq<i64>)
    requires CutPages(q, serial, stamps)
    ensures Contiguous(q) && Contiguous(WithEos(q))
  {
    if q != [] {
      var front, p := q[..|q| - 1], q[|q| - 1];
      CutContiguous(front, serial, stamps);
      CutOpen(front, serial, stamps);
      UnSnoc(front, MarkLast(p));
    }
  }

  lemma WithEosSerial(q: seq<Page>, serial: u32)
    requires forall i :: 0 <= i < |q| ==> q[i].serial == serial
    ensures forall i :: 0 <= i < |q| ==> WithEos(q)[i].serial == serial
  {
    forall i | 0 <= i < |q|
      ensures WithEos(q)[i].serial == serial
    {
      assert WithEos(q)[i].serial == q[i].serial;
    }
  }

  lemma AssembleWhole(pages: seq<Page>, packets: seq<Packet>)
    requires OneSerial(pages) && Contiguous(pages) && AllSegs(pages) == AllPacketSegs(packets)
    ensures Assemble(pages).1 == Good(packets)
  {
    AssembleMeaning(pages);
    FeedAllPackets(packets);
  }

  lemma CutAssembles(q: seq<Page>, serial: u32, stamps: seq<i64>, packets: seq<Packet>)
    requires CutPages(q, serial, stamps) && AllSegs(q) == AllPacketSegs(packets)
    ensures Assemble(WithEos(q)).1 == Good(packets)
  {
    CutBasics(q, serial, stamps);
    WithEosSerial(q, serial);
    CutContiguous(q, serial, stamps);
    WithEosSegs(q);
    AssembleWhole(WithEos(q), packets);
  }

  /** For any schedule of calls, reading the finished bytes back returns the packets pushed. */
  lemma WriterRoundTrip(serial: u32, calls: seq<Call>)
    ensures PagesToPackets(AllBytes(Finish(After(serial, calls)))) == Good(Packets(calls))
  {
    var w := After(serial, calls);
    var q := FlushPage(w).pages;
    CallsHold(serial, calls);
    FlushedPages(w, Packets(calls), Stamps(calls));
    CutBasics(q, serial, Stamps(calls));
    FinishIsFlush(w);
    WithEosSegs(q);
    ParseAllBytes(WithEos(q));
    CutAssembles(q, serial, Stamps(calls), Packets(calls));
  }

  // ----- conformance -----

  lemma {:induction false} OneSerialProj(q: seq<Page>, serial: u32, s: u32)
    requires forall i :: 0 <= i < |q| ==> q[i].serial == serial
    ensures Proj(q, s) == if s == serial then q else []
  {
    if q != [] {
      OneSerialProj(q[..|q| - 1], serial, s);
      assert q[..|q| - 1] + [q[|q| - 1]] == q;
    }
  }

  lemma {:induction false} SoleConforms(q: seq<Page>, serial: u32)
    requires Prefix(q) && forall i :: 0 <= i < |q| ==> q[i].serial == serial
    ensures Conforms(q) && |Links(q)| == (if q == [] then 0 else 1) && BosCount(q) == |Links(q)|
  {
    if q != [] {
      var front, p := q[..|q| - 1], q[|q| - 1];
      SoleConforms(front, serial);
      OneSerialProj(front, serial, serial);
      assert IsFirst(p) <==> front == [];
    }
  }

  /** A closed prefix of one stream is a physical bitstream of one link. */
  lemma SoleStream(q: seq<Page>, serial: u32)
    requires q != [] && Prefix(q) && Closed(q) && forall i :: 0 <= i < |q| ==> q[i].serial == serial
    ensures Physical(q) && |Links(q)| == 1 && BosCount(q) == 1
  {
    SoleConforms(q, serial);
    forall s | Proj(q, s) != []
      ensures Closed(Proj(q, s))
    {
      OneSerialProj(q, serial, s);
    }
    RunIsPhysical(q);
  }

  lemma CutClosed(q: seq<Page>, serial: u32, stamps: seq<i64>)
    requires CutPages(q, serial, stamps) && InOrder(stamps) && q != [] && !LeftOpen(q)
    ensures AllWellFormed(WithEos(q)) && Physical(WithEos(q)) && |Links(WithEos(q))| == 1 && BosCount(WithEos(q)) == 1
  {
    CutBasics(q, serial, stamps);
    CutIsPrefix(q, serial, stamps);
    WithEosCloses(q);
    WithEosSegs(q);
    WithEosSerial(q, serial);
    SoleStream(WithEos(q), serial);
  }

  lemma {:induction false} PacketSegsCount(packets: seq<Packet>)
    ensures packets != [] ==> AllPacketSegs(packets) != []
  {
    if packets != [] {
      ConcatFront(AllPacketSegs(packets[..|packets| - 1]), PacketSegs(packets[|packets| - 1]));
    }
  }

  /**
   With a packet to write and stamps in order, the finished bytes are clean: one stream, one
   link, and exactly the pages emitted.
   */
  lemma WriterConforms(serial: u32, calls: seq<Call>)
    requires Packets(calls) != [] && InOrder(Stamps(calls))
    ensures var pages := Finish(After(serial, calls));
            var st := Walk(CheckPage, ScanOf(AllBytes(pages)), 0, START).0;
            && Clean(AllBytes(pages))
            && st.streams == 1 && st.links == 1 && st.pages == |pages| == |FlushPage(After(serial, calls)).pages|
  {
    var w := After(serial, calls);
    CallsHold(serial, calls);
    FlushedPages(w, Packets(calls), Stamps(calls));
    PacketSegsCount(Packets(calls));
    FinishIsFlush(w);
    CutClosed(FlushPage(w).pages, serial, Stamps(calls));
    WithEosSegs(FlushPage(w).pages);
    CleanTotals(Finish(w));
  }

  lemma {:induction false} CutStamps(q: seq<Page>, serial: u32, stamps: seq<i64>, i: nat)
    requires CutPages(q, serial, stamps) && i < |q|
    ensures q[i].granule == StampOf(q[i].lacing, Done(q[..i + 1]), stamps)
  {
    if i < |q| - 1 {
      CutStamps(q[..|q| - 1], serial, stamps, i);
      assert q[..|q| - 1][..i + 1] == q[..i + 1];
    } else {
      assert q[..i + 1] == q;
    }
  }

  lemma WithEosStamps(q: seq<Page>, i: nat)
    requires i < |q|
    ensures WithEos(q)[i].granule == q[i].granule && WithEos(q)[i].lacing == q[i].lacing
    ensures Done(WithEos(q)[..i + 1]) == Done(q[..i + 1])
  {
    var front, p := q[..|q| - 1], q[|q| - 1];
    if i < |front| {
      assert WithEos(q)[..i + 1] == q[..i + 1];
    } else {
      DoneSnoc(front, MarkLast(p));
      assert WithEos(q)[..i + 1] == front + [MarkLast(p)] && q[..i + 1] == q;
    }
  }

  lemma StampsOfCut(cut: seq<Page>, serial: u32, stamps: seq<i64>, q: seq<Page>, i: nat)
    requires CutPages(cut, serial, stamps) && q == WithEos(cut) && i < |q|
    ensures q[i].granule == StampOf(q[i].lacing, Done(q[..i + 1]), stamps)
  {
    CutStamps(cut, serial, stamps, i);
    WithEosStamps(cut, i);
  }

  lemma DoneWithEos(q: seq<Page>)
    ensures Done(WithEos(q)) == Done(q)
  {
    if q != [] {
      DoneSnoc(q[..|q| - 1], MarkLast(q[|q| - 1]));
    }
  }

  /** Each page carries the stamp of the last packet completed on it, or -1 if none is. */
  lemma PageStamps(serial: u32, calls: seq<Call>, q: seq<Page>, i: nat)
    requires q == Finish(After(serial, calls)) && i < |q|
    ensures q[i].granule == StampOf(q[i].lacing, Done(q[..i + 1]), Stamps(calls))
    ensures Done(q) == |Packets(calls)| == |Stamps(calls)|
  {
    var w := After(serial, calls);
    CallsHold(serial, calls);
    FlushedPages(w, Packets(calls), Stamps(calls));
    FinishIsFlush(w);
    StampsOfCut(FlushPage(w).pages, serial, Stamps(calls), q, i);
    DoneWithEos(FlushPage(w).pages);
    StampPerPacket(calls);
  }

  lemma {:induction false} StampPerPacket(calls: seq<Call>)
    ensures |Packets(calls)| == |Stamps(calls)|
  {
    if calls != [] {
      StampPerPacket(calls[..|calls| - 1]);
    }
  }

  // ----- when pages are cut -----

  predicate AllFull(pages: seq<Page>) { forall i :: 0 <= i < |pages| ==> |pages[i].lacing| == 255 }

  /** Without a target a packet only ever cuts pages whose segment table is full. */
  lemma {:induction false} PutCutsFull(w: Writer, rest: Packet, granule: i64)
    requires w.pageTarget.None? && AllFull(w.pages) && |w.lacing| <= 255
    ensures var r := Put(w, rest, granule); r.pageTarget.None? && AllFull(r.pages) && |r.lacing| <= 255
    decreases |rest|
  {
    if |rest| >= 255 {
      var v := if |w.lacing| >= MAX_PAGE_SEGMENTS then Emit(w, true, false) else w;
      PutCutsFull(AddSegment(v, rest[..255]), rest[255..], granule);
    }
  }

  /** The page is full, or a packet ends it with the target reached. */
  predicate Due(p: Page, target: Option<nat>)
  {
    |p.lacing| == 255 || (target.Some? && |p.data| >= target.value && p.lacing != [] && !EndsOpen(p.lacing))
  }

  /** A packet cuts no page before it is due. */
  lemma {:induction false} PutCutsDue(w: Writer, rest: Packet, granule: i64)
    requires |w.lacing| <= 255
    ensures var r := Put(w, rest, granule);
            && w.pages <= r.pages && |r.lacing| <= 255
            && forall i :: |w.pages| <= i < |r.pages| ==> Due(r.pages[i], w.pageTarget)
    decreases |rest|
  {
    if |rest| >= 255 {
      var v := if |w.lacing| >= MAX_PAGE_SEGMENTS then Emit(w, true, false) else w;
      PutCutsDue(AddSegment(v, rest[..255]), rest[255..], granule);
    }
  }

  lemma PushCutsDue(w: Writer, packet: Packet, granule: i64)
    requires |w.lacing| <= 255
    ensures var r := PushPacket(w, packet, granule);
            && w.pages <= r.pages && |r.lacing| <= 255
            && forall i :: |w.pages| <= i < |r.pages| ==> Due(r.pages[i], w.pageTarget)
  {
    PutCutsDue(if |w.lacing| == MAX_PAGE_SEGMENTS then Emit(w, false, false) else w, packet, granule);
  }

  /** Without flushes or a target, every page but the one being filled has all 255 segments. */
  lemma {:induction false} OnlyFullPages(serial: u32, calls: seq<Call>)
    requires forall i :: 0 <= i < |calls| ==> calls[i].Push?
    ensures var w := After(serial, calls); w.pageTarget.None? && AllFull(w.pages) && |w.lacing| <= 255
  {
    if calls != [] {
      var front, last := calls[..|calls| - 1], calls[|calls| - 1];
      OnlyFullPages(serial, front);
      var w := After(serial, front);
      PutCutsFull(if |w.lacing| == MAX_PAGE_SEGMENTS then Emit(w, false, false) else w, last.packet, last.granule);
    }
  }

  /** Under a target no completed packet leaves a pending page that has reached it. */
  lemma {:induction false} TargetKept(w: Writer, rest: Packet, granule: i64, target: nat)
    requires w.pageTarget == Some(target)
    ensures var r := Put(w, rest, granule); r.pageTarget == Some(target) && (r.lacing == [] || |r.body| < target)
    decreases |rest|
  {
    if |rest| >= 255 {
      var v := if |w.lacing| >= MAX_PAGE_SEGMENTS then Emit(w, true, false) else w;
      TargetKept(AddSegment(v, rest[..255]), rest[255..], granule, target);
    }
  }
}
