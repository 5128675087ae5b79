/**
 The multiplexing writer: one page builder and one release queue per stream, pages released in
 the time order of all streams, one page held back per stream so that EOS lands on a real last
 page, and chained links. Pages, not bytes; times are reals; no Skeleton stream.
 */
module Muxing {
  import opened Bytes
  import opened Pages
  import opened Segments
  import opened Paging
  import Theora
  import Validation

  /** What the caller declares of a stream, its codec headers already taken out of the extradata. */
  datatype StreamInfo = StreamInfo(
    index: u32,
    isTheora: bool,
    theora: Option<TheoraState>,
    tick: real,
    headerCount: nat,
    headers: seq<Packet>)

  datatype TheoraState = TheoraState(gran: Theora.Granule, nextFrame: i64, lastKf: i64, frn: nat, frd: nat)

  /** A finished page not yet on the wire, and the time that decides when it goes there. */
  datatype Pending = Pending(page: Page, time: real)

  /**
   One stream of the current link. The last three fields are its history: every page cut, the
   packets that ended on a page, refused ones included, and the granule the page had then.
   */
  datatype StreamWriter = StreamWriter(
    serial: u32,
    seqNo: u32,
    buffered: Builder,
    headersRemaining: nat,
    bosEmitted: bool,
    queue: seq<Pending>,
    newestTime: real,
    lastGranule: i64,
    tick: real,
    theora: Option<TheoraState>,
    cut: seq<Page>,
    packets: seq<Packet>,
    stamps: seq<i64>)

  /** The muxer; `past` holds the writers of finished links, `released` this link's data pages on the wire. */
  datatype Mux = Mux(
    infos: seq<StreamInfo>,
    writers: map<u32, StreamWriter>,
    order: seq<u32>,
    wire: seq<Page>,
    headerWritten: bool,
    trailerWritten: bool,
    used: set<u32>,
    linkIndex: nat,
    contentStarted: bool,
    pageTarget: Option<nat>,
    past: seq<StreamWriter>,
    released: seq<Pending>)

  function MaxReal(a: real, b: real): real { if a >= b then a else b }

  // ----- one stream -----

  /** How a stream's granules count time: frames at a rate for Theora, else ticks. */
  datatype Clock = Frames(gran: Theora.Granule, frn: nat, frd: nat) | Ticks(tick: real)

  function ClockOf(w: StreamWriter): Clock
  {
    if w.theora.Some? then Frames(w.theora.value.gran, w.theora.value.frn, w.theora.value.frd) else Ticks(w.tick)
  }

  /** The time `n` frames take. */
  function Elapsed(n: int, frn: nat, frd: nat): real
  {
    if frn == 0 then 0.0 else n as real * frd as real / frn as real
  }

  function GranuleTime(c: Clock, granule: i64): real
  {
    match c
    case Ticks(tick) => granule as real * tick
    case Frames(gran, frn, frd) =>
      match Theora.FrameCount(gran, granule)
      case Some(n) => Elapsed(n, frn, frd)
      case None => 0.0
  }

  /** The presentation time of a page with this granule; a page on which no packet ends has the newest time. */
  function PageTime(w: StreamWriter, granule: i64): real
  {
    if granule < 0 then w.newestTime else GranuleTime(ClockOf(w), granule)
  }

  function PageOut(w: StreamWriter): Page
  {
    Page(Flags(w.buffered.continued, !w.bosEmitted, false), w.buffered.granule, w.serial, w.seqNo, w.buffered.lacing,
         w.buffered.data)
  }

  /** Close the page being filled and queue it. */
  function CutAndQueue(w: StreamWriter): StreamWriter
  {
    var page := PageOut(w);
    var time := MaxReal(w.newestTime, PageTime(w, page.granule));
    w.(seqNo := NextU32(w.seqNo), buffered := Next(w.buffered), bosEmitted := true,
       newestTime := time, lastGranule := if page.granule >= 0 then page.granule else w.lastGranule,
       queue := w.queue + [Pending(page, time)], cut := w.cut + [page])
  }

  function AppendTo(w: StreamWriter, lacing: seq<byte>, data: seq<byte>): StreamWriter
  {
    w.(buffered := Append(w.buffered, lacing, data))
  }

  /** The packet just appended is complete. */
  function Stamped(w: StreamWriter, packet: Packet, granule: i64): StreamWriter
  {
    w.(buffered := w.buffered.(granule := granule), packets := w.packets + [packet], stamps := w.stamps + [granule])
  }

  /** The last page gets EOS: the newest one queued, or an empty page if all are on the wire. */
  function Close(w: StreamWriter): StreamWriter
  {
    if w.queue != [] then
      var n := |w.queue| - 1;
      w.(queue := w.queue[..n] + [w.queue[n].(page := MarkLast(w.queue[n].page))], cut := WithEos(w.cut))
    else if w.bosEmitted then
      var nil := Page(LAST_PAGE, w.lastGranule, w.serial, w.seqNo, [], []);
      w.(seqNo := NextU32(w.seqNo), queue := [Pending(nil, w.newestTime)], cut := w.cut + [nil])
    else w
  }

  // ----- releasing pages -----

  function With(m: Mux, i: u32, w: StreamWriter): Mux { m.(writers := m.writers[i := w]) }

  /**
   The stream, earliest in stream order, whose oldest queued page has the least time among queues
   longer than `held`.
   */
  function Best(writers: map<u32, StreamWriter>, order: seq<u32>, held: nat): (r: Option<u32>)
    ensures r.Some? ==> r.value in order && r.value in writers && |writers[r.value].queue| > held
  {
    if order == [] then None
    else
      var best, i := Best(writers, order[..|order| - 1], held), order[|order| - 1];
      if i in writers && |writers[i].queue| > held
         && (best.None? || !(writers[best.value].queue[0].time <= writers[i].queue[0].time))
      then Some(i) else best
  }

  /** No other stream that has begun can still bring a page earlier than `time`. */
  predicate Settled(m: Mux, i: u32, time: real)
  {
    forall o :: o in m.order && o in m.writers && o != i && m.writers[o].bosEmitted ==> m.writers[o].newestTime >= time
  }

  /** The oldest queued page of stream `i` goes to the wire. */
  function Pop(m: Mux, i: u32): Mux
    requires i in m.writers && m.writers[i].queue != []
  {
    var w := m.writers[i];
    m.(writers := m.writers[i := w.(queue := w.queue[1..])],
       wire := m.wire + [w.queue[0].page],
       released := m.released + [w.queue[0]])
  }

  function Queued(writers: map<u32, StreamWriter>, order: seq<u32>): nat
  {
    if order == [] then 0
    else
      var i := order[|order| - 1];
      Queued(writers, order[..|order| - 1]) + if i in writers then |writers[i].queue| else 0
  }

  lemma {:induction false} PopShrinks(writers: map<u32, StreamWriter>, order: seq<u32>, i: u32, w: StreamWriter)
    requires i in writers && |w.queue| < |writers[i].queue|
    ensures Queued(writers[i := w], order) <= Queued(writers, order)
    ensures i in order ==> Queued(writers[i := w], order) < Queued(writers, order)
  {
    if order != [] {
      PopShrinks(writers, order[..|order| - 1], i, w);
    }
  }

  /** Release every page whose place in the multiplex is settled, holding the newest of each stream back. */
  function Release(m: Mux): (m': Mux)
    ensures m'.writers.Keys == m.writers.Keys
    decreases Queued(m.writers, m.order)
  {
    var best := Best(m.writers, m.order, 1);
    if best.None? || !Settled(m, best.value, m.writers[best.value].queue[0].time) then m
    else
      PopShrinks(m.writers, m.order, best.value, Pop(m, best.value).writers[best.value]);
      Release(Pop(m, best.value))
  }

  /** Release everything queued, in time order. */
  function DrainAll(m: Mux): (m': Mux)
    ensures m'.writers.Keys == m.writers.Keys
    decreases Queued(m.writers, m.order)
  {
    var best := Best(m.writers, m.order, 0);
    if best.None? then m
    else
      PopShrinks(m.writers, m.order, best.value, Pop(m, best.value).writers[best.value]);
      DrainAll(Pop(m, best.value))
  }

  function Flush(m: Mux, i: u32, force: bool): (m': Mux)
    requires i in m.writers
    ensures m'.writers.Keys == m.writers.Keys
  {
    if m.writers[i].buffered.lacing == [] && !force then m else Release(With(m, i, CutAndQueue(m.writers[i])))
  }

  // ----- packets -----

  datatype MuxPacket = MuxPacket(stream: u32, data: Packet, pts: Option<i64>, keyframe: bool, unitBoundary: bool)

  /** Lay out all of a packet but its last page's worth, cutting a page whenever 255 segments are in. */
  function SpanOpen(m: Mux, i: u32, lacing: seq<byte>, data: seq<byte>): (r: (Mux, seq<byte>, seq<byte>))
    requires i in m.writers && |data| == Sum(lacing)
    ensures r.0.writers.Keys == m.writers.Keys && |r.1| <= 255 && |r.2| == Sum(r.1)
    decreases |lacing|
  {
    if |lacing| <= 255 then (m, lacing, data)
    else
      var n := Sum(lacing[..255]);
      assert lacing == lacing[..255] + lacing[255..];
      SumConcat(lacing[..255], lacing[255..]);
      SpanOpen(Flush(With(m, i, AppendTo(m.writers[i], lacing[..255], data[..n])), i, false), i, lacing[255..],
               data[n..])
  }

  /** Start a fresh page if `n` more segments do not fit on the one being filled. */
  function MakeRoom(m: Mux, i: u32, n: nat): (m': Mux)
    requires i in m.writers
    ensures m'.writers.Keys == m.writers.Keys
  {
    var b := m.writers[i].buffered;
    if |b.lacing| + n > 255 && b.lacing != [] then Flush(m, i, false) else m
  }

  /** Put a packet's segments into the builder, on a fresh page if they do not fit beside what is there. */
  function Place(m: Mux, i: u32, data: Packet): (m': Mux)
    requires i in m.writers
    ensures m'.writers.Keys == m.writers.Keys
  {
    LaceMeaning(|data|);
    var (m1, l, d) := SpanOpen(MakeRoom(m, i, |data| / 255 + 1), i, Lace(|data|), data);
    With(m1, i, AppendTo(m1.writers[i], l, d))
  }

  /** The granule a content packet carries: packed for Theora, else its pts; and whether packing failed. */
  datatype Stamping = Carry | Give(granule: i64) | Refuse

  function StampFor(w: StreamWriter, packet: MuxPacket): Stamping
  {
    if w.theora.Some? then
      var th := Anchored(w.theora.value, packet);
      match Theora.Pack(th.gran, FrameOf(w.theora.value, packet), th.lastKf)
      case Some(g) => if -TWO63 <= g < TWO63 then Give(g) else Refuse
      case None => Refuse
    else
      match packet.pts
      case Some(pts) => Give(pts)
      case None => Carry
  }

  function FrameOf(th: TheoraState, packet: MuxPacket): i64
  {
    if packet.pts.Some? then packet.pts.value else th.nextFrame
  }

  /** The keyframe in force once `packet` is in. */
  function Anchored(th: TheoraState, packet: MuxPacket): TheoraState
  {
    if packet.keyframe then th.(lastKf := FrameOf(th, packet)) else th
  }

  /** The Theora counters after a packet; they have moved even when packing is refused. */
  function Counted(w: StreamWriter, packet: MuxPacket): StreamWriter
  {
    if w.theora.None? then w
    else
      var th := Anchored(w.theora.value, packet);
      var next := WrapI64(FrameOf(w.theora.value, packet) + 1);
      w.(theora := Some(if StampFor(w, packet).Refuse? then th else th.(nextFrame := next)))
  }

  /** Header packets end their page and are stamped 0. */
  function EndHeader(m: Mux, i: u32, data: Packet): (m': Mux)
    requires i in m.writers
    ensures m'.writers.Keys == m.writers.Keys
  {
    var w := m.writers[i];
    Flush(With(m, i, Stamped(w.(headersRemaining := Max(w.headersRemaining - 1, 0)), data, 0)), i, true)
  }

  /** A completed content packet and its stamp. */
  function ContentStamped(m: Mux, packet: MuxPacket, granule: i64): (m': Mux)
    requires packet.stream in m.writers
    ensures m'.writers.Keys == m.writers.Keys
  {
    var i := packet.stream;
    With(m, i, Stamped(Counted(m.writers[i], packet), packet.data, granule)).(contentStarted := true)
  }

  /** The page being filled is cut on request, or at the page target. */
  function CutIfDue(m: Mux, i: u32, unitBoundary: bool): (m': Mux)
    requires i in m.writers
    ensures m'.writers.Keys == m.writers.Keys
  {
    if unitBoundary then Flush(m, i, true)
    else if m.pageTarget.Some? && |m.writers[i].buffered.data| >= m.pageTarget.value then Flush(m, i, false)
    else m
  }

  function EndContent(m: Mux, packet: MuxPacket): (m': Mux)
    requires packet.stream in m.writers && !StampFor(m.writers[packet.stream], packet).Refuse?
    ensures m'.writers.Keys == m.writers.Keys
  {
    var w := m.writers[packet.stream];
    var stamp := StampFor(w, packet);
    var granule := if stamp.Give? then stamp.granule else w.buffered.granule;
    CutIfDue(ContentStamped(m, packet, granule), packet.stream, packet.unitBoundary)
  }

  /** A packet whose stamp is refused: all of it stays on the page, which keeps the granule it had. */
  function Unstamped(w: StreamWriter, packet: MuxPacket): StreamWriter
  {
    Stamped(Counted(w, packet), packet.data, w.buffered.granule)
  }

  /** `write_packet`; false is its error return. */
  function WritePacket(m: Mux, packet: MuxPacket): (r: (Mux, bool))
    ensures r.0.writers.Keys == m.writers.Keys
  {
    var i := packet.stream;
    if !m.headerWritten || i !in m.writers then (m, false)
    else
      var header := m.writers[i].headersRemaining > 0;
      var m1 := Place(m, i, packet.data);
      if header then (EndHeader(m1, i, packet.data), true)
      else if StampFor(m1.writers[i], packet).Refuse? then (With(m1, i, Unstamped(m1.writers[i], packet)), false)
      else (EndContent(m1, packet), true)
  }

  // ----- links -----

  /** Serials are u32 with wrap-around. */
  function Wrapped(start: u32, n: nat): u32 { (start + n) % TWO32 }

  lemma {:induction false} AllTaken(used: set<u32>, n: nat)
    requires n <= TWO32 && forall s: u32 :: s < n ==> s in used
    ensures |used| >= n
    decreases n
  {
    if n > 0 {
      var top: u32 := n - 1;
      AllTaken(used - {top}, n - 1);
    }
  }

  lemma NoneLeft(used: set<u32>, start: u32)
    requires forall k: nat {:trigger Wrapped(start, k)} :: k < TWO32 ==> Wrapped(start, k) in used
    ensures |used| >= TWO32
  {
    forall s: u32
      ensures s in used
    {
      var k := if s >= start then s - start else s + TWO32 - start;
      assert Wrapped(start, k) == s;
    }
    AllTaken(used, TWO32);
  }

  /** The first serial from `start + n` on that is free. */
  function FreeSerial(used: set<u32>, start: u32, n: nat): (s: u32)
    requires |used| < TWO32 && n <= TWO32
    requires forall k: nat {:trigger Wrapped(start, k)} :: k < n ==> Wrapped(start, k) in used
    ensures s !in used
    ensures exists k: nat {:trigger Wrapped(start, k)} ::
              && n <= k < TWO32 && s == Wrapped(start, k)
              && forall j: nat {:trigger Wrapped(start, j)} :: j < k ==> Wrapped(start, j) in used
    decreases TWO32 - n
  {
    if n == TWO32 then
      NoneLeft(used, start);
      start
    else if Wrapped(start, n) !in used then Wrapped(start, n)
    else FreeSerial(used, start, n + 1)
  }

  function NewWriter(s: StreamInfo, serial: u32): StreamWriter
  {
    StreamWriter(serial, 0, EMPTY, s.headerCount, false, [], 0.0, 0, s.tick, if s.isTheora then s.theora else None, [],
                 [], [])
  }

  /** Writers for a link's streams, each with a serial of its own, and the serials now taken. */
  function BuildWriters(infos: seq<StreamInfo>, used: set<u32>): (r: (map<u32, StreamWriter>, set<u32>))
    requires |used| + |infos| < TWO32
    ensures |r.1| <= |used| + |infos|
    ensures forall i :: 0 <= i < |infos| ==> infos[i].index in r.0
  {
    if infos == [] then (map[], used)
    else
      var front, s := infos[..|infos| - 1], infos[|infos| - 1];
      var (writers, taken) := BuildWriters(front, used);
      var serial := FreeSerial(taken, s.index, 0);
      (writers[s.index := NewWriter(s, serial)], taken + {serial})
  }

  function Indices(infos: seq<StreamInfo>): (r: seq<u32>)
    ensures |r| == |infos| && forall i :: 0 <= i < |r| ==> r[i] == infos[i].index
  {
    seq(|infos|, i requires 0 <= i < |infos| => infos[i].index)
  }

  function Only(infos: seq<StreamInfo>, theora: bool): seq<StreamInfo>
  {
    if infos == [] then []
    else
      var last := infos[|infos| - 1];
      Only(infos[..|infos| - 1], theora) + if last.isTheora == theora then [last] else []
  }

  /** Theora streams first, otherwise in the caller's order. */
  function HeaderOrder(infos: seq<StreamInfo>): seq<StreamInfo> { Only(infos, true) + Only(infos, false) }

  /** The identification packet alone on the BOS page, straight to the wire. */
  function BosWritten(w: StreamWriter, first: Packet): StreamWriter
  {
    w.(seqNo := NextU32(w.seqNo), bosEmitted := true, headersRemaining := Max(w.headersRemaining - 1, 0),
       cut := w.cut + [BosPage(w, first)], packets := w.packets + [first], stamps := w.stamps + [0])
  }

  function BosPage(w: StreamWriter, first: Packet): Page
  {
    Page(FIRST_PAGE, 0, w.serial, w.seqNo, Lace(|first|), first)
  }

  function WriteBos(m: Mux, s: StreamInfo): (m': Mux)
    ensures m'.writers.Keys == m.writers.Keys
  {
    if s.index !in m.writers || s.headers == [] || m.writers[s.index].headersRemaining == 0 then m
    else
      var w := m.writers[s.index];
      With(m, s.index, BosWritten(w, s.headers[0])).(wire := m.wire + [BosPage(w, s.headers[0])])
  }

  function WriteAllBos(m: Mux, infos: seq<StreamInfo>): (m': Mux)
    ensures m'.writers.Keys == m.writers.Keys
  {
    if infos == [] then m else WriteBos(WriteAllBos(m, infos[..|infos| - 1]), infos[|infos| - 1])
  }

  function HeaderPacket(s: StreamInfo, packet: Packet): MuxPacket { MuxPacket(s.index, packet, None, false, false) }

  function WriteHeaders(m: Mux, s: StreamInfo, packets: seq<Packet>): (m': Mux)
    ensures m'.writers.Keys == m.writers.Keys
  {
    if packets == [] then m
    else WritePacket(WriteHeaders(m, s, packets[..|packets| - 1]), HeaderPacket(s, packets[|packets| - 1])).0
  }

  function WriteAllHeaders(m: Mux, infos: seq<StreamInfo>): (m': Mux)
    ensures m'.writers.Keys == m.writers.Keys
  {
    if infos == [] then m
    else
      var s := infos[|infos| - 1];
      WriteHeaders(WriteAllHeaders(m, infos[..|infos| - 1]), s, if s.headers == [] then [] else s.headers[1..])
  }

  /** BOS pages, then every other header packet, then all of it onto the wire: a link's header section. */
  function HeaderSection(m: Mux): (m': Mux)
    ensures m'.writers.Keys == m.writers.Keys
  {
    var ordered := HeaderOrder(m.infos);
    DrainAll(WriteAllHeaders(WriteAllBos(m.(headerWritten := true), ordered), ordered)).(released := [])
  }

  /** Before a muxer's first byte: fresh writers, the header section about to be written. */
  function BeforeHeaders(infos: seq<StreamInfo>): Mux
    requires |infos| < TWO32
  {
    var (writers, used) := BuildWriters(infos, {});
    Mux(infos, writers, Indices(infos), [], false, false, used, 0, false, None, [], [])
  }

  /** A muxer opened for `infos`, its header section written. */
  function Opened(infos: seq<StreamInfo>): Mux
    requires |infos| < TWO32
  {
    HeaderSection(BeforeHeaders(infos))
  }

  /** Finish stream `i`: cut what is being filled and put EOS on its last page. */
  function CloseStream(m: Mux, i: u32): (m': Mux)
    ensures m'.writers.Keys == m.writers.Keys
  {
    if i !in m.writers then m
    else
      var m1 := if m.writers[i].buffered.lacing != [] then Flush(m, i, true) else m;
      With(m1, i, Close(m1.writers[i]))
  }

  function CloseAll(m: Mux, order: seq<u32>): (m': Mux)
    ensures m'.writers.Keys == m.writers.Keys
  {
    if order == [] then m else CloseStream(CloseAll(m, order[..|order| - 1]), order[|order| - 1])
  }

  function FinishLink(m: Mux): (m': Mux)
    ensures m'.writers.Keys == m.writers.Keys
  {
    DrainAll(CloseAll(m, m.order))
  }

  function WriteTrailer(m: Mux): Mux
  {
    if m.trailerWritten then m else FinishLink(m).(trailerWritten := true)
  }

  function WritersOf(writers: map<u32, StreamWriter>, order: seq<u32>): seq<StreamWriter>
  {
    if order == [] then []
    else
      var i := order[|order| - 1];
      WritersOf(writers, order[..|order| - 1]) + if i in writers then [writers[i]] else []
  }

  /** Fresh writers for the next link, the finished ones laid aside. */
  function Rearmed(m: Mux, infos: seq<StreamInfo>): Mux
    requires |m.used| + |infos| < TWO32
  {
    var (writers, used) := BuildWriters(infos, m.used);
    m.(infos := infos, writers := writers, order := Indices(infos), used := used,
       linkIndex := Validation.SaturatingInc(m.linkIndex), contentStarted := false,
       past := m.past + WritersOf(m.writers, m.order))
  }

  /** When `begin_new_link` goes ahead. */
  predicate MayBeginLink(m: Mux, infos: seq<StreamInfo>)
  {
    m.headerWritten && !m.trailerWritten && m.contentStarted && infos != []
  }

  /** `begin_new_link`, as long as there are serials left to give. */
  function BeginLink(m: Mux, infos: seq<StreamInfo>): Mux
  {
    var done := FinishLink(m);
    if !MayBeginLink(m, infos) || |done.used| + |infos| >= TWO32 then m else HeaderSection(Rearmed(done, infos))
  }

  // ----- runs -----

  datatype Call = Write(packet: MuxPacket) | NewLink(infos: seq<StreamInfo>) | SetTarget(target: Option<nat>)

  function Apply(m: Mux, call: Call): Mux
  {
    match call
    case Write(packet) => WritePacket(m, packet).0
    case NewLink(infos) => BeginLink(m, infos)
    case SetTarget(target) => m.(pageTarget := target)
  }

  /** The muxer opened for `infos` after `calls`. */
  function After(infos: seq<StreamInfo>, calls: seq<Call>): Mux
    requires |infos| < TWO32
  {
    if calls == [] then Opened(infos) else Apply(After(infos, calls[..|calls| - 1]), calls[|calls| - 1])
  }
}
