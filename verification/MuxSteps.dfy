/**
 Every packet written keeps every stream's packets complete, along with any invariant of the
 whole muxer that releasing, filling and cutting pages keep.
 */
module MuxSteps {
  import opened Bytes
  import opened Pages
  import opened Segments
  import opened Paging
  import opened Muxing
  import MuxWire
  import opened MuxFill

  type Invariant = Mux -> bool

  /** `w'` has the same pages, cut and queued, as `w`, and something on the page being filled. */
  predicate SamePages(w: StreamWriter, w': StreamWriter)
  {
    && w'.serial == w.serial && w'.cut == w.cut && w'.queue == w.queue
    && w'.bosEmitted == w.bosEmitted && w'.newestTime == w.newestTime && w'.lastGranule == w.lastGranule
    && ClockOf(w') == ClockOf(w) && w'.buffered.lacing != []
  }

  ghost predicate KeptByRelease(inv: Invariant)
  {
    forall m: Mux {:trigger Release(m)} :: inv(m) ==> inv(Release(m))
  }

  /** ... by changes to one writer that leave its pages alone ... */
  ghost predicate KeptByUpdate(inv: Invariant)
  {
    forall m: Mux, i: u32, w: StreamWriter {:trigger With(m, i, w)} ::
      inv(m) && i in m.writers && SamePages(m.writers[i], w) ==> inv(With(m, i, w))
  }

  /** ... by cutting a page that fits its stream ... */
  ghost predicate KeptByCut(inv: Invariant)
  {
    forall m: Mux, i: u32 {:trigger With(m, i, CutAndQueue(m.writers[i]))} ::
      inv(m) && i in m.writers && MuxWire.Fitting(CutAndQueue(m.writers[i]).cut) ==>
        inv(With(m, i, CutAndQueue(m.writers[i])))
  }

  /** ... and by noting that content has begun. */
  ghost predicate KeptByFlag(inv: Invariant)
  {
    forall m: Mux, b: bool {:trigger m.(contentStarted := b)} :: inv(m) ==> inv(m.(contentStarted := b))
  }

  ghost predicate Stable(inv: Invariant)
  {
    KeptByRelease(inv) && KeptByUpdate(inv) && KeptByCut(inv) && KeptByFlag(inv)
  }

  /** What neither filling nor cutting pages changes. */
  predicate SameHistory(w: StreamWriter, w': StreamWriter)
  {
    && w'.serial == w.serial && w'.packets == w.packets && w'.stamps == w.stamps
    && w'.headersRemaining == w.headersRemaining && w'.theora == w.theora && w'.tick == w.tick
  }

  /** Only stream `i` and the queues have changed. */
  predicate OthersMoved(m: Mux, m': Mux, i: u32)
  {
    && m' == m.(writers := m'.writers, wire := m'.wire, released := m'.released)
    && m'.writers.Keys == m.writers.Keys
    && forall j :: j in m.writers && j != i ==> m'.writers[j] == m.writers[j].(queue := m'.writers[j].queue)
  }

  lemma OthersTrans(m: Mux, m1: Mux, m2: Mux, i: u32)
    requires OthersMoved(m, m1, i) && OthersMoved(m1, m2, i)
    ensures OthersMoved(m, m2, i)
  {}

  /** From `m` to `m'` pages were cut and filled on stream `i`, which now holds `segs`. */
  predicate Filled(inv: Invariant, m: Mux, m': Mux, i: u32, segs: seq<Segment>)
  {
    && inv(m') && OthersMoved(m, m', i) && i in m.writers
    && Holds(m'.writers[i], segs) && SameHistory(m.writers[i], m'.writers[i])
  }

  lemma FilledTrans(inv: Invariant, m: Mux, m1: Mux, m2: Mux, i: u32, segs1: seq<Segment>, segs2: seq<Segment>)
    requires Filled(inv, m, m1, i, segs1) && Filled(inv, m1, m2, i, segs2)
    ensures Filled(inv, m, m2, i, segs2)
  {
    OthersTrans(m, m1, m2, i);
  }

  function LacingOf(m: Mux, i: u32): seq<byte>
    requires i in m.writers
  {
    m.writers[i].buffered.lacing
  }

  // ----- cutting a page -----

  lemma ReleaseMovesOnly(m: Mux, i: u32, w: StreamWriter)
    requires i in m.writers
    ensures var m' := Release(With(m, i, w)); OthersMoved(m, m', i) && m'.writers[i] == w.(queue := m'.writers[i].queue)
  {
    MuxWire.ReleaseMoves(With(m, i, w));
  }

  lemma FlushFills(inv: Invariant, m: Mux, i: u32, force: bool, segs: seq<Segment>)
    requires Stable(inv) && inv(m) && i in m.writers && Holds(m.writers[i], segs) && LacingOf(m, i) != []
    ensures Filled(inv, m, Flush(m, i, force), i, segs) && LacingOf(Flush(m, i, force), i) == []
  {
    var w := CutAndQueue(m.writers[i]);
    CutHolds(m.writers[i], segs);
    CutIsUnbroken(w.cut, w.serial, w.stamps);
    CutBasics(w.cut, w.serial, w.stamps);
    ReleaseMovesOnly(m, i, w);
    QueueIsAside(w, Flush(m, i, force).writers[i].queue, segs);
  }

  // ----- laying out a packet -----

  /** Segments put into the builder of stream `i`. */
  function AppendAt(m: Mux, i: u32, lacing: seq<byte>, data: seq<byte>): Mux
    requires i in m.writers
  {
    With(m, i, AppendTo(m.writers[i], lacing, data))
  }

  lemma AppendFills(inv: Invariant, m: Mux, i: u32, lacing: seq<byte>, data: seq<byte>, segs: seq<Segment>)
    requires Stable(inv) && inv(m) && i in m.writers && Holds(m.writers[i], segs)
    requires |LacingOf(m, i)| + |lacing| <= 255 && |data| == Sum(lacing) && CompletedCount(lacing) == 0 && lacing != []
    ensures Filled(inv, m, AppendAt(m, i, lacing, data), i, segs + Segs(lacing, data))
    ensures LacingOf(AppendAt(m, i, lacing, data), i) == LacingOf(m, i) + lacing
  {
    AppendOpenHolds(m.writers[i], segs, lacing, data);
  }

  /** One full page of a packet that goes on. */
  lemma ChunkFills(inv: Invariant, m: Mux, i: u32, lacing: seq<byte>, data: seq<byte>, segs: seq<Segment>)
    requires Stable(inv) && inv(m) && i in m.writers && Holds(m.writers[i], segs) && LacingOf(m, i) == []
    requires |lacing| == 255 && |data| == Sum(lacing) && CompletedCount(lacing) == 0
    ensures var m' := Flush(AppendAt(m, i, lacing, data), i, false);
            Filled(inv, m, m', i, segs + Segs(lacing, data)) && LacingOf(m', i) == []
  {
    var m1 := AppendAt(m, i, lacing, data);
    AppendFills(inv, m, i, lacing, data, segs);
    FlushFills(inv, m1, i, false, segs + Segs(lacing, data));
    FilledTrans(inv, m, m1, Flush(m1, i, false), i, segs + Segs(lacing, data), segs + Segs(lacing, data));
  }

  /** The segments `lacing` can go into the builder of stream `i`, over fresh pages if there are many. */
  predicate Ready(m: Mux, i: u32, n: nat)
    requires i in m.writers
  {
    if n > 255 then LacingOf(m, i) == [] else |LacingOf(m, i)| + n <= 255
  }

  /** What is left of a span once its first 255 segments are on a page of their own. */
  lemma SpanUnfolds(m: Mux, i: u32, lacing: seq<byte>, data: seq<byte>, n: nat)
    requires i in m.writers && |data| == Sum(lacing) && |lacing| > 255 && n == Sum(lacing[..255]) && n <= |data|
    requires |data[n..]| == Sum(lacing[255..])
    ensures SpanOpen(m, i, lacing, data)
         == SpanOpen(Flush(AppendAt(m, i, lacing[..255], data[..n]), i, false), i, lacing[255..], data[n..])
  {}

  lemma {:induction false} SpanFills(inv: Invariant, m: Mux, i: u32, lacing: seq<byte>, data: seq<byte>,
          segs: seq<Segment>)
    returns (done: seq<Segment>)
    requires Stable(inv) && inv(m) && i in m.writers && Holds(m.writers[i], segs)
    requires PacketTail(lacing) && |data| == Sum(lacing) && Ready(m, i, |lacing|)
    ensures var (m', l, d) := SpanOpen(m, i, lacing, data);
            && Filled(inv, m, m', i, done)
            && PacketTail(l) && |LacingOf(m', i)| + |l| <= 255
            && done + Segs(l, d) == segs + Segs(lacing, data)
    decreases |lacing|, 0
  {
    if |lacing| <= 255 {
      done := segs;
    } else {
      var n := Sum(lacing[..255]);
      ChunkOff(lacing, data, n);
      SpanUnfolds(m, i, lacing, data, n);
      ChunkFills(inv, m, i, lacing[..255], data[..n], segs);
      var m1 := Flush(AppendAt(m, i, lacing[..255], data[..n]), i, false);
      done := SpanOn(inv, m, m1, i, lacing[255..], data[n..], segs + Segs(lacing[..255], data[..n]));
      Assoc(segs, Segs(lacing[..255], data[..n]), Segs(lacing[255..], data[n..]));
    }
  }

  /** The same after pages already filled from `m` on. */
  lemma {:induction false} SpanOn(inv: Invariant, m: Mux, m1: Mux, i: u32, lacing: seq<byte>, data: seq<byte>,
          segs: seq<Segment>)
    returns (done: seq<Segment>)
    requires Stable(inv) && Filled(inv, m, m1, i, segs)
    requires PacketTail(lacing) && |data| == Sum(lacing) && Ready(m1, i, |lacing|)
    ensures var (m', l, d) := SpanOpen(m1, i, lacing, data);
            && Filled(inv, m, m', i, done)
            && PacketTail(l) && |LacingOf(m', i)| + |l| <= 255
            && done + Segs(l, d) == segs + Segs(lacing, data)
    decreases |lacing|, 1
  {
    done := SpanFills(inv, m1, i, lacing, data, segs);
    FilledTrans(inv, m, m1, SpanOpen(m1, i, lacing, data).0, i, segs, done);
  }

  lemma RoomFills(inv: Invariant, m: Mux, i: u32, n: nat, segs: seq<Segment>)
    requires Stable(inv) && inv(m) && i in m.writers && Holds(m.writers[i], segs) && n > 0
    ensures Filled(inv, m, MakeRoom(m, i, n), i, segs) && Ready(MakeRoom(m, i, n), i, n)
  {
    if |LacingOf(m, i)| + n > 255 && LacingOf(m, i) != [] {
      FlushFills(inv, m, i, false, segs);
    }
  }

  lemma TailOfLace(n: nat)
    ensures PacketTail(Lace(n)) && |Lace(n)| == n / 255 + 1 && Sum(Lace(n)) == n
  {
    LaceMeaning(n);
  }

  /** The last part of a packet goes in with its stamp. */
  lemma EndOfSpan(w: StreamWriter, done: seq<Segment>, l: seq<byte>, d: seq<byte>, packets: seq<Packet>, data: Packet,
          g: i64)
    requires Holds(w, done) && PacketTail(l) && |d| == Sum(l) && |w.buffered.lacing| + |l| <= 255
    requires done + Segs(l, d) == AllPacketSegs(packets) + PacketSegs(data)
    requires packets == w.packets
    ensures HoldsPackets(Stamped(AppendTo(w, l, d), data, g))
  {
    TailCount(l);
    AppendEndHolds(w, done, l, d, data, g);
    AllPacketSegsSnoc(packets, data);
  }

  /** A packet's bytes are in the builder of stream `i`; its stamp `g` is all that is missing. */
  predicate Placed(inv: Invariant, m: Mux, m': Mux, i: u32, data: Packet, g: i64)
  {
    && inv(m') && OthersMoved(m, m', i) && i in m.writers && SameHistory(m.writers[i], m'.writers[i])
    && HoldsPackets(Stamped(m'.writers[i], data, g)) && LacingOf(m', i) != []
  }

  lemma AppendMoves(m: Mux, m1: Mux, i: u32, l: seq<byte>, d: seq<byte>)
    requires OthersMoved(m, m1, i) && i in m.writers && SameHistory(m.writers[i], m1.writers[i])
    ensures var m' := AppendAt(m1, i, l, d); OthersMoved(m, m', i) && SameHistory(m.writers[i], m'.writers[i])
  {}

  lemma AppendKeeps(inv: Invariant, m: Mux, i: u32, l: seq<byte>, d: seq<byte>)
    requires Stable(inv) && inv(m) && i in m.writers && l != []
    ensures inv(AppendAt(m, i, l, d))
  {
    assert SamePages(m.writers[i], AppendTo(m.writers[i], l, d));
  }

  lemma EndHolds(m: Mux, i: u32, done: seq<Segment>, l: seq<byte>, d: seq<byte>, packets: seq<Packet>, data: Packet,
          g: i64)
    requires i in m.writers && Holds(m.writers[i], done) && PacketTail(l) && |d| == Sum(l)
    requires |LacingOf(m, i)| + |l| <= 255
    requires done + Segs(l, d) == AllPacketSegs(packets) + PacketSegs(data)
    requires packets == m.writers[i].packets
    ensures HoldsPackets(Stamped(AppendAt(m, i, l, d).writers[i], data, g)) && LacingOf(AppendAt(m, i, l, d), i) != []
  {
    EndOfSpan(m.writers[i], done, l, d, packets, data, g);
  }

  lemma EndPlaces(inv: Invariant, m: Mux, m1: Mux, i: u32, done: seq<Segment>, l: seq<byte>, d: seq<byte>,
          data: Packet, g: i64)
    requires Stable(inv) && Filled(inv, m, m1, i, done) && PacketTail(l) && |d| == Sum(l)
    requires |LacingOf(m1, i)| + |l| <= 255
    requires done + Segs(l, d) == AllPacketSegs(m.writers[i].packets) + PacketSegs(data)
    ensures Placed(inv, m, AppendAt(m1, i, l, d), i, data, g)
  {
    EndHolds(m1, i, done, l, d, m.writers[i].packets, data, g);
    AppendMoves(m, m1, i, l, d);
    AppendKeeps(inv, m1, i, l, d);
  }

  /** Placing a packet keeps `inv`, and with its stamp completes the packet. */
  lemma PlaceFills(inv: Invariant, m: Mux, i: u32, data: Packet, g: i64)
    requires Stable(inv) && inv(m) && i in m.writers && HoldsPackets(m.writers[i])
    ensures Placed(inv, m, Place(m, i, data), i, data, g)
  {
    var segs := AllPacketSegs(m.writers[i].packets);
    var n := |data| / 255 + 1;
    TailOfLace(|data|);
    RoomFills(inv, m, i, n, segs);
    var m1 := MakeRoom(m, i, n);
    var (m2, l, d) := SpanOpen(m1, i, Lace(|data|), data);
    var done := SpanOn(inv, m, m1, i, Lace(|data|), data, segs);
    EndPlaces(inv, m, m2, i, done, l, d, data, g);
  }

  // ----- whole packets -----

  /** From `m` to `m'` stream `i` has taken in one more packet, stamped `g`. */
  predicate Sealed(inv: Invariant, m: Mux, m': Mux, i: u32, data: Packet, g: i64)
  {
    && inv(m') && OthersMoved(m.(contentStarted := m'.contentStarted), m', i)
    && i in m.writers && HoldsPackets(m'.writers[i])
    && m'.writers[i].serial == m.writers[i].serial
    && m'.writers[i].packets == m.writers[i].packets + [data]
    && m'.writers[i].stamps == m.writers[i].stamps + [g]
  }

  /** The stamped packet may still be cut off as a page. */
  lemma SealedFlush(inv: Invariant, m: Mux, m1: Mux, i: u32, force: bool, data: Packet, g: i64)
    requires Stable(inv) && Sealed(inv, m, m1, i, data, g) && LacingOf(m1, i) != []
    ensures Sealed(inv, m, Flush(m1, i, force), i, data, g)
    ensures SameHistory(m1.writers[i], Flush(m1, i, force).writers[i])
    ensures Flush(m1, i, force).contentStarted == m1.contentStarted
  {
    FlushFills(inv, m1, i, force, AllPacketSegs(m1.writers[i].packets));
    OthersTrans(m.(contentStarted := m1.contentStarted), m1, Flush(m1, i, force), i);
  }

  /** A placed packet is sealed by its stamp, whatever header count or Theora counters say. */
  lemma StampSeals(inv: Invariant, m: Mux, m1: Mux, i: u32, data: Packet, g: i64, w: StreamWriter)
    requires Stable(inv) && Placed(inv, m, m1, i, data, g)
    requires w == Stamped(m1.writers[i], data, g).(headersRemaining := w.headersRemaining, theora := w.theora)
    requires ClockOf(w) == ClockOf(m1.writers[i])
    ensures Sealed(inv, m, With(m1, i, w), i, data, g)
    ensures LacingOf(With(m1, i, w), i) != []
  {
    assert SamePages(m1.writers[i], w);
  }

  lemma HeaderSeals(inv: Invariant, m: Mux, m1: Mux, i: u32, data: Packet)
    requires Stable(inv) && Placed(inv, m, m1, i, data, 0)
    ensures var m' := EndHeader(m1, i, data);
            && Sealed(inv, m, m', i, data, 0) && m'.contentStarted == m.contentStarted
            && m'.writers[i].headersRemaining == Max(m.writers[i].headersRemaining - 1, 0)
            && m'.writers[i].theora == m.writers[i].theora
  {
    var w := m1.writers[i];
    var w' := Stamped(w.(headersRemaining := Max(w.headersRemaining - 1, 0)), data, 0);
    StampSeals(inv, m, m1, i, data, 0, w');
    SealedFlush(inv, m, With(m1, i, w'), i, true, data, 0);
  }

  lemma CountedStamp(w: StreamWriter, packet: MuxPacket, g: i64, w': StreamWriter)
    requires w' == Stamped(Counted(w, packet), packet.data, g)
    ensures w' == Stamped(w, packet.data, g).(headersRemaining := w'.headersRemaining, theora := w'.theora)
    ensures ClockOf(w') == ClockOf(w) && w'.headersRemaining == w.headersRemaining
  {}

  lemma StartSeals(inv: Invariant, m: Mux, m1: Mux, i: u32, data: Packet, g: i64)
    requires Stable(inv) && Sealed(inv, m, m1, i, data, g)
    ensures Sealed(inv, m, m1.(contentStarted := true), i, data, g)
  {}

  lemma ContentStampSeals(inv: Invariant, m: Mux, m1: Mux, packet: MuxPacket, g: i64)
    requires Stable(inv) && Placed(inv, m, m1, packet.stream, packet.data, g)
    ensures var i := packet.stream;
            var m' := ContentStamped(m1, packet, g);
            && Sealed(inv, m, m', i, packet.data, g) && LacingOf(m', i) != []
            && m'.writers[i].headersRemaining == m.writers[i].headersRemaining && m'.contentStarted
  {
    var i := packet.stream;
    var w := Stamped(Counted(m1.writers[i], packet), packet.data, g);
    CountedStamp(m1.writers[i], packet, g, w);
    StampSeals(inv, m, m1, i, packet.data, g, w);
    StartSeals(inv, m, With(m1, i, w), i, packet.data, g);
  }

  lemma CutOrNot(m: Mux, i: u32, unitBoundary: bool)
    requires i in m.writers && LacingOf(m, i) != []
    ensures CutIfDue(m, i, unitBoundary) == m || CutIfDue(m, i, unitBoundary) == Flush(m, i, true)
  {}

  lemma CutSeals(inv: Invariant, m: Mux, m1: Mux, i: u32, m': Mux, data: Packet, g: i64)
    requires Stable(inv) && Sealed(inv, m, m1, i, data, g) && LacingOf(m1, i) != []
    requires m' == m1 || m' == Flush(m1, i, true)
    ensures Sealed(inv, m, m', i, data, g) && m'.contentStarted == m1.contentStarted
    ensures m'.writers[i].headersRemaining == m1.writers[i].headersRemaining
  {
    if m' != m1 {
      SealedFlush(inv, m, m1, i, true, data, g);
    }
  }

  /** The granule a page has once `packet` ends on it: the packet's own stamp, or what was there. */
  function StampLeft(w: StreamWriter, packet: MuxPacket): i64
  {
    var stamp := StampFor(w, packet);
    if stamp.Give? then stamp.granule else w.buffered.granule
  }

  lemma ContentSeals(inv: Invariant, m: Mux, m1: Mux, packet: MuxPacket, g: i64)
    requires Stable(inv) && packet.stream in m1.writers && !StampFor(m1.writers[packet.stream], packet).Refuse?
    requires g == StampLeft(m1.writers[packet.stream], packet) && Placed(inv, m, m1, packet.stream, packet.data, g)
    ensures var i := packet.stream;
            var m' := EndContent(m1, packet);
            && Sealed(inv, m, m', i, packet.data, g) && m'.contentStarted
            && m'.writers[i].headersRemaining == m.writers[i].headersRemaining
  {
    ContentStampSeals(inv, m, m1, packet, g);
    CutOrNot(ContentStamped(m1, packet, g), packet.stream, packet.unitBoundary);
    CutSeals(inv, m, ContentStamped(m1, packet, g), packet.stream, EndContent(m1, packet), packet.data, g);
  }

  /** A refused packet is on the page all the same. */
  lemma RefusalSeals(inv: Invariant, m: Mux, m1: Mux, packet: MuxPacket, g: i64)
    requires Stable(inv) && packet.stream in m1.writers && StampFor(m1.writers[packet.stream], packet).Refuse?
    requires g == StampLeft(m1.writers[packet.stream], packet) && Placed(inv, m, m1, packet.stream, packet.data, g)
    ensures var i := packet.stream;
            var m' := With(m1, i, Unstamped(m1.writers[i], packet));
            && Sealed(inv, m, m', i, packet.data, g) && m'.contentStarted == m.contentStarted
            && m'.writers[i].headersRemaining == m.writers[i].headersRemaining
  {
    var i := packet.stream;
    StampSeals(inv, m, m1, i, packet.data, g, Unstamped(m1.writers[i], packet));
  }

  predicate AllHold(m: Mux) { forall i :: i in m.writers ==> HoldsPackets(m.writers[i]) }

  lemma OthersStillHold(m: Mux, m': Mux, i: u32)
    requires AllHold(m) && OthersMoved(m.(contentStarted := m'.contentStarted), m', i) && i in m.writers
    requires HoldsPackets(m'.writers[i])
    ensures AllHold(m')
  {
    forall j | j in m'.writers
      ensures HoldsPackets(m'.writers[j])
    {
      if j != i {
        QueueIsAside(m.writers[j], m'.writers[j].queue, AllPacketSegs(m.writers[j].packets));
      }
    }
  }

  /** The content packet's frame does not fit the granule fields of its Theora stream. */
  predicate Refused(m: Mux, packet: MuxPacket)
    requires packet.stream in m.writers
  {
    m.writers[packet.stream].headersRemaining == 0 && StampFor(m.writers[packet.stream], packet).Refuse?
  }

  /** The granule on the page once the packet is in: 0 for headers. */
  function StampOn(m: Mux, packet: MuxPacket): i64
    requires packet.stream in m.writers
  {
    if m.writers[packet.stream].headersRemaining > 0 then 0
    else StampLeft(Place(m, packet.stream, packet.data).writers[packet.stream], packet)
  }

  /** What writing a packet on stream `i` leaves behind, refused or not. */
  predicate Taken(inv: Invariant, m: Mux, m': Mux, packet: MuxPacket, g: i64)
  {
    var i := packet.stream;
    && Sealed(inv, m, m', i, packet.data, g)
    && m'.writers[i].headersRemaining == Max(m.writers[i].headersRemaining - 1, 0)
    && (m.writers[i].headersRemaining > 0 ==> m'.writers[i].theora == m.writers[i].theora)
    && m'.contentStarted == (m.contentStarted || (m.writers[i].headersRemaining == 0 && !Refused(m, packet)))
  }

  lemma SameStamp(w: StreamWriter, w': StreamWriter, packet: MuxPacket)
    requires w'.theora == w.theora
    ensures StampFor(w', packet) == StampFor(w, packet)
  {}

  /** The granule of a stamped content packet is its own stamp. */
  lemma GivenStamp(inv: Invariant, m: Mux, packet: MuxPacket, g: i64)
    requires Stable(inv) && inv(m) && packet.stream in m.writers && HoldsPackets(m.writers[packet.stream])
    requires m.writers[packet.stream].headersRemaining == 0 && StampFor(m.writers[packet.stream], packet) == Give(g)
    ensures StampOn(m, packet) == g
  {
    PlaceFills(inv, m, packet.stream, packet.data, 0);
    SameStamp(m.writers[packet.stream], Place(m, packet.stream, packet.data).writers[packet.stream], packet);
  }

  lemma HeaderTakes(inv: Invariant, m: Mux, m1: Mux, packet: MuxPacket)
    requires Stable(inv) && Placed(inv, m, m1, packet.stream, packet.data, 0)
    requires m.writers[packet.stream].headersRemaining > 0
    ensures Taken(inv, m, EndHeader(m1, packet.stream, packet.data), packet, 0)
  {
    HeaderSeals(inv, m, m1, packet.stream, packet.data);
  }

  lemma RefusalTakes(inv: Invariant, m: Mux, m1: Mux, packet: MuxPacket, g: i64)
    requires Stable(inv) && Placed(inv, m, m1, packet.stream, packet.data, g) && Refused(m, packet)
    requires g == StampLeft(m1.writers[packet.stream], packet)
    ensures StampFor(m1.writers[packet.stream], packet).Refuse?
    ensures Taken(inv, m, With(m1, packet.stream, Unstamped(m1.writers[packet.stream], packet)), packet, g)
  {
    SameStamp(m.writers[packet.stream], m1.writers[packet.stream], packet);
    RefusalSeals(inv, m, m1, packet, g);
  }

  lemma ContentTakes(inv: Invariant, m: Mux, m1: Mux, packet: MuxPacket, g: i64)
    requires Stable(inv) && Placed(inv, m, m1, packet.stream, packet.data, g)
    requires m.writers[packet.stream].headersRemaining == 0 && !Refused(m, packet)
    requires g == StampLeft(m1.writers[packet.stream], packet)
    ensures !StampFor(m1.writers[packet.stream], packet).Refuse?
    ensures Taken(inv, m, EndContent(m1, packet), packet, g)
  {
    SameStamp(m.writers[packet.stream], m1.writers[packet.stream], packet);
    ContentSeals(inv, m, m1, packet, g);
  }

  lemma WriteTakes(inv: Invariant, m: Mux, packet: MuxPacket, g: i64)
    requires Stable(inv) && inv(m) && m.headerWritten && packet.stream in m.writers
    requires HoldsPackets(m.writers[packet.stream])
    requires g == StampOn(m, packet)
    ensures WritePacket(m, packet).1 == !Refused(m, packet) && Taken(inv, m, WritePacket(m, packet).0, packet, g)
  {
    var m1 := Place(m, packet.stream, packet.data);
    PlaceFills(inv, m, packet.stream, packet.data, g);
    if m.writers[packet.stream].headersRemaining > 0 {
      HeaderTakes(inv, m, m1, packet);
    } else if Refused(m, packet) {
      RefusalTakes(inv, m, m1, packet, g);
    } else {
      ContentTakes(inv, m, m1, packet, g);
    }
  }

  /**
   Any packet written to a known stream is taken in whole, even if refused; every other stream's
   packets are as before.
   */
  lemma WriteSeals(inv: Invariant, m: Mux, packet: MuxPacket)
    requires Stable(inv) && inv(m) && AllHold(m) && m.headerWritten && packet.stream in m.writers
    ensures var (m', ok) := WritePacket(m, packet);
            ok == !Refused(m, packet) && Taken(inv, m, m', packet, StampOn(m, packet)) && AllHold(m')
  {
    WriteTakes(inv, m, packet, StampOn(m, packet));
    OthersStillHold(m, WritePacket(m, packet).0, packet.stream);
  }

  function PagesCut(m: Mux, i: u32): nat
    requires i in m.writers
  {
    |m.writers[i].cut|
  }

  lemma FlushCounts(m: Mux, i: u32)
    requires i in m.writers && LacingOf(m, i) != []
    ensures PagesCut(Flush(m, i, false), i) == PagesCut(m, i) + 1 && LacingOf(Flush(m, i, false), i) == []
  {
    ReleaseMovesOnly(m, i, CutAndQueue(m.writers[i]));
  }

  lemma OneChunkLess(n: nat, m: nat)
    requires m + 255 == n && m > 0
    ensures (n - 1) / 255 == (m - 1) / 255 + 1
  {}

  lemma {:induction false} SpanCounts(m: Mux, i: u32, lacing: seq<byte>, data: seq<byte>)
    requires i in m.writers && PacketTail(lacing) && |data| == Sum(lacing)
    ensures PagesCut(SpanOpen(m, i, lacing, data).0, i) == PagesCut(m, i) + (|lacing| - 1) / 255
    decreases |lacing|
  {
    if |lacing| > 255 {
      var n := Sum(lacing[..255]);
      ChunkOff(lacing, data, n);
      SpanUnfolds(m, i, lacing, data, n);
      var m1 := AppendAt(m, i, lacing[..255], data[..n]);
      FlushCounts(m1, i);
      SpanCounts(Flush(m1, i, false), i, lacing[255..], data[n..]);
      OneChunkLess(|lacing|, |lacing[255..]|);
    }
  }

  /**
   How many pages a packet cuts as it is laid out: one if something is on the page being filled and the
   packet does not fit beside it, and one for each 255 full segments that more follow. A packet that fits cuts none.
   */
  lemma PlaceCutsOnlyWhenFull(m: Mux, i: u32, data: Packet, n: nat)
    requires i in m.writers && n == |data| / 255 + 1
    ensures PagesCut(Place(m, i, data), i)
         == PagesCut(m, i) + (if LacingOf(m, i) != [] && |LacingOf(m, i)| + n > 255 then 1 else 0) + (n - 1) / 255
  {
    TailOfLace(|data|);
    if LacingOf(m, i) != [] && |LacingOf(m, i)| + n > 255 {
      FlushCounts(m, i);
    }
    SpanCounts(MakeRoom(m, i, n), i, Lace(|data|), data);
  }

  /** A page ends after a packet exactly when the caller asks or its body has reached the target. */
  lemma PageEndsWhenDue(m: Mux, i: u32, unitBoundary: bool)
    requires i in m.writers && LacingOf(m, i) != []
    ensures var m' := CutIfDue(m, i, unitBoundary);
            var due := unitBoundary || (m.pageTarget.Some? && |m.writers[i].buffered.data| >= m.pageTarget.value);
            && (LacingOf(m', i) == [] <==> due)
            && (due ==> m'.writers[i].cut == m.writers[i].cut + [PageOut(m.writers[i])])
            && (!due ==> m' == m)
  {
    MuxWire.ReleaseMoves(With(m, i, CutAndQueue(m.writers[i])));
  }
}
