/** Granules: when a run of the muxer gives a file the validator finds clean, and what a refused stamp leaves. */
module MuxStamps {
  import opened Bytes
  import opened Pages
  import opened Segments
  import opened Grammar
  import opened Paging
  import opened Muxing
  import opened MuxWire
  import opened MuxSteps
  import opened MuxClose
  import opened MuxLinks
  import opened MuxHeaders
  import opened MuxRuns
  import opened MuxTheorems
  import V = Validation
  import D = Decision
  import B = MuxBirth
  import Framing
  import Theora
  import TheoraHeader
  import Crc

  // ----- runs stamped in order -----

  /** `g` is no negative granule and none before the last. */
  predicate MayStamp(stamps: seq<i64>, g: i64)
  {
    0 <= g && (stamps != [] ==> stamps[|stamps| - 1] <= g)
  }

  lemma StampInOrder(stamps: seq<i64>, g: i64)
    requires InOrder(stamps) && MayStamp(stamps, g)
    ensures InOrder(stamps + [g])
  {}

  /** The packet brings a granule, no earlier than the one before it on its stream. */
  predicate Writable(m: Mux, packet: MuxPacket)
  {
    packet.stream in m.writers ==>
      var w := m.writers[packet.stream];
      StampFor(w, packet).Give? && MayStamp(w.stamps, StampFor(w, packet).granule)
  }

  /** Every packet of the run is stamped, in order on its stream. */
  predicate StampedRun(infos: seq<StreamInfo>, calls: seq<Call>)
    requires |infos| < TWO32
  {
    calls == [] ||
    var front, last := calls[..|calls| - 1], calls[|calls| - 1];
    StampedRun(infos, front) && (last.Write? ==> Writable(After(infos, front), last.packet))
  }

  predicate AllInOrder(m: Mux)
  {
    && (forall i :: i in m.writers ==> InOrder(m.writers[i].stamps))
    && (forall k :: 0 <= k < |m.past| ==> InOrder(m.past[k].stamps))
  }

  lemma HeadersAreIn(m: Mux, i: u32)
    requires Running(m) && i in m.writers
    ensures m.writers[i].headersRemaining == 0
  {
    var s :| s in m.infos && s.index == i;
  }

  lemma StampIsGiven(m: Mux, packet: MuxPacket)
    requires Running(m) && packet.stream in m.writers && Writable(m, packet)
    ensures MayStamp(m.writers[packet.stream].stamps, StampOn(m, packet))
  {
    CourseStable();
    HeadersAreIn(m, packet.stream);
    GivenStamp(Course(), m, packet, StampFor(m.writers[packet.stream], packet).granule);
  }

  lemma AddedInOrder(m: Mux, m': Mux, packet: MuxPacket)
    requires packet.stream in m.writers && PacketAdded(m, m', packet) && AllInOrder(m)
    requires MayStamp(m.writers[packet.stream].stamps, StampOn(m, packet))
    ensures AllInOrder(m')
  {
    StampInOrder(m.writers[packet.stream].stamps, StampOn(m, packet));
    forall i | i in m'.writers
      ensures InOrder(m'.writers[i].stamps)
    {
      PlusNil(m.writers[i].stamps);
    }
  }

  lemma WriteInOrder(m: Mux, packet: MuxPacket, m': Mux)
    requires Running(m) && AllInOrder(m) && packet.stream in m.writers && Writable(m, packet)
    requires m' == WritePacket(m, packet).0
    ensures AllInOrder(m')
  {
    WriteRuns(m, packet);
    StampIsGiven(m, packet);
    AddedInOrder(m, m', packet);
  }

  lemma HeadersInOrder(m: Mux)
    requires Running(m) && HeadersOnly(m)
    ensures forall i :: i in m.writers ==> InOrder(m.writers[i].stamps)
  {
    forall i | i in m.writers
      ensures InOrder(m.writers[i].stamps)
    {
      var s :| s in m.infos && s.index == i;
    }
  }

  /** A finished link's streams, laid aside or not yet, keep their stamps. */
  lemma DoneInOrder(m: Mux, d: Mux)
    requires AllInOrder(m) && LinkDone(m, d) && forall k :: 0 <= k < |d.order| ==> d.order[k] in d.writers
    ensures forall k :: 0 <= k < |AllWriters(d)| ==> InOrder(AllWriters(d)[k].stamps)
  {
    var ws := WritersOf(d.writers, d.order);
    WritersAre(d.writers, d.order);
    forall k | 0 <= k < |ws|
      ensures InOrder(ws[k].stamps)
    {
      assert SameHistory(m.writers[d.order[k]], d.writers[d.order[k]]);
    }
  }

  lemma FinishedInOrder(m: Mux, d: Mux)
    requires Running(m) && AllInOrder(m) && d == FinishLink(m)
    ensures forall k :: 0 <= k < |AllWriters(d)| ==> InOrder(AllWriters(d)[k].stamps)
    ensures d.past == m.past && d.order == m.order
  {
    TrailerFinishes(m);
    DoneInOrder(m, d);
  }

  lemma BegunInOrder(m: Mux, past: seq<StreamWriter>)
    requires Running(m) && HeadersOnly(m) && m.past == past && forall k :: 0 <= k < |past| ==> InOrder(past[k].stamps)
    ensures AllInOrder(m)
  {
    HeadersInOrder(m);
  }

  lemma LinkInOrder(m: Mux, infos: seq<StreamInfo>, d: Mux, m': Mux)
    requires Running(m) && AllInOrder(m) && UsableCall(m, NewLink(infos)) && d == FinishLink(m)
    requires m' == BeginLink(m, infos)
    ensures AllInOrder(m')
  {
    FinishedInOrder(m, d);
    LinkRuns(m, infos, d);
    BegunInOrder(m', AllWriters(d));
  }

  lemma {:induction false} RunInOrder(infos: seq<StreamInfo>, calls: seq<Call>)
    requires WellUsed(infos, calls) && |infos| < TWO32 && StampedRun(infos, calls)
    ensures AllInOrder(After(infos, calls))
    decreases |calls|
  {
    if calls == [] {
      OpenRuns(infos);
      HeadersInOrder(Muxing.Opened(infos));
    } else {
      var front, call := calls[..|calls| - 1], calls[|calls| - 1];
      RunHolds(infos, front);
      RunInOrder(infos, front);
      match call
      case Write(packet) =>
        if packet.stream in After(infos, front).writers {
          WriteInOrder(After(infos, front), packet, After(infos, calls));
        }
      case NewLink(next) =>
        LinkInOrder(After(infos, front), next, FinishLink(After(infos, front)), After(infos, calls));
      case SetTarget(_) =>
    }
  }

  // ----- a clean file -----

  /** Streams that are whole, on the wire and stamped in order make the wire conform. */
  lemma InOrderConforms(d: Mux, all: seq<StreamWriter>)
    requires Orderly(d.wire) && forall s: u32 :: Proj(d.wire, s) != [] ==> LaidAside(all, s)
    requires forall k :: 0 <= k < |all| ==> Kept(d.wire, d.used, all[k]) && InOrder(all[k].stamps)
    ensures Conforms(d.wire)
  {
    forall s: u32
      ensures Prefix(Proj(d.wire, s))
    {
      if Proj(d.wire, s) != [] {
        var k :| 0 <= k < |all| && all[k].serial == s;
        assert Kept(d.wire, d.used, all[k]);
      }
    }
    ConformsMeans(d.wire);
  }

  /** The streams of a finished run, all of them on the wire. */
  lemma FinishedKept(m: Mux, d: Mux)
    requires Running(m) && d == FinishLink(m)
    ensures Orderly(d.wire) && forall s: u32 :: Proj(d.wire, s) != [] ==> LaidAside(AllWriters(d), s)
    ensures forall k :: 0 <= k < |AllWriters(d)| ==> Kept(d.wire, d.used, AllWriters(d)[k])
  {
    TrailerFinishes(m);
    LinkKept(m, d);
    AllOnWire(d);
    KnownAside(d, AllWriters(d));
  }

  lemma FinishedConforms(m: Mux, d: Mux)
    requires Running(m) && AllInOrder(m) && d == FinishLink(m)
    ensures Conforms(d.wire)
  {
    FinishedInOrder(m, d);
    FinishedKept(m, d);
    InOrderConforms(d, AllWriters(d));
  }

  lemma NeatSerializes(wire: seq<Page>)
    requires AllNeat(wire)
    ensures AllWellFormed(wire)
  {}

  lemma TidyIsPhysical(wire: seq<Page>, links: nat, bos: nat)
    requires Tidy(wire, links, bos) && Conforms(wire)
    ensures Physical(wire) && AllWellFormed(wire)
  {
    RunIsPhysical(wire);
    NeatSerializes(wire);
  }

  /**
   Whatever packets, stamped in order, go into whatever streams and links, with whatever page
   boundaries, the file is clean: as many links as were begun, one counted stream per declared stream.
   */
  lemma EveryRunIsClean(infos: seq<StreamInfo>, calls: seq<Call>, wire: seq<Page>)
    requires WellUsed(infos, calls) && |infos| < TWO32 && StampedRun(infos, calls) && wire == Final(infos, calls).wire
    ensures AllWellFormed(wire) && Physical(wire) && V.Clean(AllBytes(wire))
    ensures var st := V.Walk(V.CheckPage, V.ScanOf(AllBytes(wire)), 0, V.START).0;
            && st.links == NewLinks(calls) + 1 == Final(infos, calls).linkIndex + 1
            && st.streams == Min(|AllContents(infos, calls)|, TWO32 - 1) && st.pages == |wire|
  {
    var m := After(infos, calls);
    RunHolds(infos, calls);
    RunInOrder(infos, calls);
    TrailerFinishes(m);
    FinishedIsTidy(m, FinishLink(m));
    FinishedConforms(m, FinishLink(m));
    TidyIsPhysical(wire, LinksOf(m), StreamsOf(m));
    Declared(m, infos, calls);
    D.CleanTotals(wire);
  }

  /** All pages of a finished run: those on which no packet ends carry no granule. */
  lemma FinishedIsBare(m: Mux, d: Mux)
    requires Running(m) && d == FinishLink(m)
    ensures Orderly(d.wire) && forall s: u32 :: Bare(Proj(d.wire, s))
  {
    FinishedKept(m, d);
    forall s: u32
      ensures Bare(Proj(d.wire, s))
    {
      if Proj(d.wire, s) != [] {
        assert LaidAside(AllWriters(d), s);
        var k :| 0 <= k < |AllWriters(d)| && AllWriters(d)[k].serial == s;
        assert Kept(d.wire, d.used, AllWriters(d)[k]);
      }
    }
  }

  /** Clean bytes are those of pages in conformance, and of no others. */
  lemma CleanBytesConform(wire: seq<Page>)
    requires AllWellFormed(wire) && V.Clean(AllBytes(wire))
    ensures Conforms(wire)
  {
    D.ValidatorDecidesGrammar(AllBytes(wire));
    var ps :| AllWellFormed(ps) && AllBytes(ps) == AllBytes(wire) && Physical(ps);
    Framing.ParseAllBytes(ps);
    Framing.ParseAllBytes(wire);
    RunIsPhysical(ps);
  }

  /**
   Whatever the stamps, the file is clean if and only if on each stream the granules left on the pages
   where packets end are there and never fall.
   */
  lemma CleanMeans(infos: seq<StreamInfo>, calls: seq<Call>, wire: seq<Page>)
    requires WellUsed(infos, calls) && |infos| < TWO32 && wire == Final(infos, calls).wire
    ensures V.Clean(AllBytes(wire)) <==> AllRise(wire)
  {
    var m := After(infos, calls);
    var d := FinishLink(m);
    RunHolds(infos, calls);
    TrailerFinishes(m);
    FinishedIsTidy(m, d);
    FinishedIsBare(m, d);
    ConformsRises(wire);
    NeatSerializes(wire);
    if V.Clean(AllBytes(wire)) {
      CleanBytesConform(wire);
    }
    if Conforms(wire) {
      TidyIsPhysical(wire, LinksOf(m), StreamsOf(m));
      D.ValidatorDecidesGrammar(AllBytes(wire));
    }
  }

  // ----- Theora stamps -----

  /** The muxer's Theora counters run as the frames do, and stamp each as the granule rules ask. */
  lemma StampIsTheora(w: StreamWriter, frames: seq<Theora.Frame>, packet: MuxPacket)
    requires w.theora.Some? && w.theora.value.lastKf == Theora.Running(frames)
    ensures var th := w.theora.value;
            var frames' := frames + [Theora.Frame(FrameOf(th, packet), packet.keyframe)];
            var stamp := Theora.Stamp(th.gran, frames', |frames|);
            && Anchored(th, packet).lastKf == Theora.Running(frames')
            && (StampFor(w, packet).Refuse? <==> stamp.None? || !(-TWO63 <= stamp.value < TWO63))
            && (StampFor(w, packet).Give? ==> stamp == Some(StampFor(w, packet).granule))
  {
    var frames' := frames + [Theora.Frame(FrameOf(w.theora.value, packet), packet.keyframe)];
    UnSnoc(frames, Theora.Frame(FrameOf(w.theora.value, packet), packet.keyframe));
    assert frames'[..|frames| + 1] == frames';
  }

  // ----- when `write_packet` fails -----

  /** The stream's granule can tell the packet's frame and keyframe: seen before the call. */
  predicate FieldsTake(w: StreamWriter, packet: MuxPacket)
  {
    w.theora.Some? ==>
      var th := w.theora.value;
      Theora.Packs(th.gran, FrameOf(th, packet), Anchored(th, packet).lastKf)
  }

  lemma RefuseMeans(w: StreamWriter, packet: MuxPacket)
    ensures StampFor(w, packet).Refuse? <==> !FieldsTake(w, packet)
  {
    if w.theora.Some? {
      var th := w.theora.value;
      Theora.RefusalMeans(th.gran, FrameOf(th, packet), Anchored(th, packet).lastKf);
    }
  }

  lemma Lengthens<T>(a: seq<T>, x: T)
    ensures a + [x] != a
  {
    assert |a + [x]| != |a|;
  }

  /** The stream is past its headers and its granule fields cannot take the frame. */
  predicate TooFar(m: Mux, packet: MuxPacket)
  {
    && m.headerWritten && packet.stream in m.writers
    && m.writers[packet.stream].headersRemaining == 0 && !FieldsTake(m.writers[packet.stream], packet)
  }

  lemma AnythingIsStable()
    ensures Stable((m: Mux) => true)
  {}

  lemma KnownWrite(m: Mux, packet: MuxPacket, m': Mux, ok: bool)
    requires AllHold(m) && m.headerWritten && packet.stream in m.writers && (m', ok) == WritePacket(m, packet)
    ensures ok == !Refused(m, packet) && PacketAdded(m, m', packet) && m' != m
    ensures !ok ==> m'.contentStarted == m.contentStarted
  {
    var any := (m: Mux) => true;
    AnythingIsStable();
    WriteSeals(any, m, packet);
    TakenAdds(any, m, m', packet, StampOn(m, packet));
    Lengthens(m.writers[packet.stream].packets, packet.data);
  }

  /**
   A write fails and yet changes the muxer exactly when the header is written, the stream known and past
   its headers, and its granule fields cannot take the frame; the packet then is on its stream's pages
   all the same. Every other failure leaves the muxer as it was.
   */
  lemma ErrorMeans(m: Mux, packet: MuxPacket, m': Mux, ok: bool)
    requires AllHold(m) && (m', ok) == WritePacket(m, packet)
    ensures !ok && m' != m <==> TooFar(m, packet)
    ensures !ok && m' != m ==> PacketAdded(m, m', packet) && m'.contentStarted == m.contentStarted
  {
    if m.headerWritten && packet.stream in m.writers {
      RefuseMeans(m.writers[packet.stream], packet);
      KnownWrite(m, packet, m', ok);
    }
  }

  // ----- a packet refused -----

  /** The packer a stream gets from its first header packet, if that parses; it has counted no frame yet. */
  function PackerFrom(headers: seq<Packet>): Option<TheoraState>
  {
    if headers == [] then None
    else match TheoraHeader.Parse(headers[0])
         case Some(h) => Some(TheoraState(TheoraHeader.GranuleOf(h), 0, 0, h.frn, h.frd))
         case None => None
  }

  /** Sixteen pixels square, thirty frames a second, six bits of offset. */
  const HDR := TheoraHeader.IdHeader(3, 2, 0, 1, 1, 16, 16, 0, 0, 30, 1, 0, 0, 0, 0, 0, 6, 0)

  const COMMENT: Packet := [0x81, 0x74, 0x68, 0x65, 0x6F, 0x72, 0x61]
  const SETUP: Packet := [0x82, 0x74, 0x68, 0x65, 0x6F, 0x72, 0x61]

  /** One Theora stream with its three header packets, which announce the packer it has. */
  const REFUSING := StreamInfo(0, true, Some(TheoraState(TheoraHeader.GranuleOf(HDR), 0, 0, HDR.frn, HDR.frd)),
                               1.0 / 30.0, 3, [TheoraHeader.ToBytes(HDR), COMMENT, SETUP])

  lemma RefusingIsBuilt()
    ensures REFUSING.theora == PackerFrom(REFUSING.headers) && TheoraHeader.Parse(REFUSING.headers[0]) == Some(HDR)
  {
    TheoraHeader.ParseOfToBytes(HDR);
  }

  /** Frame 64, sixty-four frames after the keyframe at 0: one more than six bits can say. */
  const TOO_FAR := MuxPacket(0, [1], Some(64), false, false)

  lemma TooFarIsRefused()
    ensures !Theora.Packs(TheoraHeader.GranuleOf(HDR), 64, 0) && Usable([REFUSING])
  {
    assert Crc.Pow2(6) == 64;
  }

  lemma OpenedTheora(infos: seq<StreamInfo>, m: Mux, s: StreamInfo)
    requires Usable(infos) && |infos| < TWO32 && m == Muxing.Opened(infos) && s in infos
    ensures Running(m) && s.index in m.writers && m.writers[s.index].theora == NewWriter(s, 0).theora
  {
    OpenRuns(infos);
    assert HeadersAlone(m.writers[s.index], s);
  }

  lemma TooFarFails(m: Mux, m': Mux, ok: bool)
    requires Running(m) && 0 in m.writers && m.writers[0].theora == REFUSING.theora
    requires (m', ok) == WritePacket(m, TOO_FAR)
    ensures !ok && m' != m
  {
    TooFarIsRefused();
    HeadersAreIn(m, 0);
    ErrorMeans(m, TOO_FAR, m', ok);
  }

  lemma OneCall(infos: seq<StreamInfo>, calls: seq<Call>, call: Call)
    requires calls == [call] && call.Write?
    ensures calls[..0] == [] && InfosAt(infos, calls) == infos && Given(calls, call.packet.stream) == [call.packet.data]
  {
    PlusNil([call.packet.data]);
  }

  /** A run that is refused a packet, and the packet all the same among those to be read back. */
  lemma RefusingRun(infos: seq<StreamInfo>, calls: seq<Call>, m: Mux)
    requires infos == [REFUSING] && calls == [Write(TOO_FAR)] && m == Muxing.Opened(infos)
    ensures WellUsed(infos, calls) && InfosAt(infos, calls) == infos && Given(calls, 0) == [TOO_FAR.data]
    ensures !WritePacket(m, TOO_FAR).1 && WritePacket(m, TOO_FAR).0 != m
  {
    TooFarIsRefused();
    OpenedTheora(infos, m, REFUSING);
    TooFarFails(m, WritePacket(m, TOO_FAR).0, WritePacket(m, TOO_FAR).1);
    OneCall(infos, calls, Write(TOO_FAR));
  }

  // ----- when a new link may begin -----

  /** A content packet has been accepted since the current link began. */
  predicate HasContent(infos: seq<StreamInfo>, calls: seq<Call>)
    requires |infos| < TWO32
  {
    calls != [] &&
    var front, last := calls[..|calls| - 1], calls[|calls| - 1];
    match last
    case NewLink(_) => false
    case Write(packet) => HasContent(infos, front) || WritePacket(After(infos, front), packet).1
    case SetTarget(_) => HasContent(infos, front)
  }

  lemma WriteStarts(m: Mux, packet: MuxPacket)
    requires Running(m)
    ensures var (m', ok) := WritePacket(m, packet); m'.contentStarted == (m.contentStarted || ok)
  {
    if m.headerWritten && packet.stream in m.writers {
      var any := (m: Mux) => true;
      AnythingIsStable();
      HeadersAreIn(m, packet.stream);
      WriteSeals(any, m, packet);
    }
  }

  lemma OpenedIdle(infos: seq<StreamInfo>)
    requires Usable(infos) && |infos| < TWO32
    ensures !Muxing.Opened(infos).contentStarted
  {
    OpenReady(infos);
    SectionWritten(BeforeHeaders(infos), 0, 0);
  }

  lemma LinkIdle(m: Mux, infos: seq<StreamInfo>, d: Mux, r: Mux)
    requires Running(m) && MayBeginLink(m, infos) && Usable(infos) && |m.used| + |infos| < TWO32 && d == FinishLink(m)
    requires |d.used| + |infos| < TWO32 && r == Rearmed(d, infos)
    ensures !BeginLink(m, infos).contentStarted
  {
    B.RearmedIs(m, d, infos);
    B.RearmedBegins(m, d, infos, r);
    SectionWritten(r, LinksOf(m), StreamsOf(m));
  }

  lemma {:induction false} ContentMeans(infos: seq<StreamInfo>, calls: seq<Call>)
    requires WellUsed(infos, calls) && |infos| < TWO32
    ensures After(infos, calls).contentStarted == HasContent(infos, calls)
    decreases |calls|
  {
    if calls == [] {
      OpenedIdle(infos);
    } else {
      var front, last := calls[..|calls| - 1], calls[|calls| - 1];
      var m := After(infos, front);
      RunHolds(infos, front);
      ContentMeans(infos, front);
      match last
      case Write(packet) => WriteStarts(m, packet);
      case NewLink(next) =>
        var d := FinishLink(m);
        TrailerFinishes(m);
        LinkIdle(m, next, d, Rearmed(d, next));
      case SetTarget(_) =>
    }
  }

  /** A new link is refused exactly when it names no stream or the current one has taken no content packet. */
  lemma LinkBeginsWhen(infos: seq<StreamInfo>, calls: seq<Call>, next: seq<StreamInfo>)
    requires WellUsed(infos, calls) && |infos| < TWO32
    ensures MayBeginLink(After(infos, calls), next) <==> HasContent(infos, calls) && next != []
  {
    RunHolds(infos, calls);
    ContentMeans(infos, calls);
  }
}
