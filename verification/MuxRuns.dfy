/** Whole runs of the muxer: open, any calls, trailer. */
module MuxRuns {
  import opened Bytes
  import opened Pages
  import opened Segments
  import opened Grammar
  import opened Muxing
  import opened MuxWire
  import opened MuxFill
  import opened MuxSteps
  import opened MuxClose
  import opened MuxLinks
  import opened MuxHeaders
  import S = MuxSchedule

  // ----- the invariant of a run -----

  /** The link's streams are those declared, under distinct indices. */
  predicate DeclaredOnly(m: Mux)
  {
    m.infos != [] && DistinctIndices(m.infos) && m.order == Indices(m.infos) && Covered(m.writers, m.infos)
  }

  predicate DistinctSerials(ws: seq<StreamWriter>)
  {
    forall j, k :: 0 <= j < k < |ws| ==> ws[j].serial != ws[k].serial
  }

  function LinksOf(m: Mux): nat { m.linkIndex + 1 }

  function StreamsOf(m: Mux): nat { |m.past| + |m.infos| }

  /** What only a new link or the trailer changes. */
  predicate Settings(m: Mux)
  {
    && m.headerWritten && !m.trailerWritten && DeclaredOnly(m)
    && (forall k :: 0 <= k < |m.past| ==> Retained(m.past[k])) && DistinctSerials(m.past)
    && m.linkIndex < |m.used| < TWO32
  }

  /** At every moment of a link, once its header section is out. */
  ghost predicate OnCourse(m: Mux)
  {
    GoodFor(LinksOf(m), StreamsOf(m))(m) && S.Scheduled(m) && Settings(m)
  }

  ghost function Course(): Invariant { m => OnCourse(m) }

  /** Every stream's header packets are in. */
  predicate Started(m: Mux)
  {
    forall s :: s in m.infos ==>
      s.index in m.writers && m.writers[s.index].packets != [] && m.writers[s.index].headersRemaining == 0
  }

  /** Between calls: the wire is sound and scheduled, every stream's packets are complete, past streams have ended. */
  ghost predicate Running(m: Mux)
  {
    Course()(m) && AllHold(m) && Started(m)
  }

  lemma IndicesDistinct(infos: seq<StreamInfo>)
    requires DistinctIndices(infos)
    ensures Distinct(Indices(infos))
  {}

  lemma CoveredIsOrdered(m: Mux, i: u32)
    requires DeclaredOnly(m) && i in m.writers
    ensures i in m.order
  {
    var s :| s in m.infos && s.index == i;
    var k :| 0 <= k < |m.infos| && m.infos[k] == s;
    assert m.order[k] == i;
  }

  lemma OrderIsDeclared(m: Mux)
    requires DeclaredOnly(m) && Started(m)
    ensures InOrderOnly(m)
  {
    IndicesDistinct(m.infos);
    forall i | i in m.writers
      ensures i in m.order
    {
      CoveredIsOrdered(m, i);
    }
    forall k | 0 <= k < |m.order|
      ensures m.order[k] in m.writers && m.writers[m.order[k]].packets != []
    {
      assert m.infos[k] in m.infos;
    }
  }

  // ----- a link begins -----

  lemma BegunWriter(wire: seq<Page>, w: StreamWriter)
    requires Carried(wire, w) && Proj(wire, w.serial) != [] && HoldsPackets(w)
    ensures w.bosEmitted
  {
    assert |w.cut| >= |Proj(wire, w.serial)|;
  }

  predicate NothingQueued(m: Mux)
  {
    && m.released == []
    && forall i :: i in m.writers ==> i in m.order && m.writers[i].queue == [] && m.writers[i].bosEmitted
  }

  lemma QuietIsScheduled(m: Mux)
    requires NothingQueued(m)
    ensures S.Scheduled(m)
  {}

  lemma BeginsScheduled(m: Mux, links: nat, bos: nat)
    requires SectionDone(m, m.infos, links, bos) && DeclaredOnly(m)
    ensures S.Scheduled(m)
  {
    forall i | i in m.writers
      ensures i in m.order && m.writers[i].bosEmitted
    {
      CoveredIsOrdered(m, i);
      BegunWriter(m.wire, m.writers[i]);
    }
    QuietIsScheduled(m);
  }

  lemma BeginsStarted(m: Mux, links: nat, bos: nat)
    requires SectionDone(m, m.infos, links, bos) && forall s :: s in m.infos ==> s.headers != []
    ensures Started(m)
  {
    forall s | s in m.infos
      ensures s.index in m.writers && m.writers[s.index].packets != [] && m.writers[s.index].headersRemaining == 0
    {
      assert s.headers[..|s.headers|] == s.headers;
    }
  }

  lemma UsableEach(infos: seq<StreamInfo>)
    requires Usable(infos)
    ensures forall s :: s in infos ==> UsableStream(s)
  {
    forall s | s in infos
      ensures UsableStream(s)
    {
      var k :| 0 <= k < |infos| && infos[k] == s;
    }
  }

  /** The writer has exactly the stream's header packets, stamped 0, and its Theora counters have not moved. */
  predicate HeadersAlone(w: StreamWriter, s: StreamInfo)
  {
    w.packets == s.headers && AllZero(w.stamps) && w.theora == NewWriter(s, 0).theora
  }

  predicate HeadersOnly(m: Mux)
  {
    forall s :: s in m.infos ==> s.index in m.writers && HeadersAlone(m.writers[s.index], s)
  }

  lemma BeginsWithHeaders(m: Mux, links: nat, bos: nat)
    requires SectionDone(m, m.infos, links, bos)
    ensures HeadersOnly(m)
  {
    forall s | s in m.infos
      ensures s.index in m.writers && HeadersAlone(m.writers[s.index], s)
    {
      assert s.headers[..|s.headers|] == s.headers;
    }
  }

  // ----- fresh writers on a closed wire -----

  lemma FreshCarried(wire: seq<Page>, s: StreamInfo, serial: u32)
    requires Proj(wire, serial) == []
    ensures Carried(wire, NewWriter(s, serial))
  {
    assert PagesOf([]) == [];
  }

  lemma FreshAreCarried(wire: seq<Page>, infos: seq<StreamInfo>, writers: map<u32, StreamWriter>, used: set<u32>,
          used': set<u32>)
    requires FreshWriters(infos, writers, used, used') && forall s :: Proj(wire, s) != [] ==> s in used
    ensures forall i :: i in writers ==> Carried(wire, writers[i])
  {
    forall i | i in writers
      ensures Carried(wire, writers[i])
    {
      var k :| 0 <= k < |infos| && infos[k].index == i;
      FreshCarried(wire, infos[k], writers[i].serial);
    }
  }

  lemma FreshAreOpening(infos: seq<StreamInfo>, writers: map<u32, StreamWriter>, used: set<u32>, used': set<u32>)
    requires FreshWriters(infos, writers, used, used') && Usable(infos)
    ensures BosOut(writers, infos, [])
  {
    UsableEach(infos);
    forall i | i in writers
      ensures exists s :: s in infos && s.index == i
    {
      var k :| 0 <= k < |infos| && infos[k].index == i;
      assert infos[k] in infos;
    }
    forall s | s in infos
      ensures s.index in writers && Opening(writers[s.index], s, false)
    {
      var k :| 0 <= k < |infos| && infos[k] == s;
      assert infos[k].index in writers;
    }
  }

  lemma FreshSound(wire: seq<Page>, infos: seq<StreamInfo>, writers: map<u32, StreamWriter>, used: set<u32>,
          used': set<u32>)
    requires Orderly(wire) && AllNeat(wire) && AllClosed(wire)
    requires FreshWriters(infos, writers, used, used') && forall s :: Proj(wire, s) != [] ==> s in used
    ensures Sound(wire, writers)
  {
    FreshAreCarried(wire, infos, writers, used, used');
  }

  lemma FreshPast(wire: seq<Page>, infos: seq<StreamInfo>, writers: map<u32, StreamWriter>, past: seq<StreamWriter>,
                  used: set<u32>, used': set<u32>)
    requires FreshWriters(infos, writers, used, used') && forall s :: Proj(wire, s) != [] ==> s in used
    requires forall k :: 0 <= k < |past| ==> Proj(wire, past[k].serial) == past[k].cut && past[k].serial in used
    requires forall s: u32 :: Proj(wire, s) != [] ==> LaidAside(past, s)
    ensures PastKept(wire, writers, past, used')
  {}

  /** A wire on which everything has ended is ready for the BOS pages of fresh writers. */
  lemma ReadyForBos(m: Mux, used: set<u32>, links: nat, bos: nat)
    requires Orderly(m.wire) && AllNeat(m.wire) && AllClosed(m.wire)
    requires (m.wire == [] || DataBegun(m.wire)) && Tally(m.wire, links, bos)
    requires Usable(m.infos) && FreshWriters(m.infos, m.writers, used, m.used)
    requires forall s :: Proj(m.wire, s) != [] ==> s in used
    requires forall k :: 0 <= k < |m.past| ==>
               Proj(m.wire, m.past[k].serial) == m.past[k].cut && m.past[k].serial in used
    requires forall s: u32 :: Proj(m.wire, s) != [] ==> LaidAside(m.past, s)
    ensures BosPhase(m, m.infos, [], links, bos)
  {
    FreshSound(m.wire, m.infos, m.writers, used, m.used);
    FreshPast(m.wire, m.infos, m.writers, m.past, used, m.used);
    FreshAreOpening(m.infos, m.writers, used, m.used);
  }

  /** A finished header section starts a run of the link, its streams holding their headers only. */
  lemma BeginsRun(m: Mux)
    requires SectionDone(m, m.infos, LinksOf(m), StreamsOf(m)) && Usable(m.infos)
    requires m.order == Indices(m.infos) && !m.trailerWritten && m.linkIndex < |m.used| < TWO32
    requires (forall k :: 0 <= k < |m.past| ==> Retained(m.past[k])) && DistinctSerials(m.past)
    ensures Running(m) && HeadersOnly(m)
  {
    UsableEach(m.infos);
    BeginsScheduled(m, LinksOf(m), StreamsOf(m));
    BeginsStarted(m, LinksOf(m), StreamsOf(m));
    BeginsWithHeaders(m, LinksOf(m), StreamsOf(m));
  }

  lemma EmptyWire()
    ensures Orderly([]) && AllNeat([]) && AllClosed([]) && Tally([], 0, 0) && forall s :: Proj([], s) == []
  {}

  lemma OpenReady(infos: seq<StreamInfo>)
    requires Usable(infos) && |infos| < TWO32
    ensures BosPhase(BeforeHeaders(infos).(headerWritten := true), infos, [], 0, 0)
    ensures 0 < |BeforeHeaders(infos).used| < TWO32
  {
    SerialsFresh(infos, {});
    EmptyWire();
    ReadyForBos(BeforeHeaders(infos).(headerWritten := true), {}, 0, 0);
  }

  /** The header section of a link that is ready for it. */
  lemma SectionRuns(m: Mux)
    requires Usable(m.infos) && BosPhase(m.(headerWritten := true), m.infos, [], m.linkIndex, |m.past|)
    requires m.order == Indices(m.infos) && !m.trailerWritten && m.linkIndex < |m.used| < TWO32
    requires (forall k :: 0 <= k < |m.past| ==> Retained(m.past[k])) && DistinctSerials(m.past)
    ensures Running(HeaderSection(m)) && HeadersOnly(HeaderSection(m))
    ensures var m' := HeaderSection(m);
            m'.past == m.past && m'.infos == m.infos && m'.linkIndex == m.linkIndex && m'.used == m.used
  {
    SectionWritten(m, m.linkIndex, |m.past|);
    BeginsRun(HeaderSection(m));
  }

  lemma OpenRuns(infos: seq<StreamInfo>)
    requires Usable(infos) && |infos| < TWO32
    ensures Running(Muxing.Opened(infos)) && HeadersOnly(Muxing.Opened(infos))
    ensures var m := Muxing.Opened(infos); m.past == [] && m.infos == infos && m.linkIndex == 0
  {
    OpenReady(infos);
    SectionRuns(BeforeHeaders(infos));
  }

  // ----- a packet -----

  /** Exactly one packet more, on the stream it was written to. */
  predicate PacketAdded(m: Mux, m': Mux, packet: MuxPacket)
    requires packet.stream in m.writers
  {
    && m' == m.(writers := m'.writers, wire := m'.wire, released := m'.released, contentStarted := m'.contentStarted)
    && m'.writers.Keys == m.writers.Keys
    && forall i :: i in m.writers ==>
         && m'.writers[i].serial == m.writers[i].serial
         && m'.writers[i].packets == m.writers[i].packets + (if i == packet.stream then [packet.data] else [])
         && m'.writers[i].stamps == m.writers[i].stamps + (if i == packet.stream then [StampOn(m, packet)] else [])
         && m'.writers[i].headersRemaining <= m.writers[i].headersRemaining
  }

  lemma TakenAdds(inv: Invariant, m: Mux, m': Mux, packet: MuxPacket, g: i64)
    requires packet.stream in m.writers && Taken(inv, m, m', packet, g) && g == StampOn(m, packet)
    ensures PacketAdded(m, m', packet)
  {
    forall i | i in m.writers && i != packet.stream
      ensures m'.writers[i].packets == m.writers[i].packets + [] && m'.writers[i].stamps == m.writers[i].stamps + []
    {
      PlusNil(m.writers[i].packets);
      PlusNil(m.writers[i].stamps);
    }
  }

  lemma AddedStarted(m: Mux, m': Mux, packet: MuxPacket)
    requires packet.stream in m.writers && PacketAdded(m, m', packet) && Started(m)
    ensures Started(m')
  {}

  /** `m'` is the same link of the same muxer as `m`. */
  predicate SameLink(m: Mux, m': Mux)
  {
    && m'.infos == m.infos && m'.order == m.order && m'.writers.Keys == m.writers.Keys && m'.past == m.past
    && m'.used == m.used && m'.linkIndex == m.linkIndex
    && m'.headerWritten == m.headerWritten && m'.trailerWritten == m.trailerWritten
  }

  lemma SameSettings(m: Mux, m': Mux)
    requires SameLink(m, m') && Settings(m)
    ensures Settings(m') && LinksOf(m') == LinksOf(m) && StreamsOf(m') == StreamsOf(m)
  {}

  lemma StillOnCourse(m: Mux, m': Mux, links: nat, bos: nat)
    requires OnCourse(m) && SameLink(m, m') && links == LinksOf(m) && bos == StreamsOf(m)
    requires GoodFor(links, bos)(m') && S.Scheduled(m')
    ensures OnCourse(m')
  {
    SameSettings(m, m');
  }

  lemma GoodForWith(m: Mux, i: u32, w: StreamWriter, links: nat, bos: nat)
    requires GoodFor(links, bos)(m) && i in m.writers && w.serial == m.writers[i].serial && Carried(m.wire, w)
    ensures GoodFor(links, bos)(With(m, i, w)) && SameLink(m, With(m, i, w))
  {
    GoodWith(m, i, w, links, bos);
  }

  lemma MovedLink(m: Mux)
    ensures SameLink(m, Release(m))
  {
    ReleaseMoves(m);
  }

  lemma ReleaseOnCourse(m: Mux)
    requires OnCourse(m)
    ensures OnCourse(Release(m))
  {
    ReleaseGood(m, LinksOf(m), StreamsOf(m));
    S.ReleaseScheduled(m);
    MovedLink(m);
    StillOnCourse(m, Release(m), LinksOf(m), StreamsOf(m));
  }

  lemma WithOnCourse(m: Mux, i: u32, w: StreamWriter)
    requires OnCourse(m) && i in m.writers && w.serial == m.writers[i].serial && Carried(m.wire, w)
    requires S.Scheduled(With(m, i, w))
    ensures OnCourse(With(m, i, w))
  {
    GoodForWith(m, i, w, LinksOf(m), StreamsOf(m));
    StillOnCourse(m, With(m, i, w), LinksOf(m), StreamsOf(m));
  }

  lemma UpdateOnCourse(m: Mux, i: u32, w: StreamWriter)
    requires OnCourse(m) && i in m.writers && SamePages(m.writers[i], w)
    ensures OnCourse(With(m, i, w))
  {
    S.ScheduledUpdate();
    WithOnCourse(m, i, w);
  }

  lemma CutOnCourse(m: Mux, i: u32)
    requires OnCourse(m) && i in m.writers && Fitting(CutAndQueue(m.writers[i]).cut)
    ensures OnCourse(With(m, i, CutAndQueue(m.writers[i])))
  {
    CutCarried(m.wire, m.writers[i]);
    S.CutScheduled(m, i);
    WithOnCourse(m, i, CutAndQueue(m.writers[i]));
  }

  lemma CourseRelease()
    ensures KeptByRelease(Course())
  {
    forall m: Mux | OnCourse(m)
      ensures OnCourse(Release(m))
    {
      ReleaseOnCourse(m);
    }
  }

  lemma CourseUpdate()
    ensures KeptByUpdate(Course())
  {
    forall m: Mux, i: u32, w: StreamWriter | OnCourse(m) && i in m.writers && SamePages(m.writers[i], w)
      ensures OnCourse(With(m, i, w))
    {
      UpdateOnCourse(m, i, w);
    }
  }

  lemma CourseCut()
    ensures KeptByCut(Course())
  {
    forall m: Mux, i: u32 | OnCourse(m) && i in m.writers && Fitting(CutAndQueue(m.writers[i]).cut)
      ensures OnCourse(With(m, i, CutAndQueue(m.writers[i])))
    {
      CutOnCourse(m, i);
    }
  }

  lemma FlagOnCourse(m: Mux, m': Mux, b: bool)
    requires OnCourse(m) && m' == m.(contentStarted := b)
    ensures OnCourse(m')
  {
    StillOnCourse(m, m', LinksOf(m), StreamsOf(m));
  }

  lemma CourseFlag()
    ensures KeptByFlag(Course())
  {
    forall m: Mux, b: bool {:trigger m.(contentStarted := b)} | OnCourse(m)
      ensures Course()(m.(contentStarted := b))
    {
      FlagOnCourse(m, m.(contentStarted := b), b);
    }
  }

  lemma CourseStable()
    ensures Stable(Course())
  {
    CourseRelease();
    CourseUpdate();
    CourseCut();
    CourseFlag();
  }

  /** Any packet keeps the run going and is added to its stream, refused or not. */
  lemma WriteRuns(m: Mux, packet: MuxPacket)
    requires Running(m) && m.headerWritten && packet.stream in m.writers
    ensures Running(WritePacket(m, packet).0)
    ensures PacketAdded(m, WritePacket(m, packet).0, packet)
  {
    CourseStable();
    WriteSeals(Course(), m, packet);
    TakenAdds(Course(), m, WritePacket(m, packet).0, packet, StampOn(m, packet));
    AddedStarted(m, WritePacket(m, packet).0, packet);
  }

  // ----- the end of a link -----

  lemma LastClosed(inv: Invariant, m: Mux, order: seq<u32>)
    requires Stable(inv) && KeptByClose(inv) && inv(m) && AllHold(m) && Distinct(order) && AllIn(order, m)
    requires order != []
    ensures var i := order[|order| - 1]; i in m.writers && CloseAll(m, order).writers[i].queue != []
  {
    var front, i := order[..|order| - 1], order[|order| - 1];
    SplitLast(order);
    FrontOrder(front, i, m);
    ClosesAll(inv, m, front);
    CloseQueues(inv, CloseAll(m, front), i);
  }

  lemma CloseHasQueue(w: StreamWriter)
    requires w.bosEmitted
    ensures Close(w).queue != []
  {}

  /** A stream just closed has its last page queued. */
  lemma CloseQueues(inv: Invariant, m: Mux, i: u32)
    requires Stable(inv) && inv(m) && i in m.writers && HoldsPackets(m.writers[i]) && m.writers[i].packets != []
    ensures CloseStream(m, i).writers[i].queue != []
  {
    FlushForClose(inv, m, i);
    var m1 := if LacingOf(m, i) != [] then Flush(m, i, true) else m;
    SomePageCut(m1.writers[i]);
    CloseHasQueue(m1.writers[i]);
  }

  ghost function BegunSince(m0: Mux, links: nat, bos: nat): Invariant
  {
    m => Good(m, links, bos) && (m == m0 || DataBegun(m.wire))
  }

  lemma PopBegins(m: Mux, i: u32, links: nat, bos: nat)
    requires Good(m, links, bos) && i in m.writers && m.writers[i].queue != []
    ensures Good(Pop(m, i), links, bos) && DataBegun(Pop(m, i).wire)
  {
    GoodPop(m, i, links, bos);
    PopAccepted(m.wire, m.writers[i]);
    UnSnoc(m.wire, m.writers[i].queue[0].page);
  }

  /** Draining a queue that is not empty leaves a data page last on the wire. */
  lemma DrainBegins(m: Mux, links: nat, bos: nat, i: u32)
    requires Good(m, links, bos) && i in m.order && i in m.writers && m.writers[i].queue != []
    ensures DataBegun(DrainAll(m).wire)
  {
    forall m': Mux, j: u32 | j in m'.writers && m'.writers[j].queue != [] && Good(m', links, bos)
      ensures Good(Pop(m', j), links, bos) && DataBegun(Pop(m', j).wire)
    {
      PopBegins(m', j, links, bos);
    }
    DrainKeeps(BegunSince(m, links, bos), m);
    DrainEmpties(m);
  }

  /** The end of a link: all of it on the wire, ended, and data last. */
  ghost predicate Finished(m: Mux, d: Mux)
  {
    && Good(d, LinksOf(m), StreamsOf(m)) && LinkDone(m, d)
    && AllClosed(d.wire) && DataBegun(d.wire) && S.Queues(d)
    && forall i :: i in d.writers ==> Proj(d.wire, d.writers[i].serial) == d.writers[i].cut
  }

  lemma FinishWhole(m: Mux, links: nat, bos: nat)
    requires Good(m, links, bos) && AllHold(m) && InOrderOnly(m)
    ensures var d := FinishLink(m);
            && Good(d, links, bos) && LinkDone(m, d) && AllClosed(d.wire)
            && forall i :: i in d.writers ==> Proj(d.wire, d.writers[i].serial) == d.writers[i].cut
  {
    FinishGood(m, links, bos);
    DoneIsClosed(FinishLink(m), links, bos);
  }

  lemma FinishRuns(m: Mux)
    requires Running(m)
    ensures Finished(m, FinishLink(m))
  {
    OrderIsDeclared(m);
    FinishWhole(m, LinksOf(m), StreamsOf(m));
    FinishOrdered(m);
    FinishBegins(m, LinksOf(m), StreamsOf(m));
  }

  lemma FinishBegins(m: Mux, links: nat, bos: nat)
    requires Good(m, links, bos) && AllHold(m) && InOrderOnly(m) && m.order != []
    ensures DataBegun(FinishLink(m).wire)
  {
    GoodStable(links, bos);
    GoodClose(links, bos);
    ClosesAll(GoodFor(links, bos), m, m.order);
    LastClosed(GoodFor(links, bos), m, m.order);
    DrainBegins(CloseAll(m, m.order), links, bos, m.order[|m.order| - 1]);
  }

  // ----- the next link -----

  lemma {:induction false} WritersAre(writers: map<u32, StreamWriter>, order: seq<u32>)
    requires forall k :: 0 <= k < |order| ==> order[k] in writers
    ensures |WritersOf(writers, order)| == |order|
    ensures forall k :: 0 <= k < |order| ==> WritersOf(writers, order)[k] == writers[order[k]]
  {
    if order != [] {
      WritersAre(writers, order[..|order| - 1]);
    }
  }

  /** A finished stream: whole, and on the wire as it was cut. */
  predicate Kept(wire: seq<Page>, used: set<u32>, w: StreamWriter)
  {
    Retained(w) && Proj(wire, w.serial) == w.cut && w.serial in used
  }

  lemma PastStaysKept(m: Mux, d: Mux)
    requires Settings(m) && d.past == m.past && PastKept(d.wire, d.writers, d.past, d.used)
    ensures forall k :: 0 <= k < |d.past| ==> Kept(d.wire, d.used, d.past[k])
  {}

  predicate WholeOnWire(d: Mux)
  {
    forall i :: i in d.writers ==> Kept(d.wire, d.used, d.writers[i])
  }

  lemma LinkKept(m: Mux, d: Mux)
    requires Finished(m, d)
    ensures WholeOnWire(d) && PastKept(d.wire, d.writers, d.past, d.used) && SameLink(m, d) && OwnSerials(d.writers)
  {}

  lemma CurrentKept(d: Mux, order: seq<u32>)
    requires WholeOnWire(d) && forall k :: 0 <= k < |order| ==> order[k] in d.writers
    ensures var ws := WritersOf(d.writers, order);
            |ws| == |order| && forall k :: 0 <= k < |ws| ==> Kept(d.wire, d.used, ws[k])
  {
    WritersAre(d.writers, order);
  }

  lemma AllKept(wire: seq<Page>, used: set<u32>, a: seq<StreamWriter>, b: seq<StreamWriter>)
    requires forall k :: 0 <= k < |a| ==> Kept(wire, used, a[k])
    requires forall k :: 0 <= k < |b| ==> Kept(wire, used, b[k])
    ensures forall k :: 0 <= k < |a + b| ==> Kept(wire, used, (a + b)[k])
  {}

  lemma RearmedReady(d: Mux, infos: seq<StreamInfo>, r: Mux, links: nat, bos: nat)
    requires Good(d, links, bos) && AllClosed(d.wire) && DataBegun(d.wire)
    requires Usable(infos) && |d.used| + |infos| < TWO32 && r == Rearmed(d, infos)
    requires forall k :: 0 <= k < |r.past| ==> Kept(d.wire, d.used, r.past[k])
    requires forall s: u32 :: Proj(d.wire, s) != [] ==> LaidAside(r.past, s)
    ensures BosPhase(r.(headerWritten := true), infos, [], links, bos) && |r.used| == |d.used| + |infos|
  {
    SerialsFresh(infos, d.used);
    ReadyForBos(r.(headerWritten := true), d.used, links, bos);
  }

  lemma SerialOf(d: Mux, order: seq<u32>, ws: seq<StreamWriter>, all: seq<StreamWriter>, k: nat)
    requires all == d.past + ws && |ws| == |order| && k < |all|
    requires forall n :: 0 <= n < |order| ==> order[n] in d.writers && ws[n] == d.writers[order[n]]
    ensures k < |d.past| ==> all[k] == d.past[k]
    ensures k >= |d.past| ==> order[k - |d.past|] in d.writers && all[k] == d.writers[order[k - |d.past|]]
  {}

  /** No serial of the finished link was used before it. */
  lemma SerialsApart(d: Mux, order: seq<u32>)
    requires DistinctSerials(d.past) && PastKept(d.wire, d.writers, d.past, d.used) && OwnSerials(d.writers)
    requires Distinct(order) && forall k :: 0 <= k < |order| ==> order[k] in d.writers
    ensures DistinctSerials(d.past + WritersOf(d.writers, order))
  {
    var ws := WritersOf(d.writers, order);
    WritersAre(d.writers, order);
    var all := d.past + ws;
    forall j, k | 0 <= j < k < |all|
      ensures all[j].serial != all[k].serial
    {
      SerialOf(d, order, ws, all, j);
      SerialOf(d, order, ws, all, k);
    }
  }

  /** With a link's streams laid aside, every serial on the wire is that of a stream laid aside. */
  lemma KnownAside(d: Mux, all: seq<StreamWriter>)
    requires AllKnown(d.wire, d.writers, d.past) && all == d.past + WritersOf(d.writers, d.order)
    requires (forall i :: i in d.writers ==> i in d.order) && forall k :: 0 <= k < |d.order| ==> d.order[k] in d.writers
    ensures forall s: u32 :: Proj(d.wire, s) != [] ==> LaidAside(all, s)
  {
    var ws := WritersOf(d.writers, d.order);
    WritersAre(d.writers, d.order);
    forall s: u32 | Proj(d.wire, s) != []
      ensures LaidAside(all, s)
    {
      if LaidAside(d.past, s) {
        var k :| 0 <= k < |d.past| && d.past[k].serial == s;
        assert all[k].serial == s;
      } else {
        var i :| i in d.writers && d.writers[i].serial == s;
        var k :| 0 <= k < |d.order| && d.order[k] == i;
        assert all[|d.past| + k] == ws[k];
      }
    }
  }

  /** The finished link's streams laid aside, its number passed on. */
  lemma RearmedFields(m: Mux, d: Mux, infos: seq<StreamInfo>, r: Mux)
    requires Settings(m) && InOrderOnly(m) && SameLink(m, d) && WholeOnWire(d)
    requires PastKept(d.wire, d.writers, d.past, d.used)
    requires infos != [] && |d.used| + |infos| < TWO32 && r == Rearmed(d, infos) && OwnSerials(d.writers)
    ensures r.linkIndex == LinksOf(m) && |r.past| == StreamsOf(m) && r.past == m.past + WritersOf(d.writers, m.order)
    ensures (forall k :: 0 <= k < |r.past| ==> Kept(d.wire, d.used, r.past[k])) && DistinctSerials(r.past)
  {
    SerialsApart(d, d.order);
    PastStaysKept(m, d);
    CurrentKept(d, d.order);
    AllKept(d.wire, d.used, d.past, WritersOf(d.writers, d.order));
  }

  lemma RearmedRuns(r: Mux, infos: seq<StreamInfo>, links: nat, bos: nat)
    requires Usable(infos) && r.infos == infos && BosPhase(r.(headerWritten := true), infos, [], links, bos)
    requires r.linkIndex == links && |r.past| == bos && r.order == Indices(infos) && !r.trailerWritten
    requires links < |r.used| < TWO32
    requires (forall k :: 0 <= k < |r.past| ==> Retained(r.past[k])) && DistinctSerials(r.past)
    ensures Running(HeaderSection(r)) && HeadersOnly(HeaderSection(r))
    ensures var m' := HeaderSection(r); m'.infos == infos && m'.linkIndex == links && m'.past == r.past
  {
    SectionRuns(r);
  }

  lemma BeginLinkIs(m: Mux, d: Mux, infos: seq<StreamInfo>)
    requires MayBeginLink(m, infos) && d == FinishLink(m) && d.used == m.used && |m.used| + |infos| < TWO32
    ensures BeginLink(m, infos) == HeaderSection(Rearmed(d, infos))
  {}

  /** A new link starts on a wire all of whose streams have ended, with serials of its own. */
  lemma LinkRuns(m: Mux, infos: seq<StreamInfo>, d: Mux)
    requires Running(m) && MayBeginLink(m, infos) && Usable(infos) && |m.used| + |infos| < TWO32 && d == FinishLink(m)
    ensures Running(BeginLink(m, infos)) && HeadersOnly(BeginLink(m, infos))
    ensures var m' := BeginLink(m, infos);
            && m'.infos == infos && m'.linkIndex == LinksOf(m)
            && m'.past == m.past + WritersOf(d.writers, m.order)
  {
    FinishRuns(m);
    OrderIsDeclared(m);
    LinkKept(m, d);
    BeginLinkIs(m, d, infos);
    var r := Rearmed(d, infos);
    RearmedFields(m, d, infos, r);
    KnownAside(d, r.past);
    RearmedReady(d, infos, r, LinksOf(m), StreamsOf(m));
    RearmedRuns(r, infos, LinksOf(m), StreamsOf(m));
  }
}
