/** Which granule each page of a muxer run carries, from the calls that were made. */
module MuxGranules {
  import opened Bytes
  import opened Pages
  import opened Segments
  import opened Grammar
  import opened Paging
  import opened Muxing
  import opened MuxWire
  import opened MuxFill
  import opened MuxSteps
  import opened MuxHeaders
  import opened MuxRuns
  import opened MuxTheorems
  import opened MuxHistory
  import opened MuxBirth
  import opened PageMarks
  import KeyNotes
  import K = MuxKeys
  import Stamps = MuxStamps

  // ----- the page being filled while a packet is laid out -----

  function GranuleOn(m: Mux, i: u32): i64
    requires i in m.writers
  {
    m.writers[i].buffered.granule
  }

  lemma FlushBares(m: Mux, i: u32, force: bool)
    requires i in m.writers && LacingOf(m, i) != []
    ensures GranuleOn(Flush(m, i, force), i) == -1
  {
    ReleaseMovesOnly(m, i, CutAndQueue(m.writers[i]));
  }

  lemma {:induction false} SpanBares(m: Mux, i: u32, lacing: seq<byte>, data: seq<byte>)
    requires i in m.writers && PacketTail(lacing) && |data| == Sum(lacing)
    ensures GranuleOn(SpanOpen(m, i, lacing, data).0, i) == if |lacing| > 255 then -1 else GranuleOn(m, i)
    decreases |lacing|
  {
    if |lacing| > 255 {
      var n := Sum(lacing[..255]);
      ChunkOff(lacing, data, n);
      SpanUnfolds(m, i, lacing, data, n);
      var m1 := AppendAt(m, i, lacing[..255], data[..n]);
      FlushBares(m1, i, false);
      SpanBares(Flush(m1, i, false), i, lacing[255..], data[n..]);
    }
  }

  /** The page being filled has lost its granule if a page was cut. */
  lemma PlaceBares(m: Mux, i: u32, data: Packet)
    requires i in m.writers
    ensures var w, w1 := m.writers[i], Place(m, i, data).writers[i];
            w1.buffered.granule == if w1.cut == w.cut then w.buffered.granule else -1
  {
    var n := |data| / 255 + 1;
    TailOfLace(|data|);
    var room, more := K.PlaceCuts(m, i, data);
    var m1 := MakeRoom(m, i, n);
    if |LacingOf(m, i)| + n > 255 && LacingOf(m, i) != [] {
      FlushBares(m, i, false);
      K.FlushCuts(m, i, false);
    }
    SpanBares(m1, i, Lace(|data|), data);
  }

  // ----- one stream -----

  /** Every page cut, and the one being filled, carries the last granule of the packets that end on it. */
  predicate Filling(w: StreamWriter, marks: seq<Option<i64>>)
  {
    && |marks| == |w.packets| && Marked(w.cut, marks) && Done(w.cut) <= |marks|
    && w.buffered.granule == MarkIn(marks, Done(w.cut), |marks|)
  }

  lemma CutMarked(w: StreamWriter, marks: seq<Option<i64>>)
    requires Filling(w, marks) && HoldsPackets(w)
    ensures Marked(w.cut + [PageOut(w)], marks) && Done(w.cut + [PageOut(w)]) == |marks|
  {
    K.AllCounted(w);
    DoneSnoc(w.cut, PageOut(w));
    MarkedSnoc(w.cut, PageOut(w), marks, |marks|);
  }

  /** Full pages on which no packet ends carry nothing. */
  lemma MiddleIsBare(q: seq<Page>, more: seq<Page>, serial: u32, stamps: seq<i64>)
    requires CutPages(q + more, serial, stamps) && K.AllMiddle(more)
    ensures AllBlank(more)
  {
    CutIsBare(q + more, serial, stamps);
    forall k | 0 <= k < |more|
      ensures Blank(more[k])
    {
      assert K.Middle(more[k]) && (q + more)[|q| + k] == more[k];
    }
  }

  /** The pages cut to lay out a packet. */
  lemma LaidOutMarked(w: StreamWriter, w1: StreamWriter, room: seq<Page>, more: seq<Page>, marks: seq<Option<i64>>)
    requires Filling(w, marks) && HoldsPackets(w) && AllBlank(more)
    requires room == [] || (room == [PageOut(w)] && w.buffered.lacing != [])
    requires room == [] && more != [] ==> w.buffered.lacing == []
    requires w1.cut == w.cut + room + more && w1.packets == w.packets
    requires w1.buffered.granule == if w1.cut == w.cut then w.buffered.granule else -1
    ensures Filling(w1, marks)
  {
    K.AllCounted(w);
    if room == [] {
      PlusNil(w.cut);
      MarkedBare(w.cut, more, marks);
    } else {
      CutMarked(w, marks);
      MarkedBare(w.cut + room, more, marks);
    }
    if w1.cut == w.cut {
      assert |room| + |more| == 0;
    } else {
      assert Done(w1.cut) == |marks|;
    }
  }

  lemma PlaceMarked(m: Mux, i: u32, data: Packet, marks: seq<Option<i64>>)
    requires i in m.writers && HoldsPackets(m.writers[i]) && Filling(m.writers[i], marks)
    ensures Filling(Place(m, i, data).writers[i], marks) && SameHistory(m.writers[i], Place(m, i, data).writers[i])
  {
    var any := (m: Mux) => true;
    Stamps.AnythingIsStable();
    PlaceFills(any, m, i, data, 0);
    var w, w1 := m.writers[i], Place(m, i, data).writers[i];
    var room, more := K.PlaceCuts(m, i, data);
    MiddleIsBare(w.cut + room, more, w1.serial, w1.stamps + [0]);
    PlaceBares(m, i, data);
    LaidOutMarked(w, w1, room, more, marks);
  }

  /** A packet has ended, and left what it brought. */
  lemma EndMarked(w1: StreamWriter, w2: StreamWriter, marks: seq<Option<i64>>, data: Packet, t: Option<i64>)
    requires Filling(w1, marks) && w2.cut == w1.cut && w2.packets == w1.packets + [data]
    requires w2.buffered.granule == if t.Some? then t.value else w1.buffered.granule
    ensures Filling(w2, marks + [t])
  {
    MarkedLater(w1.cut, marks, t);
    MarkInSnoc(marks, t, Done(w1.cut), |marks| + 1);
  }

  lemma FlushMarked(m: Mux, i: u32, marks: seq<Option<i64>>)
    requires i in m.writers && HoldsPackets(m.writers[i]) && LacingOf(m, i) != [] && Filling(m.writers[i], marks)
    ensures Filling(Flush(m, i, true).writers[i], marks)
  {
    CutMarked(m.writers[i], marks);
    FlushBares(m, i, true);
    K.FlushCuts(m, i, true);
  }

  lemma ContentMarked(m1: Mux, packet: MuxPacket, marks: seq<Option<i64>>, t: Option<i64>)
    requires packet.stream in m1.writers && Filling(m1.writers[packet.stream], marks)
    requires LacingOf(m1, packet.stream) != []
    requires StampFor(m1.writers[packet.stream], packet) == match t case Some(g) => Give(g) case None => Carry
    requires HoldsPackets(Stamped(m1.writers[packet.stream], packet.data, StampLeft(m1.writers[packet.stream], packet)))
    ensures Filling(EndContent(m1, packet).writers[packet.stream], marks + [t])
  {
    var i, w1 := packet.stream, m1.writers[packet.stream];
    var m2 := ContentStamped(m1, packet, StampLeft(w1, packet));
    EndMarked(w1, m2.writers[i], marks, packet.data, t);
    CutOrNot(m2, i, packet.unitBoundary);
    if CutIfDue(m2, i, packet.unitBoundary) != m2 {
      FlushMarked(m2, i, marks + [t]);
    }
  }

  /** A content packet leaves on its stream what it brings. */
  lemma WriteMarked(m: Mux, packet: MuxPacket, w: StreamWriter, marks: seq<Option<i64>>, t: Option<i64>)
    requires m.headerWritten && packet.stream in m.writers && w == m.writers[packet.stream]
    requires HoldsPackets(w) && w.headersRemaining == 0 && Filling(w, marks)
    requires t == match StampFor(w, packet) case Give(g) => Some(g) case Carry => None case Refuse => None
    ensures Filling(WritePacket(m, packet).0.writers[packet.stream], marks + [t])
  {
    var i := packet.stream;
    var m1 := Place(m, i, packet.data);
    var w1 := m1.writers[i];
    PlaceMarked(m, i, packet.data, marks);
    SameStamp(w, w1, packet);
    if StampFor(w1, packet).Refuse? {
      EndMarked(w1, Unstamped(w1, packet), marks, packet.data, None);
    } else {
      var any := (m: Mux) => true;
      Stamps.AnythingIsStable();
      PlaceFills(any, m, i, packet.data, StampLeft(w1, packet));
      ContentMarked(m1, packet, marks, t);
    }
  }

  lemma SameCounted(w: StreamWriter, w': StreamWriter, packet: MuxPacket)
    requires w'.theora == w.theora
    ensures Counted(w', packet).theora == Counted(w, packet).theora
  {
    SameStamp(w, w', packet);
  }

  lemma CutIfDueCounts(m: Mux, i: u32, unitBoundary: bool)
    requires i in m.writers
    ensures CutIfDue(m, i, unitBoundary).writers[i].theora == m.writers[i].theora
  {
    ReleaseMovesOnly(m, i, CutAndQueue(m.writers[i]));
  }

  lemma PlaceCounts(m: Mux, i: u32, data: Packet)
    requires i in m.writers && HoldsPackets(m.writers[i])
    ensures Place(m, i, data).writers[i].theora == m.writers[i].theora
  {
    var any := (m: Mux) => true;
    Stamps.AnythingIsStable();
    PlaceFills(any, m, i, data, 0);
  }

  lemma EndCounts(m1: Mux, packet: MuxPacket, g: i64)
    requires packet.stream in m1.writers
    ensures CutIfDue(ContentStamped(m1, packet, g), packet.stream, packet.unitBoundary).writers[packet.stream].theora
         == Counted(m1.writers[packet.stream], packet).theora
  {
    CutIfDueCounts(ContentStamped(m1, packet, g), packet.stream, packet.unitBoundary);
  }

  lemma WriteCounts(m: Mux, packet: MuxPacket, w: StreamWriter)
    requires m.headerWritten && packet.stream in m.writers && w == m.writers[packet.stream]
    requires HoldsPackets(w) && w.headersRemaining == 0
    ensures WritePacket(m, packet).0.writers[packet.stream].theora == Counted(w, packet).theora
  {
    var m1 := Place(m, packet.stream, packet.data);
    var w1 := m1.writers[packet.stream];
    PlaceCounts(m, packet.stream, packet.data);
    SameCounted(w, w1, packet);
    if !StampFor(w1, packet).Refuse? {
      EndCounts(m1, packet, StampLeft(w1, packet));
    }
  }

  // ----- a stream against the calls -----

  /** The content packets written to stream `i` of the current link, as they were given. */
  function Written(calls: seq<Call>, i: u32): seq<MuxPacket>
  {
    if calls == [] then []
    else
      var front, last := calls[..|calls| - 1], calls[|calls| - 1];
      if last.NewLink? then []
      else Written(front, i) + if last.Write? && last.packet.stream == i then [last.packet] else []
  }

  /** The stream's counters and pages are as the packets written to it make them. */
  predicate Granuled(w: StreamWriter, s: StreamInfo, given: seq<MuxPacket>)
  {
    Counts(w, s, given) && Filling(w, MarksOf(s, given))
  }

  lemma {:induction false} ZeroIn(marks: seq<Option<i64>>, from: nat, to: nat)
    requires to <= |marks| && forall k :: 0 <= k < |marks| ==> marks[k] == Some(0)
    ensures MarkIn(marks, from, to) == if from < to then 0 else -1
  {}

  /** Header pages carry 0, or nothing where no packet ends. */
  lemma {:induction false} ZeroMarked(q: seq<Page>, serial: u32, stamps: seq<i64>, marks: seq<Option<i64>>)
    requires CutPages(q, serial, stamps) && AllZero(stamps) && |marks| == |stamps|
    requires forall k :: 0 <= k < |marks| ==> marks[k] == Some(0)
    ensures Marked(q, marks) && Done(q) <= |marks|
  {
    if q != [] {
      ZeroMarked(q[..|q| - 1], serial, stamps, marks);
      ZeroIn(marks, Done(q[..|q| - 1]), Done(q));
    }
  }

  lemma HeadersGranuled(w: StreamWriter, s: StreamInfo)
    requires HoldsPackets(w) && HeadersAlone(w, s) && Uncounted(s)
    ensures Granuled(w, s, [])
  {
    var marks := MarksOf(s, []);
    K.AllCounted(w);
    assert |w.stamps| == |marks|;
    ZeroMarked(w.cut, w.serial, w.stamps, marks);
    ZeroIn(marks, Done(w.cut), |marks|);
    CountsNone(w, s);
  }

  lemma GranuledWrite(m: Mux, packet: MuxPacket, s: StreamInfo, given: seq<MuxPacket>)
    requires m.headerWritten && packet.stream in m.writers && packet.stream == s.index
    requires HoldsPackets(m.writers[s.index]) && m.writers[s.index].headersRemaining == 0
    requires Granuled(m.writers[s.index], s, given)
    ensures Granuled(WritePacket(m, packet).0.writers[s.index], s, given + [packet])
  {
    var w := m.writers[s.index];
    UnSnoc(given, packet);
    CountsOn(w, s, given, packet);
    WriteMarked(m, packet, w, MarksOf(s, given), MarkOf(s, given + [packet]));
    WriteCounts(m, packet, w);
  }

  /** Writing to another stream changes nothing here. */
  lemma GranuledElsewhere(m: Mux, packet: MuxPacket, s: StreamInfo, given: seq<MuxPacket>)
    requires Running(m) && m.headerWritten && packet.stream in m.writers && s.index in m.writers
    requires packet.stream != s.index && Granuled(m.writers[s.index], s, given)
    ensures s.index in WritePacket(m, packet).0.writers
    ensures Granuled(WritePacket(m, packet).0.writers[s.index], s, given)
  {
    var any := (m: Mux) => true;
    Stamps.AnythingIsStable();
    WriteSeals(any, m, packet);
  }

  // ----- the last granule of a stream -----

  /** The writer knows the last granule on its pages. */
  predicate Recorded(w: StreamWriter) { w.lastGranule == LastKnown(w.cut) }

  ghost function AllRecorded(): Invariant { (m: Mux) => forall i :: i in m.writers ==> Recorded(m.writers[i]) }

  lemma LastKnownSnoc(q: seq<Page>, p: Page)
    ensures LastKnown(q + [p]) == if p.granule >= 0 then p.granule else LastKnown(q)
  {
    UnSnoc(q, p);
  }

  lemma RecordedPop()
    ensures KeptByPop(AllRecorded()) && KeptByRelease(AllRecorded())
  {
    forall m: Mux, i: u32 | AllRecorded()(m) && i in m.writers && m.writers[i].queue != []
      ensures AllRecorded()(Pop(m, i))
    {
      assert Recorded(m.writers[i]);
    }
    forall m: Mux | AllRecorded()(m)
      ensures AllRecorded()(Release(m))
    {
      ReleaseKeeps(AllRecorded(), m);
    }
  }

  lemma RecordedCut()
    ensures KeptByCut(AllRecorded())
  {
    forall m: Mux, i: u32 | AllRecorded()(m) && i in m.writers
      ensures AllRecorded()(With(m, i, CutAndQueue(m.writers[i])))
    {
      assert Recorded(m.writers[i]);
      LastKnownSnoc(m.writers[i].cut, PageOut(m.writers[i]));
    }
  }

  lemma RecordedUpdate()
    ensures KeptByUpdate(AllRecorded()) && KeptByFlag(AllRecorded())
  {
    forall m: Mux, i: u32, w: StreamWriter | AllRecorded()(m) && i in m.writers && SamePages(m.writers[i], w)
      ensures AllRecorded()(With(m, i, w))
    {
      assert Recorded(m.writers[i]);
    }
    forall m: Mux, b: bool {:trigger m.(contentStarted := b)} | AllRecorded()(m)
      ensures AllRecorded()(m.(contentStarted := b))
    {}
  }

  lemma RecordedEndures()
    ensures Enduring(AllRecorded()) && KeptByTarget(AllRecorded())
  {
    RecordedPop();
    RecordedCut();
    RecordedUpdate();
    forall m: Mux, t: Option<nat> {:trigger m.(pageTarget := t)} | AllRecorded()(m)
      ensures AllRecorded()(m.(pageTarget := t))
    {}
  }

  lemma BornRecorded(infos: seq<StreamInfo>, calls: seq<Call>)
    requires WellUsed(infos, calls) && |infos| < TWO32
    ensures AllRecorded()(Birth(infos, calls))
  {
    var m := Birth(infos, calls);
    BornNew(infos, calls);
    forall i | i in m.writers
      ensures Recorded(m.writers[i])
    {
      var s :| s in InfosAt(infos, calls) && s.index == i;
      assert Newborn(m.writers[i], s);
      LastKnownSnoc([], m.writers[i].cut[0]);
    }
  }

  /** At every moment every writer knows its last granule. */
  lemma RunRecorded(infos: seq<StreamInfo>, calls: seq<Call>)
    requires WellUsed(infos, calls) && |infos| < TWO32
    ensures AllRecorded()(Muxing.After(infos, calls))
  {
    RecordedEndures();
    BornRecorded(infos, calls);
    StartKeeps(AllRecorded(), infos, calls);
    SinceLinkStart(AllRecorded(), infos, calls);
  }

  // ----- the end of a stream -----

  lemma MarkedCutOff(w: StreamWriter, marks: seq<Option<i64>>)
    requires Filling(w, marks) && HoldsPackets(w)
    ensures Marked(K.CutOff(w), marks) && Done(K.CutOff(w)) == |marks|
  {
    if w.buffered.lacing == [] {
      K.AllCounted(w);
    } else {
      CutMarked(w, marks);
    }
  }

  lemma CutOffFull(w: StreamWriter)
    requires HoldsPackets(w)
    ensures forall n :: 0 <= n < |K.CutOff(w)| ==> K.CutOff(w)[n].lacing != []
  {
    CutBasics(w.cut, w.serial, w.stamps);
  }

  lemma {:induction false} FullCarriesDue(q: seq<Page>, marks: seq<Option<i64>>, n: nat)
    requires Marked(q, marks) && n < |q| && q[n].lacing != []
    ensures CarriesDue(q, marks, n)
  {
    MarkAt(q, marks, n);
  }

  lemma DueMarked(q: seq<Page>, marks: seq<Option<i64>>, n: nat)
    requires n < |q| && CarriesDue(q, marks, n)
    ensures |WithEos(q)| == |q| && CarriesDue(WithEos(q), marks, n)
  {
    var r := WithEos(q);
    assert r[..n] == q[..n] && r[n].lacing == q[n].lacing && r[n].granule == q[n].granule;
    if n < |q| - 1 {
      assert r[..n + 1] == q[..n + 1];
    } else {
      assert r[..n + 1] == r && q[..n + 1] == q;
      KeyNotes.MarkedDone(q);
    }
  }

  lemma WholeMarked(q: seq<Page>, marks: seq<Option<i64>>)
    requires Marked(q, marks) && Done(q) == |marks| && forall n :: 0 <= n < |q| ==> q[n].lacing != []
    ensures AllMarked(q, marks) && AllMarked(WithEos(q), marks)
  {
    forall n | 0 <= n < |q|
      ensures CarriesDue(q, marks, n) && |WithEos(q)| == |q| && CarriesDue(WithEos(q), marks, n)
    {
      FullCarriesDue(q, marks, n);
      DueMarked(q, marks, n);
    }
    KeyNotes.MarkedDone(q);
  }

  lemma NilCarriesDue(q: seq<Page>, p: Page, marks: seq<Option<i64>>)
    requires AllMarked(q, marks) && p.lacing == [] && p.granule == LastKnown(q)
    ensures AllMarked(q + [p], marks)
  {
    var r := q + [p];
    DoneSnoc(q, p);
    forall n | 0 <= n < |r|
      ensures CarriesDue(r, marks, n)
    {
      assert r[..n] == q[..n];
      if n < |q| {
        assert CarriesDue(q, marks, n) && r[..n + 1] == q[..n + 1];
      } else {
        assert q[..n] == q && r[..n + 1] == r;
      }
    }
  }

  lemma EndedCarriesDue(w: StreamWriter, d: StreamWriter, marks: seq<Option<i64>>)
    requires Filling(w, marks) && HoldsPackets(w) && Recorded(w) && K.Ended(w, d)
    ensures AllMarked(d.cut, marks)
  {
    var q := K.CutOff(w);
    MarkedCutOff(w, marks);
    CutOffFull(w);
    WholeMarked(q, marks);
    if d.cut != WithEos(q) {
      if w.buffered.lacing != [] {
        LastKnownSnoc(w.cut, PageOut(w));
      }
      SplitLast(d.cut);
      NilCarriesDue(q, d.cut[|q|], marks);
    }
  }

  // ----- whole runs -----

  /** The packers of all links have counted no frame yet. */
  predicate AllUncounted(infos: seq<StreamInfo>, calls: seq<Call>)
  {
    && (forall s :: s in infos ==> Uncounted(s))
    && forall c :: c in calls && c.NewLink? ==> forall s :: s in c.infos ==> Uncounted(s)
  }

  /** A stream and the content packets it was given. */
  datatype Fed = Fed(info: StreamInfo, given: seq<MuxPacket>)

  function LinkFeeds(infos: seq<StreamInfo>, calls: seq<Call>): (r: seq<Fed>)
    ensures |r| == |infos| && forall k :: 0 <= k < |r| ==> r[k] == Fed(infos[k], Written(calls, infos[k].index))
  {
    seq(|infos|, k requires 0 <= k < |infos| => Fed(infos[k], Written(calls, infos[k].index)))
  }

  function PastFeeds(infos: seq<StreamInfo>, calls: seq<Call>): seq<Fed>
  {
    if calls == [] then []
    else
      var front, last := calls[..|calls| - 1], calls[|calls| - 1];
      PastFeeds(infos, front) + if last.NewLink? then LinkFeeds(InfosAt(infos, front), front) else []
  }

  /** Every stream of every link, in the order they were declared. */
  function AllFeeds(infos: seq<StreamInfo>, calls: seq<Call>): seq<Fed>
  {
    PastFeeds(infos, calls) + LinkFeeds(InfosAt(infos, calls), calls)
  }

  predicate CarriesFed(w: StreamWriter, f: Fed) { AllMarked(w.cut, MarksOf(f.info, f.given)) }

  predicate AllCarryFed(ws: seq<StreamWriter>, fs: seq<Fed>)
  {
    |ws| == |fs| && forall k :: 0 <= k < |ws| ==> CarriesFed(ws[k], fs[k])
  }

  predicate CurrentGranuled(m: Mux, calls: seq<Call>)
  {
    forall s :: s in m.infos ==> s.index in m.writers && Granuled(m.writers[s.index], s, Written(calls, s.index))
  }

  lemma BegunGranuled(m: Mux, calls: seq<Call>)
    requires Running(m) && HeadersOnly(m) && (forall s :: s in m.infos ==> Uncounted(s))
    requires calls == [] || calls[|calls| - 1].NewLink?
    ensures CurrentGranuled(m, calls)
  {
    forall s | s in m.infos
      ensures s.index in m.writers && Granuled(m.writers[s.index], s, Written(calls, s.index))
    {
      assert HeadersAlone(m.writers[s.index], s);
      HeadersGranuled(m.writers[s.index], s);
    }
  }

  lemma WrittenSnoc(calls: seq<Call>, call: Call, i: u32)
    requires !call.NewLink?
    ensures Written(calls + [call], i)
         == if call.Write? && call.packet.stream == i then Written(calls, i) + [call.packet] else Written(calls, i)
  {
    UnSnoc(calls, call);
    PlusNil(Written(calls, i));
  }

  lemma CallGranuled(m: Mux, call: Call, calls: seq<Call>, s: StreamInfo)
    requires Running(m) && s in m.infos && s.index in m.writers && !call.NewLink?
    requires Granuled(m.writers[s.index], s, Written(calls, s.index))
    ensures s.index in Apply(m, call).writers
    ensures Granuled(Apply(m, call).writers[s.index], s, Written(calls + [call], s.index))
  {
    WrittenSnoc(calls, call, s.index);
    if call.Write? && m.headerWritten && call.packet.stream in m.writers {
      if call.packet.stream == s.index {
        Stamps.HeadersAreIn(m, s.index);
        GranuledWrite(m, call.packet, s, Written(calls, s.index));
      } else {
        GranuledElsewhere(m, call.packet, s, Written(calls, s.index));
      }
    }
  }

  /** At every moment of a run each page of the current link, and each being filled, carries what it should. */
  lemma {:induction false} RunGranuled(infos: seq<StreamInfo>, calls: seq<Call>)
    requires WellUsed(infos, calls) && |infos| < TWO32 && AllUncounted(infos, calls)
    ensures CurrentGranuled(Muxing.After(infos, calls), calls)
    decreases |calls|
  {
    if calls == [] {
      OpenRuns(infos);
      BegunGranuled(Muxing.Opened(infos), []);
    } else {
      var front, call := calls[..|calls| - 1], calls[|calls| - 1];
      var m := Muxing.After(infos, front);
      SplitLast(calls);
      RunHolds(infos, front);
      if call.NewLink? {
        LinkRuns(m, call.infos, FinishLink(m));
        BegunGranuled(Muxing.After(infos, calls), calls);
      } else {
        assert forall c :: c in front ==> c in calls;
        RunGranuled(infos, front);
        RunKeepsInfos(m, call);
        forall s | s in m.infos
          ensures s.index in Apply(m, call).writers
          ensures Granuled(Apply(m, call).writers[s.index], s, Written(calls, s.index))
        {
          CallGranuled(m, call, front, s);
        }
      }
    }
  }

  lemma RunKeepsInfos(m: Mux, call: Call)
    requires Running(m) && !call.NewLink?
    ensures Apply(m, call).infos == m.infos
  {
    if call.Write? && m.headerWritten && call.packet.stream in m.writers {
      WriteRuns(m, call.packet);
    }
  }

  // ----- the end of a link -----

  lemma StreamCarriesFed(infos: seq<StreamInfo>, calls: seq<Call>, m: Mux, d: Mux, s: StreamInfo)
    requires WellUsed(infos, calls) && |infos| < TWO32 && AllUncounted(infos, calls) && s in m.infos
    requires m == Muxing.After(infos, calls) && d == FinishLink(m)
    ensures s.index in d.writers && CarriesFed(d.writers[s.index], Fed(s, Written(calls, s.index)))
  {
    RunGranuled(infos, calls);
    RunRecorded(infos, calls);
    RunHolds(infos, calls);
    K.FinishEnds(m, d, s.index);
    assert Recorded(m.writers[s.index]);
    EndedCarriesDue(m.writers[s.index], d.writers[s.index], MarksOf(s, Written(calls, s.index)));
  }

  lemma FinishedOrder(m: Mux, d: Mux)
    requires Running(m) && d == FinishLink(m)
    ensures d.past == m.past && d.order == m.order == Indices(m.infos)
  {
    TrailerFinishes(m);
  }

  lemma WritersCarryFed(d: Mux, infos: seq<StreamInfo>, feeds: seq<Fed>)
    requires d.order == Indices(infos) && |feeds| == |infos|
    requires forall k :: 0 <= k < |infos| ==>
               infos[k].index in d.writers && CarriesFed(d.writers[infos[k].index], feeds[k])
    ensures AllCarryFed(WritersOf(d.writers, d.order), feeds)
  {
    WritersAre(d.writers, d.order);
  }

  lemma LinkCarriesFed(infos: seq<StreamInfo>, calls: seq<Call>, m: Mux, d: Mux)
    requires WellUsed(infos, calls) && |infos| < TWO32 && AllUncounted(infos, calls)
    requires m == Muxing.After(infos, calls) && d == FinishLink(m)
    ensures m.infos == InfosAt(infos, calls) && d.past == m.past && d.order == m.order
    ensures AllCarryFed(WritersOf(d.writers, d.order), LinkFeeds(m.infos, calls))
  {
    RunHolds(infos, calls);
    FinishedOrder(m, d);
    forall k | 0 <= k < |m.infos|
      ensures m.infos[k].index in d.writers
      ensures CarriesFed(d.writers[m.infos[k].index], LinkFeeds(m.infos, calls)[k])
    {
      StreamCarriesFed(infos, calls, m, d, m.infos[k]);
    }
    WritersCarryFed(d, m.infos, LinkFeeds(m.infos, calls));
  }

  lemma CarryConcat(a: seq<StreamWriter>, x: seq<Fed>, b: seq<StreamWriter>, y: seq<Fed>)
    requires AllCarryFed(a, x) && AllCarryFed(b, y)
    ensures AllCarryFed(a + b, x + y)
  {}

  lemma LinkAside(m: Mux, next: seq<StreamInfo>, d: Mux)
    requires Running(m) && UsableCall(m, NewLink(next)) && d == FinishLink(m)
    ensures BeginLink(m, next).past == m.past + WritersOf(d.writers, m.order)
  {
    LinkRuns(m, next, d);
  }

  lemma PastStays(m: Mux, call: Call)
    requires Running(m) && !call.NewLink?
    ensures Apply(m, call).past == m.past
  {
    if call.Write? && m.headerWritten && call.packet.stream in m.writers {
      WriteRuns(m, call.packet);
    }
  }

  lemma {:induction false} PastCarriesFed(infos: seq<StreamInfo>, calls: seq<Call>)
    requires WellUsed(infos, calls) && |infos| < TWO32 && AllUncounted(infos, calls)
    ensures AllCarryFed(Muxing.After(infos, calls).past, PastFeeds(infos, calls))
    decreases |calls|
  {
    if calls == [] {
      OpenRuns(infos);
    } else {
      var front, call := calls[..|calls| - 1], calls[|calls| - 1];
      var m := Muxing.After(infos, front);
      assert forall c :: c in front ==> c in calls;
      RunHolds(infos, front);
      PastCarriesFed(infos, front);
      if call.NewLink? {
        var d := FinishLink(m);
        LinkCarriesFed(infos, front, m, d);
        LinkAside(m, call.infos, d);
        CarryConcat(m.past, PastFeeds(infos, front), WritersOf(d.writers, m.order), LinkFeeds(m.infos, front));
      } else {
        PastStays(m, call);
        PlusNil(PastFeeds(infos, front));
      }
    }
  }

  /**
   The granules of a finished file, from the calls alone: on every stream of every link each page carries
   what the last packet to end on it that brought a granule brought - its time, its packed frame number,
   or 0 for a header - and -1 if there was none; a page put in to end the stream repeats the last granule.
   */
  lemma EveryPageCarriesItsMark(infos: seq<StreamInfo>, calls: seq<Call>, d: Mux)
    requires WellUsed(infos, calls) && |infos| < TWO32 && AllUncounted(infos, calls)
    requires d == FinishLink(Muxing.After(infos, calls))
    ensures AllCarryFed(AllWriters(d), AllFeeds(infos, calls))
    ensures forall k :: 0 <= k < |AllWriters(d)| ==> Proj(d.wire, AllWriters(d)[k].serial) == AllWriters(d)[k].cut
  {
    var m := Muxing.After(infos, calls);
    LinkCarriesFed(infos, calls, m, d);
    PastCarriesFed(infos, calls);
    CarryConcat(d.past, PastFeeds(infos, calls), WritersOf(d.writers, d.order), LinkFeeds(m.infos, calls));
    StreamsOnWire(infos, calls, d);
    forall k | 0 <= k < |AllWriters(d)|
      ensures Proj(d.wire, AllWriters(d)[k].serial) == AllWriters(d)[k].cut
    {
      assert Kept(d.wire, d.used, AllWriters(d)[k]);
    }
  }
}
