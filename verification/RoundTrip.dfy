/** Muxer to demuxer: every run read back gives each stream its headers and its packets, and no damage. */
module RoundTrip {
  import opened Bytes
  import opened Pages
  import opened Segments
  import opened Grammar
  import opened Muxing
  import opened MuxWire
  import opened MuxRuns
  import opened MuxTheorems
  import R = Reassembly
  import Framing
  import Views
  import Demux
  import S = MuxSchedule
  import MuxHistory
  import Stamps = MuxStamps

  // ----- one stream of a tidy wire -----

  /** Pages that follow each other without a break and leave no packet to a page without segments. */
  predicate Readable(q: seq<Page>)
  {
    Unbroken(q) && Framing.OneSerial(q) && AllWellFormed(q) && Views.NoNilContinued(q) && q != [] && q[0].lacing != []
  }

  lemma NeatPages(wire: seq<Page>, q: seq<Page>)
    requires AllNeat(wire) && forall i :: 0 <= i < |q| ==> q[i] in wire
    ensures AllWellFormed(q) && Views.NoNilContinued(q) && forall i :: 0 <= i < |q| ==> Neat(q[i])
  {
    forall i | 0 <= i < |q|
      ensures Neat(q[i])
    {
      var k :| 0 <= k < |wire| && wire[k] == q[i];
    }
    forall i | 0 <= i < |q|
      ensures !Views.NilContinued(q[i])
    {
      Views.SegsOfWellFormed(q[i]);
    }
  }

  lemma NeatProjection(wire: seq<Page>, s: u32)
    requires Orderly(wire) && AllNeat(wire) && Proj(wire, s) != []
    ensures Readable(Proj(wire, s))
  {
    var q := Proj(wire, s);
    ProjSerial(wire, s);
    OrderlyProjections(wire, s);
    NeatPages(wire, q);
    UnbrokenAt(q, 0);
    assert q[..0] == [];
  }

  /** Such pages read back as the strict assembler reads them, with no damage counted. */
  lemma ReadableIsRead(q: seq<Page>)
    requires Readable(q)
    ensures Views.Tolerates(R.RunOf(q), q) && IsFirst(q[0]) && PageSegs(q[0]) != []
  {
    Views.SegsOfWellFormed(q[0]);
    Views.UnbrokenIsConsecutive(q);
    Views.SeenAlike(q);
    Views.WholeRun(q);
  }

  lemma StreamIsQuiet(wire: seq<Page>, s: u32)
    requires Orderly(wire) && AllNeat(wire)
    ensures Demux.Quiet(R.RunOf(Proj(wire, s)))
  {
    if Proj(wire, s) != [] {
      NeatProjection(wire, s);
      ReadableIsRead(Proj(wire, s));
    }
  }

  /** A tidy wire demuxes without a hole, a framing error or a repeated serial. */
  lemma NoDamageSeen(headersOf: Demux.HeaderCount, wire: seq<Page>)
    requires Orderly(wire) && AllNeat(wire)
    ensures var d := Demux.ProcessAll(headersOf, wire); d.holes == d.framingErrors == d.duplicates == 0
  {
    forall s
      ensures Demux.Quiet(R.RunOf(Proj(wire, s)))
    {
      StreamIsQuiet(wire, s);
    }
    Demux.QuietRun(headersOf, wire);
  }

  // ----- the header packets -----

  lemma {:induction false} SegsFromFirst(q: seq<Page>) returns (rest: seq<Segment>)
    requires q != []
    ensures AllSegs(q) == PageSegs(q[0]) + rest
  {
    if |q| == 1 {
      rest := [];
      assert q[..0] == [];
      PlusNil(PageSegs(q[0]));
    } else {
      var front, last := q[..|q| - 1], q[|q| - 1];
      var r := SegsFromFirst(front);
      rest := r + PageSegs(last);
      Assoc(PageSegs(q[0]), r, PageSegs(last));
    }
  }

  /** If the first page completes a packet, that packet is the stream's first. */
  lemma FirstPacketIs(q: seq<Page>, packets: seq<Packet>)
    requires q != [] && WellFormed(q[0]) && Completes(q[0].lacing) && AllSegs(q) == AllPacketSegs(packets)
    ensures packets != [] && Demux.FirstFragment(q[0]) == packets[0]
  {
    var rest := SegsFromFirst(q);
    var first := Feed(FRESH, PageSegs(q[0]));
    FeedAllPackets(packets);
    FeedConcat(FRESH, PageSegs(q[0]), rest);
    FeedCounts(first, rest);
    FeedCounts(FRESH, PageSegs(q[0]));
    ShortIsCompleted(q[0].lacing, PageSegs(q[0]));
  }

  /** The header count of a stream is read off its first page and never again. */
  lemma {:induction false} TotalIsFirst(headersOf: Demux.HeaderCount, q: seq<Page>)
    requires q != [] && IsFirst(q[0]) && PageSegs(q[0]) != []
    ensures Demux.HeaderTotal(headersOf, q) == headersOf(Demux.FirstFragment(q[0])) && R.RunOf(q).known.Some?
  {
    var front := q[..|q| - 1];
    if front != [] {
      TotalIsFirst(headersOf, front);
    }
  }

  // ----- a stream read back -----

  lemma PacketsReadBack(q: seq<Page>, packets: seq<Packet>)
    requires Readable(q) && AllSegs(q) == AllPacketSegs(packets)
    ensures R.RunOf(q).packets == packets && Demux.Quiet(R.RunOf(q))
  {
    ReadableIsRead(q);
    FeedAllPackets(packets);
  }

  lemma CountReadBack(headersOf: Demux.HeaderCount, q: seq<Page>, packets: seq<Packet>)
    requires Readable(q) && Completes(q[0].lacing) && AllSegs(q) == AllPacketSegs(packets)
    ensures packets != [] && Demux.HeaderTotal(headersOf, q) == headersOf(packets[0])
    ensures R.RunOf(q).known.Some?
  {
    FirstPacketIs(q, packets);
    ReadableIsRead(q);
    TotalIsFirst(headersOf, q);
  }

  lemma SplitAtHeaders(headers: seq<Packet>, given: seq<Packet>)
    ensures Min(|headers|, |headers + given|) == |headers|
    ensures (headers + given)[..|headers|] == headers && (headers + given)[|headers|..] == given
  {}

  /** Process the whole wire: one stream of it gets back its headers, then its packets, byte for byte. */
  lemma StreamReadsBack(headersOf: Demux.HeaderCount, wire: seq<Page>, used: set<u32>, w: StreamWriter, c: Content)
    requires Orderly(wire) && AllNeat(wire) && Kept(wire, used, w) && Has(w, c)
    requires c.headers != [] && headersOf(c.headers[0]) == |c.headers|
    ensures var d := Demux.ProcessAll(headersOf, wire);
            && w.serial in d.streams
            && d.streams[w.serial].headerPackets == c.headers && d.streams[w.serial].headersRemaining == 0
            && Demux.DataOf(d.out, w.serial) == c.given
  {
    var q := w.cut;
    NeatProjection(wire, w.serial);
    PacketsReadBack(q, w.packets);
    CountReadBack(headersOf, q, w.packets);
    Demux.RunMirrors(headersOf, wire, w.serial);
    SplitAtHeaders(c.headers, c.given);
  }

  // ----- every run -----

  lemma FinalIsTidy(infos: seq<StreamInfo>, calls: seq<Call>, m: Mux, d: Mux)
    requires WellUsed(infos, calls) && |infos| < TWO32 && m == After(infos, calls) && d == FinishLink(m)
    ensures Tidy(d.wire, LinksOf(m), StreamsOf(m)) && LinksOf(m) <= TWO32
    ensures d.linkIndex == m.linkIndex == NewLinks(calls)
  {
    RunHolds(infos, calls);
    TrailerFinishes(m);
    FinishedIsTidy(m, d);
    LinkCountFits(m);
  }

  lemma FinalStream(infos: seq<StreamInfo>, calls: seq<Call>, d: Mux, k: nat, w: StreamWriter, c: Content)
    requires WellUsed(infos, calls) && |infos| < TWO32 && d == FinishLink(After(infos, calls))
    requires k < |AllContents(infos, calls)| && k < |AllWriters(d)| && w == AllWriters(d)[k]
    requires c == AllContents(infos, calls)[k]
    ensures Kept(d.wire, d.used, w) && Has(w, c)
  {
    StreamsOnWire(infos, calls, d);
  }

  /**
   Mux, then demux: stream `k` of the run comes back whole under its serial, its header packets as
   headers and its content packets, unchanged and in order, as data.
   */
  lemma EveryRunRoundTrips(headersOf: Demux.HeaderCount, infos: seq<StreamInfo>, calls: seq<Call>, d: Mux, k: nat,
          w: StreamWriter, c: Content)
    requires WellUsed(infos, calls) && |infos| < TWO32 && d == FinishLink(After(infos, calls))
    requires k < |AllContents(infos, calls)| && k < |AllWriters(d)| && w == AllWriters(d)[k]
    requires c == AllContents(infos, calls)[k]
    requires c.headers != [] && headersOf(c.headers[0]) == |c.headers|
    ensures var r := Demux.ProcessAll(headersOf, d.wire);
            && w.serial in r.streams && r.streams[w.serial].headerPackets == c.headers
            && Demux.DataOf(r.out, w.serial) == c.given
  {
    FinalIsTidy(infos, calls, After(infos, calls), d);
    FinalStream(infos, calls, d, k, w, c);
    StreamReadsBack(headersOf, d.wire, d.used, w, c);
  }

  lemma OneContent(infos: seq<StreamInfo>, calls: seq<Call>, s: StreamInfo, c: Content)
    requires infos == [s] && |calls| == 1 && calls[0].Write? && InfosAt(infos, calls) == infos
    requires c == Content(s.headers, Given(calls, s.index))
    ensures AllContents(infos, calls) == [c]
  {
    assert calls[..|calls| - 1] == [];
    assert PastContents(infos, []) == [];
    assert PastContents(infos, calls) == [];
    assert LinkContents(infos, calls) == [c];
  }

  lemma OneStream(infos: seq<StreamInfo>, calls: seq<Call>, d: Mux, c: Content)
    requires WellUsed(infos, calls) && |infos| < TWO32 && d == FinishLink(After(infos, calls))
    requires AllContents(infos, calls) == [c]
    ensures |AllWriters(d)| == 1
  {
    StreamsOnWire(infos, calls, d);
  }

  /** A packet `write_packet` refused reaches the reader: frame 64 over a six-bit offset, its one byte intact. */
  lemma RefusedIsReadBack(headersOf: Demux.HeaderCount, infos: seq<StreamInfo>, calls: seq<Call>, d: Mux, c: Content)
    requires infos == [Stamps.REFUSING] && calls == [Write(Stamps.TOO_FAR)] && d == FinishLink(After(infos, calls))
    requires headersOf(Stamps.REFUSING.headers[0]) == 3 && c == Content(Stamps.REFUSING.headers, [[1]])
    ensures |AllWriters(d)| == 1 && !WritePacket(Opened(infos), Stamps.TOO_FAR).1
    ensures Demux.DataOf(Demux.ProcessAll(headersOf, d.wire).out, AllWriters(d)[0].serial) == [[1]]
  {
    Stamps.RefusingRun(infos, calls, Opened(infos));
    OneContent(infos, calls, Stamps.REFUSING, c);
    OneStream(infos, calls, d, c);
    EveryRunRoundTrips(headersOf, infos, calls, d, 0, AllWriters(d)[0], c);
  }

  /** The whole of a finished file reads back without damage, in the links it was written in. */
  lemma EveryRunReadsClean(headersOf: Demux.HeaderCount, infos: seq<StreamInfo>, calls: seq<Call>, d: Mux)
    requires WellUsed(infos, calls) && |infos| < TWO32 && d == FinishLink(After(infos, calls))
    ensures var r := Demux.ProcessAll(headersOf, d.wire);
            r.holes == r.framingErrors == r.duplicates == 0 && r.nextLink == d.linkIndex == NewLinks(calls)
  {
    FinalIsTidy(infos, calls, After(infos, calls), d);
    NoDamageSeen(headersOf, d.wire);
    Demux.LinksAgree(headersOf, d.wire);
  }

  lemma LinkCountFits(m: Mux)
    requires Running(m)
    ensures LinksOf(m) <= TWO32
  {}

  /** Serials given out over a whole run, links included, are pairwise distinct. */
  lemma EverySerialIsUnique(infos: seq<StreamInfo>, calls: seq<Call>, d: Mux)
    requires WellUsed(infos, calls) && |infos| < TWO32 && d == FinishLink(After(infos, calls))
    ensures DistinctSerials(AllWriters(d))
  {
    var m := After(infos, calls);
    RunHolds(infos, calls);
    TrailerFinishes(m);
    LinkKept(m, d);
    SerialsApart(d, d.order);
  }

  /**
   The release order: at every moment of a run, and when a link is finished, the wire is what the
   link's header section left followed by the data pages released since, in non-decreasing time.
   */
  lemma EveryRunIsOrdered(infos: seq<StreamInfo>, calls: seq<Call>, m: Mux, d: Mux, base: seq<Page>)
    requires WellUsed(infos, calls) && |infos| < TWO32 && m == After(infos, calls) && d == FinishLink(m)
    requires base == MuxHistory.LinkStart(infos, calls).wire
    ensures S.Ascending(m.released) && m.wire == base + PagesOf(m.released)
    ensures S.Ascending(d.released) && d.wire == base + PagesOf(d.released)
  {
    RunHolds(infos, calls);
    FinishRuns(m);
    MuxHistory.WireGrows(infos, calls, m, base);
  }

  /**
   No page lost, none repeated, none out of turn: at every moment a stream's pages are those on the
   wire followed by those queued; once finished they are all on the wire, EOS on exactly the last.
   */
  lemma EveryPageInTurn(infos: seq<StreamInfo>, calls: seq<Call>, d: Mux, i: u32)
    requires WellUsed(infos, calls) && |infos| < TWO32 && d == FinishLink(After(infos, calls))
    requires i in After(infos, calls).writers
    ensures var w := After(infos, calls).writers[i];
            Proj(After(infos, calls).wire, w.serial) + PagesOf(w.queue) == w.cut
    ensures i in d.writers && var q := Proj(d.wire, d.writers[i].serial);
            q == d.writers[i].cut && q != [] && forall k :: 0 <= k < |q| ==> (IsLast(q[k]) <==> k == |q| - 1)
  {
    RunHolds(infos, calls);
    FinalIsTidy(infos, calls, After(infos, calls), d);
    FinishRuns(After(infos, calls));
    NeatProjection(d.wire, d.writers[i].serial);
    OnlyLastEnds(Proj(d.wire, d.writers[i].serial));
  }

  /** In an unbroken run that has ended, only the last page ends it. */
  lemma {:induction false} OnlyLastEnds(q: seq<Page>)
    requires Unbroken(q) && Closed(q)
    ensures forall k :: 0 <= k < |q| ==> (IsLast(q[k]) <==> k == |q| - 1)
  {
    forall k | 0 <= k < |q| - 1
      ensures !IsLast(q[k])
    {
      UnbrokenAt(q, k + 1);
      assert q[..k + 1][k] == q[k];
    }
  }
}
