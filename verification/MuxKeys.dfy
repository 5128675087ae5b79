/** Which keyframe each page of a muxer run is noted with, and whether that keyframe begins there. */
module MuxKeys {
  import opened Bytes
  import opened Pages
  import opened Segments
  import opened Paging
  import opened KeyNotes
  import opened Muxing
  import opened MuxFill
  import opened MuxSteps
  import opened MuxClose
  import opened MuxLinks
  import opened MuxRuns
  import opened MuxTheorems
  import Stamps = MuxStamps
  import MuxWire
  import Theora

  // ----- the pages cut while a packet is laid out -----

  /** A full page on which no packet ends. */
  predicate Middle(p: Page) { |p.lacing| == 255 && CompletedCount(p.lacing) == 0 }

  predicate AllMiddle(q: seq<Page>) { forall k :: 0 <= k < |q| ==> Middle(q[k]) }

  lemma FlushCuts(m: Mux, i: u32, force: bool)
    requires i in m.writers && LacingOf(m, i) != []
    ensures var w, w' := m.writers[i], Flush(m, i, force).writers[i];
            w'.cut == w.cut + [PageOut(w)] && w'.buffered.lacing == [] && w'.packets == w.packets
  {
    ReleaseMovesOnly(m, i, CutAndQueue(m.writers[i]));
  }

  lemma ChunkCuts(m: Mux, i: u32, lacing: seq<byte>, data: seq<byte>) returns (p: Page)
    requires i in m.writers && LacingOf(m, i) == [] && |lacing| == 255 && CompletedCount(lacing) == 0
    ensures var m' := Flush(AppendAt(m, i, lacing, data), i, false);
            i in m'.writers && m'.writers[i].cut == m.writers[i].cut + [p] && Middle(p) && LacingOf(m', i) == []
  {
    var m1 := AppendAt(m, i, lacing, data);
    p := PageOut(m1.writers[i]);
    assert LacingOf(m, i) + lacing == lacing;
    FlushCuts(m1, i, false);
  }

  /** From `m` to `m'` the pages `more` were cut on stream `i`. */
  predicate HasCut(m: Mux, m': Mux, i: u32, more: seq<Page>)
  {
    i in m.writers && i in m'.writers && m'.writers[i].cut == m.writers[i].cut + more
  }

  lemma CutThen(m: Mux, m1: Mux, m2: Mux, i: u32, p: Page, rest: seq<Page>)
    requires HasCut(m, m1, i, [p]) && HasCut(m1, m2, i, rest)
    ensures HasCut(m, m2, i, [p] + rest)
  {
    Assoc(m.writers[i].cut, [p], rest);
  }

  lemma {:induction false} SpanCuts(m: Mux, i: u32, lacing: seq<byte>, data: seq<byte>) returns (more: seq<Page>)
    requires i in m.writers && PacketTail(lacing) && |data| == Sum(lacing)
    requires |lacing| > 255 ==> LacingOf(m, i) == []
    ensures HasCut(m, SpanOpen(m, i, lacing, data).0, i, more)
    ensures AllMiddle(more) && (more == [] <==> |lacing| <= 255)
    decreases |lacing|, 0
  {
    if |lacing| <= 255 {
      more := [];
      PlusNil(m.writers[i].cut);
    } else {
      var n := Sum(lacing[..255]);
      ChunkOff(lacing, data, n);
      var l, d := lacing[255..], data[n..];
      SpanUnfolds(m, i, lacing, data, n);
      var p := ChunkCuts(m, i, lacing[..255], data[..n]);
      var m1 := Flush(AppendAt(m, i, lacing[..255], data[..n]), i, false);
      more := SpanAfter(m, m1, i, p, l, d);
    }
  }

  lemma {:induction false} SpanAfter(m: Mux, m1: Mux, i: u32, p: Page, lacing: seq<byte>, data: seq<byte>)
    returns (more: seq<Page>)
    requires HasCut(m, m1, i, [p]) && Middle(p) && LacingOf(m1, i) == [] && PacketTail(lacing) && |data| == Sum(lacing)
    ensures HasCut(m, SpanOpen(m1, i, lacing, data).0, i, more) && AllMiddle(more) && more != []
    decreases |lacing|, 1
  {
    var rest := SpanCuts(m1, i, lacing, data);
    more := [p] + rest;
    CutThen(m, m1, SpanOpen(m1, i, lacing, data).0, i, p, rest);
  }

  /** A page is cut to make room, then one for each 255 segments of a packet too long for a page. */
  lemma PlaceCuts(m: Mux, i: u32, data: Packet) returns (room: seq<Page>, more: seq<Page>)
    requires i in m.writers
    ensures var w := m.writers[i];
            && Place(m, i, data).writers[i].cut == w.cut + room + more && AllMiddle(more)
            && (room == [] || (room == [PageOut(w)] && w.buffered.lacing != []))
            && (more == [] <==> |data| < TOO_LONG)
            && (room == [] && more != [] ==> w.buffered.lacing == [])
  {
    var n := |data| / 255 + 1;
    TailOfLace(|data|);
    var m1 := MakeRoom(m, i, n);
    if |LacingOf(m, i)| + n > 255 && LacingOf(m, i) != [] {
      room := [PageOut(m.writers[i])];
      FlushCuts(m, i, false);
    } else {
      room := [];
      PlusNil(m.writers[i].cut);
    }
    more := SpanCuts(m1, i, Lace(|data|), data);
  }

  // ----- counting packets -----

  lemma {:induction false} ShortConcat(a: seq<Segment>, b: seq<Segment>)
    ensures ShortCount(a + b) == ShortCount(a) + ShortCount(b)
  {
    if b == [] {
      PlusNil(a);
    } else {
      ConcatFront(a, b);
      ShortConcat(a, b[..|b| - 1]);
    }
  }

  lemma {:induction false} DoneIsShort(q: seq<Page>)
    requires AllWellFormed(q)
    ensures ShortCount(AllSegs(q)) == Done(q)
  {
    if q != [] {
      var front, p := q[..|q| - 1], q[|q| - 1];
      DoneIsShort(front);
      ShortConcat(AllSegs(front), PageSegs(p));
      ShortIsCompleted(p.lacing, PageSegs(p));
    }
  }

  lemma PacketsAreShort(packets: seq<Packet>)
    ensures ShortCount(AllPacketSegs(packets)) == |packets|
  {
    FeedAllPackets(packets);
    FeedCounts(FRESH, AllPacketSegs(packets));
  }

  /** Every packet has ended on a page cut or on the one being filled. */
  lemma AllCounted(w: StreamWriter)
    requires HoldsPackets(w)
    ensures Done(w.cut) + CompletedCount(w.buffered.lacing) == |w.packets| && AllWellFormed(w.cut)
    ensures AllPacketSegs(w.packets) == AllSegs(w.cut) + Segs(w.buffered.lacing, w.buffered.data)
  {
    CutBasics(w.cut, w.serial, w.stamps);
    DoneIsShort(w.cut);
    PacketsAreShort(w.packets);
    ShortConcat(AllSegs(w.cut), Segs(w.buffered.lacing, w.buffered.data));
    ShortIsCompleted(w.buffered.lacing, Segs(w.buffered.lacing, w.buffered.data));
  }

  lemma {:induction false} MiddleDone(q: seq<Page>, more: seq<Page>)
    requires AllMiddle(more)
    ensures Done(q + more) == Done(q)
    decreases |more|
  {
    if more == [] {
      PlusNil(q);
    } else {
      var front, p := more[..|more| - 1], more[|more| - 1];
      MiddleDone(q, front);
      assert q + more == (q + front) + [p];
      DoneSnoc(q + front, p);
    }
  }

  lemma {:induction false} MiddleGrows(q: seq<Page>, more: seq<Page>)
    requires AllMiddle(more) && AllWellFormed(q + more)
    ensures |AllSegs(q + more)| == |AllSegs(q)| + 255 * |more|
    decreases |more|
  {
    if more == [] {
      PlusNil(q);
    } else {
      var front, p := more[..|more| - 1], more[|more| - 1];
      assert q + more == (q + front) + [p];
      assert (q + more)[|q + front|] == p;
      FrontWellFormed(q + front, p);
      MiddleGrows(q, front);
      AllSegsSnoc(q + front, p);
    }
  }

  lemma FrontWellFormed(q: seq<Page>, p: Page)
    requires AllWellFormed(q + [p])
    ensures AllWellFormed(q) && WellFormed(p)
  {
    var r := q + [p];
    assert r[|q|] == p && forall k :: 0 <= k < |q| ==> r[k] == q[k];
  }

  // ----- laying a packet out -----

  lemma MiddleAllDone(q: seq<Page>, more: seq<Page>, n: nat)
    requires AllMiddle(more) && (more != [] ==> Done(q) == n)
    ensures AllDone(q, more, n)
  {
    forall j | 0 < j <= |more|
      ensures Done(q + more[..j]) == n
    {
      MiddleDone(q, more[..j]);
    }
  }

  lemma FirstAllDone(q: seq<Page>, p: Page, more: seq<Page>, n: nat)
    requires AllMiddle(more) && Done(q + [p]) == n
    ensures AllDone(q, [p] + more, n)
  {
    var all := [p] + more;
    forall j | 0 < j <= |all|
      ensures Done(q + all[..j]) == n
    {
      assert q + all[..j] == (q + [p]) + more[..j - 1];
      MiddleDone(q + [p], more[..j - 1]);
    }
  }

  /** The pages on which a packet is laid out come after all earlier packets have ended. */
  lemma LaidOutDone(w: StreamWriter, room: seq<Page>, more: seq<Page>)
    requires HoldsPackets(w) && AllMiddle(more)
    requires room == [] || (room == [PageOut(w)] && w.buffered.lacing != [])
    requires room == [] && more != [] ==> w.buffered.lacing == []
    ensures AllDone(w.cut, room + more, |w.packets|)
  {
    AllCounted(w);
    if room == [] {
      MiddleAllDone(w.cut, more, |w.packets|);
      assert room + more == more;
    } else {
      DoneSnoc(w.cut, PageOut(w));
      FirstAllDone(w.cut, PageOut(w), more, |w.packets|);
    }
  }

  /** The packet begins on the page being filled exactly if no page of it was cut. */
  lemma LaidOutBegins(w: StreamWriter, room: seq<Page>, more: seq<Page>)
    requires HoldsPackets(w) && AllMiddle(more) && AllWellFormed(w.cut + room + more)
    requires room == [] || (room == [PageOut(w)] && w.buffered.lacing != [])
    requires room == [] && more != [] ==> w.buffered.lacing == []
    ensures |AllSegs(w.cut + room + more)| <= |AllPacketSegs(w.packets)| <==> more == []
  {
    AllCounted(w);
    MiddleGrows(w.cut + room, more);
    if room == [] {
      PlusNil(w.cut);
    } else {
      AllSegsSnoc(w.cut, PageOut(w));
      assert WellFormed(PageOut(w));
    }
  }

  // ----- one stream, packet by packet -----

  /** The notes are the first times, and packets from `h` on begin as they should. */
  predicate Tracked(w: StreamWriter, k: Notes, times: seq<Option<i64>>, h: nat)
  {
    |times| == |w.packets| && Noted(w.cut, k, times) && AllBegin(w.cut, w.packets, h)
  }

  function Grown(q: seq<Page>, q': seq<Page>): nat { if |q'| >= |q| then |q'| - |q| else 0 }

  /** After a packet is laid out and before it is stamped. */
  predicate LaidOut(w: StreamWriter, w1: StreamWriter, data: Packet, k: Notes, times: seq<Option<i64>>, h: nat)
  {
    && w1.packets == w.packets && w1.theora == w.theora && |times| == |w.packets|
    && Noted(w1.cut, k, times) && AllBegin(w1.cut, w1.packets, h)
    && (|AllSegs(w1.cut)| <= |AllPacketSegs(w1.packets)| <==> |data| < TOO_LONG)
  }

  lemma CutsTracked(q: seq<Page>, all: seq<Page>, q': seq<Page>, packets: seq<Packet>, k: Notes,
          times: seq<Option<i64>>, h: nat)
    requires |times| == |packets| && Noted(q, k, times) && AllBegin(q, packets, h) && AllDone(q, all, |packets|)
    requires q' == q + all
    ensures Noted(q', CutMany(k, Grown(q, q')), times) && AllBegin(q', packets, h)
  {
    NotedCuts(q, all, k, times);
    BeginCuts(q, all, packets, h);
  }

  lemma PlaceNotes(w: StreamWriter, w1: StreamWriter, room: seq<Page>, more: seq<Page>, data: Packet, k: Notes,
          times: seq<Option<i64>>, h: nat)
    requires HoldsPackets(w) && Tracked(w, k, times, h) && AllMiddle(more) && (more == [] <==> |data| < TOO_LONG)
    requires room == [] || (room == [PageOut(w)] && w.buffered.lacing != [])
    requires room == [] && more != [] ==> w.buffered.lacing == []
    requires w1.cut == w.cut + room + more && w1.packets == w.packets && w1.theora == w.theora && AllWellFormed(w1.cut)
    ensures LaidOut(w, w1, data, CutMany(k, Grown(w.cut, w1.cut)), times, h)
  {
    LaidOutDone(w, room, more);
    LaidOutBegins(w, room, more);
    Assoc(w.cut, room, more);
    CutsTracked(w.cut, room + more, w1.cut, w.packets, k, times, h);
  }

  lemma PlaceTracks(m: Mux, i: u32, data: Packet, k: Notes, times: seq<Option<i64>>, h: nat)
    requires i in m.writers && HoldsPackets(m.writers[i]) && Tracked(m.writers[i], k, times, h)
    ensures var w, w1 := m.writers[i], Place(m, i, data).writers[i];
            LaidOut(w, w1, data, CutMany(k, Grown(w.cut, w1.cut)), times, h)
  {
    var any := (m: Mux) => true;
    Stamps.AnythingIsStable();
    PlaceFills(any, m, i, data, 0);
    var w1 := Place(m, i, data).writers[i];
    AllCounted(Stamped(w1, data, 0));
    var room, more := PlaceCuts(m, i, data);
    PlaceNotes(m.writers[i], w1, room, more, data, k, times, h);
  }

  /** The time a content packet is noted with: a keyframe's, if it is stamped. */
  function KeyTime(w: StreamWriter, packet: MuxPacket): Option<i64>
  {
    if !packet.keyframe || StampFor(w, packet).Refuse? then None
    else if w.theora.Some? then Some(FrameOf(w.theora.value, packet))
    else packet.pts
  }

  /** What `write_packet` leaves noted on its stream: each page cut takes the note, an ended keyframe leaves one. */
  function NotesWrite(m: Mux, packet: MuxPacket, k: Notes): Notes
    requires packet.stream in m.writers
  {
    var i := packet.stream;
    var m1 := Place(m, i, packet.data);
    var k1 := CutMany(k, Grown(m.writers[i].cut, m1.writers[i].cut));
    if m.writers[i].headersRemaining > 0 then
      CutMany(k1, Grown(m1.writers[i].cut, EndHeader(m1, i, packet.data).writers[i].cut))
    else if StampFor(m1.writers[i], packet).Refuse? then k1
    else
      CutMany(Note(k1, KeyTime(m1.writers[i], packet)), Grown(m1.writers[i].cut, EndContent(m1, packet).writers[i].cut))
  }

  /** A packet laid out has ended. */
  lemma EndTracks(w: StreamWriter, w1: StreamWriter, w2: StreamWriter, data: Packet, k: Notes, times: seq<Option<i64>>,
          h: nat, t: Option<i64>)
    requires LaidOut(w, w1, data, k, times, h) && w2.cut == w1.cut && w2.packets == w1.packets + [data]
    ensures Tracked(w2, Note(k, t), times + [t], h)
  {
    NotedPacket(w1.cut, k, times, t);
    BeginPacket(w1.cut, w1.packets, data, h);
  }

  lemma NoteNone(k: Notes)
    ensures Note(k, None) == k
  {}

  /** The page being filled is cut once all its packets have ended. */
  lemma FlushTracks(w: StreamWriter, w': StreamWriter, k: Notes, times: seq<Option<i64>>, h: nat)
    requires Tracked(w, k, times, h) && HoldsPackets(w)
    requires w'.cut == w.cut + [PageOut(w)] && w'.packets == w.packets
    ensures Tracked(w', CutMany(k, Grown(w.cut, w'.cut)), times, h)
  {
    AllCounted(w);
    DoneSnoc(w.cut, PageOut(w));
    NotedCut(w.cut, PageOut(w), k, times);
    assert CutMany(k, 1) == Cut(CutMany(k, 0));
    forall j | h <= j < |w.packets|
      ensures BeginsRight(w'.cut, w.packets, j)
    {
      BeginCut(w.cut, PageOut(w), w.packets, j);
    }
  }

  lemma SameTracks(w: StreamWriter, w': StreamWriter, k: Notes, times: seq<Option<i64>>, h: nat)
    requires Tracked(w, k, times, h) && w'.cut == w.cut && w'.packets == w.packets
    ensures Tracked(w', k, times, h) && CutMany(k, Grown(w.cut, w'.cut)) == k
  {}

  /** A content packet that is stamped. */
  lemma ContentTracks(m1: Mux, w: StreamWriter, packet: MuxPacket, k: Notes, times: seq<Option<i64>>, h: nat,
          t: Option<i64>)
    requires packet.stream in m1.writers && !StampFor(m1.writers[packet.stream], packet).Refuse?
    requires LaidOut(w, m1.writers[packet.stream], packet.data, k, times, h)
    requires LacingOf(m1, packet.stream) != []
    requires HoldsPackets(Stamped(m1.writers[packet.stream], packet.data, StampLeft(m1.writers[packet.stream], packet)))
    ensures var w1, w' := m1.writers[packet.stream], EndContent(m1, packet).writers[packet.stream];
            Tracked(w', CutMany(Note(k, t), Grown(w1.cut, w'.cut)), times + [t], h)
  {
    var i, g := packet.stream, StampLeft(m1.writers[packet.stream], packet);
    var m2 := ContentStamped(m1, packet, g);
    EndTracks(w, m1.writers[i], m2.writers[i], packet.data, k, times, h, t);
    CutOrNot(m2, i, packet.unitBoundary);
    if CutIfDue(m2, i, packet.unitBoundary) == m2 {
      SameTracks(m2.writers[i], m2.writers[i], Note(k, t), times + [t], h);
    } else {
      FlushCuts(m2, i, true);
      FlushTracks(m2.writers[i], Flush(m2, i, true).writers[i], Note(k, t), times + [t], h);
    }
  }

  /** A content packet written to a known stream. */
  lemma WriteTracks(m: Mux, packet: MuxPacket, k: Notes, times: seq<Option<i64>>, h: nat, w: StreamWriter)
    requires m.headerWritten && packet.stream in m.writers && w == m.writers[packet.stream]
    requires HoldsPackets(w) && w.headersRemaining == 0 && Tracked(w, k, times, h)
    ensures Tracked(WritePacket(m, packet).0.writers[packet.stream], NotesWrite(m, packet, k),
                    times + [KeyTime(w, packet)], h)
  {
    var i := packet.stream;
    var m1 := Place(m, i, packet.data);
    var w1, k1 := m1.writers[i], CutMany(k, Grown(w.cut, m1.writers[i].cut));
    PlaceTracks(m, i, packet.data, k, times, h);
    SameStamp(w, w1, packet);
    if StampFor(w1, packet).Refuse? {
      NoteNone(k1);
      EndTracks(w, w1, Unstamped(w1, packet), packet.data, k1, times, h, None);
    } else {
      var any := (m: Mux) => true;
      Stamps.AnythingIsStable();
      PlaceFills(any, m, i, packet.data, StampLeft(w1, packet));
      ContentTracks(m1, w, packet, k1, times, h, KeyTime(w, packet));
    }
  }

  // ----- whole runs -----

  /** The muxer begins no further link: it refuses to while it collects an index. */
  predicate OneLink(calls: seq<Call>) { forall k :: 0 <= k < |calls| ==> !calls[k].NewLink? }

  function Nothing(n: nat): (r: seq<Option<i64>>)
    ensures |r| == n && forall k :: 0 <= k < n ==> r[k] == None
  {
    seq(n, _ => None)
  }

  /** What the pages of stream `i` are noted with after a run. */
  function NotesAfter(infos: seq<StreamInfo>, calls: seq<Call>, i: u32): Notes
    requires |infos| < TWO32
  {
    if calls == [] then
      if i in Opened(infos).writers then CutMany(NO_NOTES, |Opened(infos).writers[i].cut|) else NO_NOTES
    else
      var front, last := calls[..|calls| - 1], calls[|calls| - 1];
      var m, k := After(infos, front), NotesAfter(infos, front, i);
      if last.Write? && last.packet.stream == i && m.headerWritten && i in m.writers
      then NotesWrite(m, last.packet, k) else k
  }

  /** Packet by packet, header packets first, the keyframe times of stream `i`. */
  function TimesAfter(infos: seq<StreamInfo>, calls: seq<Call>, i: u32): seq<Option<i64>>
    requires |infos| < TWO32
  {
    if calls == [] then Nothing(if i in Opened(infos).writers then |Opened(infos).writers[i].packets| else 0)
    else
      var front, last := calls[..|calls| - 1], calls[|calls| - 1];
      var m, times := After(infos, front), TimesAfter(infos, front, i);
      if last.Write? && last.packet.stream == i && m.headerWritten && i in m.writers
      then times + [KeyTime(m.writers[i], last.packet)] else times
  }

  lemma {:induction false} NothingNoted(q: seq<Page>, times: seq<Option<i64>>)
    requires Done(q) <= |times| && forall k :: 0 <= k < |times| ==> times[k] == None
    ensures Noted(q, CutMany(NO_NOTES, |q|), times)
  {
    if q != [] {
      var front := q[..|q| - 1];
      NothingNoted(front, times);
      FirstOfNone(times[Done(front)..Done(q)]);
    }
    FirstOfNone(times[Done(q)..]);
  }

  lemma OpenTracks(infos: seq<StreamInfo>, i: u32)
    requires WellUsed(infos, []) && i in Opened(infos).writers
    ensures var w := Opened(infos).writers[i];
            Tracked(w, NotesAfter(infos, [], i), TimesAfter(infos, [], i), |w.packets|)
  {
    RunHolds(infos, []);
    AllCounted(Opened(infos).writers[i]);
    NothingNoted(Opened(infos).writers[i].cut, TimesAfter(infos, [], i));
  }

  /** Writing to another stream changes nothing here. */
  lemma OtherTracks(m: Mux, packet: MuxPacket, i: u32, k: Notes, times: seq<Option<i64>>, h: nat)
    requires Running(m) && i in m.writers && packet.stream != i && Tracked(m.writers[i], k, times, h)
    ensures i in WritePacket(m, packet).0.writers && Tracked(WritePacket(m, packet).0.writers[i], k, times, h)
  {
    if m.headerWritten && packet.stream in m.writers {
      var any := (m: Mux) => true;
      Stamps.AnythingIsStable();
      WriteSeals(any, m, packet);
      SameTracks(m.writers[i], WritePacket(m, packet).0.writers[i], k, times, h);
    }
  }

  lemma CallTracks(m: Mux, call: Call, i: u32, k: Notes, times: seq<Option<i64>>, h: nat)
    requires Running(m) && i in m.writers && !call.NewLink? && Tracked(m.writers[i], k, times, h)
    ensures i in Apply(m, call).writers
    ensures var own := call.Write? && call.packet.stream == i && m.headerWritten;
            Tracked(Apply(m, call).writers[i], if own then NotesWrite(m, call.packet, k) else k,
                    if own then times + [KeyTime(m.writers[i], call.packet)] else times, h)
  {
    if call.Write? {
      if call.packet.stream != i {
        OtherTracks(m, call.packet, i, k, times, h);
      } else if m.headerWritten {
        Stamps.HeadersAreIn(m, i);
        WriteTracks(m, call.packet, k, times, h, m.writers[i]);
      }
    }
  }

  /** How many header packets stream `i` has. */
  function HeadersOf(infos: seq<StreamInfo>, i: u32): nat
    requires |infos| < TWO32
  {
    if i in Opened(infos).writers then |Opened(infos).writers[i].packets| else 0
  }

  /** At every moment of a run of one link, a stream's notes are right. */
  lemma {:induction false} RunTracks(infos: seq<StreamInfo>, calls: seq<Call>, i: u32)
    requires WellUsed(infos, calls) && |infos| < TWO32 && OneLink(calls) && i in Opened(infos).writers
    ensures i in After(infos, calls).writers
    ensures Tracked(After(infos, calls).writers[i], NotesAfter(infos, calls, i), TimesAfter(infos, calls, i),
                    HeadersOf(infos, i))
    decreases |calls|
  {
    if calls == [] {
      OpenTracks(infos, i);
    } else {
      var front, last := calls[..|calls| - 1], calls[|calls| - 1];
      RunTracks(infos, front, i);
      RunHolds(infos, front);
      CallTracks(After(infos, front), last, i, NotesAfter(infos, front, i), TimesAfter(infos, front, i),
                 HeadersOf(infos, i));
    }
  }

  // ----- the end of the run -----

  /** The page being filled, if it holds anything, is cut. */
  function CutOff(w: StreamWriter): seq<Page> { if w.buffered.lacing == [] then w.cut else w.cut + [PageOut(w)] }

  /** The last granule once it is. */
  function LastAfter(w: StreamWriter): i64
  {
    if w.buffered.lacing != [] && w.buffered.granule >= 0 then w.buffered.granule else w.lastGranule
  }

  /** A stream as it ends: all cut, and its last page marked or an empty one added with the last granule. */
  predicate Ended(w: StreamWriter, d: StreamWriter)
  {
    var q := CutOff(w);
    && d.packets == w.packets
    && (d.cut == WithEos(q)
        || (d.cut != [] && d.cut[..|d.cut| - 1] == q && d.cut[|q|].lacing == [] && d.cut[|q|].granule == LastAfter(w)))
  }

  /** Something of the stream is there to end. */
  predicate Begun(w: StreamWriter) { w.bosEmitted || w.buffered.lacing != [] }

  predicate QueueAside(w: StreamWriter, w': StreamWriter) { w' == w.(queue := w'.queue) }

  lemma CloseIsEnd(w: StreamWriter, w1: StreamWriter)
    requires w1.cut == CutOff(w) && w1.packets == w.packets && w1.bosEmitted && w1.lastGranule == LastAfter(w)
    ensures Ended(w, Close(w1))
  {
    if w1.queue == [] {
      UnSnoc(w1.cut, Page(LAST_PAGE, w1.lastGranule, w1.serial, w1.seqNo, [], []));
    }
  }

  lemma CloseOneEnds(m: Mux, i: u32, w: StreamWriter)
    requires i in m.writers && Begun(w) && QueueAside(w, m.writers[i])
    ensures Ended(w, CloseStream(m, i).writers[i])
  {
    var m1 := if LacingOf(m, i) != [] then Flush(m, i, true) else m;
    if LacingOf(m, i) != [] {
      ReleaseMovesOnly(m, i, CutAndQueue(m.writers[i]));
    }
    CloseIsEnd(w, m1.writers[i]);
  }

  lemma CloseOthers(m: Mux, i: u32, j: u32)
    requires j in m.writers && j != i
    ensures QueueAside(m.writers[j], CloseStream(m, i).writers[j])
  {
    if i in m.writers && LacingOf(m, i) != [] {
      ReleaseMovesOnly(m, i, CutAndQueue(m.writers[i]));
    }
  }

  lemma EndedAside(w: StreamWriter, d: StreamWriter, d': StreamWriter)
    requires Ended(w, d) && QueueAside(d, d')
    ensures Ended(w, d')
  {}

  lemma {:induction false} CloseAllEnds(m: Mux, order: seq<u32>, i: u32)
    requires Distinct(order) && i in m.writers && Begun(m.writers[i])
    ensures var d := CloseAll(m, order).writers[i];
            if i in order then Ended(m.writers[i], d) else QueueAside(m.writers[i], d)
  {
    if order != [] {
      var front, last := order[..|order| - 1], order[|order| - 1];
      SplitLast(order);
      CloseAllEnds(m, front, i);
      var m1 := CloseAll(m, front);
      if i == last {
        assert forall k :: 0 <= k < |front| ==> order[k] != order[|order| - 1];
        assert i !in front;
        CloseOneEnds(m1, i, m.writers[i]);
      } else {
        CloseOthers(m1, last, i);
        if i in order {
          assert i in front;
          EndedAside(m.writers[i], m1.writers[i], CloseStream(m1, last).writers[i]);
        }
      }
    }
  }

  lemma FinishEnds(m: Mux, d: Mux, i: u32)
    requires Running(m) && d == FinishLink(m) && i in m.writers
    ensures i in d.writers && Ended(m.writers[i], d.writers[i])
  {
    Stamps.FinishedKept(m, d);
    var w := m.writers[i];
    StreamBegun(m, i);
    CloseAllEnds(m, m.order, i);
    MuxWire.DrainMoves(CloseAll(m, m.order));
    EndedAside(w, CloseAll(m, m.order).writers[i], d.writers[i]);
  }

  /** Its header packets are somewhere. */
  lemma StreamBegun(m: Mux, i: u32)
    requires Running(m) && i in m.writers
    ensures Begun(m.writers[i]) && Distinct(m.order) && i in m.order
  {
    TrailerFinishes(m);
    if LacingOf(m, i) == [] {
      SomePageCut(m.writers[i]);
    }
  }

  lemma CutOffTracks(w: StreamWriter, q: seq<Page>, k: Notes, times: seq<Option<i64>>, h: nat)
    requires Tracked(w, k, times, h) && HoldsPackets(w) && q == CutOff(w)
    ensures Tracked(w.(cut := q), CutMany(k, Grown(w.cut, q)), times, h) && Done(q) == |w.packets|
  {
    AllCounted(w);
    if w.buffered.lacing == [] {
      SameTracks(w, w.(cut := q), k, times, h);
    } else {
      FlushTracks(w, w.(cut := q), k, times, h);
      DoneSnoc(w.cut, PageOut(w));
    }
  }

  lemma NilTracks(w: StreamWriter, q: seq<Page>, d: StreamWriter, k: Notes, times: seq<Option<i64>>, h: nat)
    requires Tracked(w.(cut := q), k, times, h) && Done(q) == |w.packets| && d.packets == w.packets
    requires d.cut != [] && d.cut[..|d.cut| - 1] == q && d.cut[|q|].lacing == []
    ensures Tracked(d, Cut(k), times, h)
  {
    var p := d.cut[|q|];
    assert d.cut == q + [p];
    DoneSnoc(q, p);
    NotedCut(q, p, k, times);
    forall j | h <= j < |w.packets|
      ensures BeginsRight(d.cut, w.packets, j)
    {
      BeginCut(q, p, w.packets, j);
    }
  }

  lemma MarkTracks(w: StreamWriter, q: seq<Page>, d: StreamWriter, k: Notes, times: seq<Option<i64>>, h: nat)
    requires Tracked(w.(cut := q), k, times, h) && d.packets == w.packets && d.cut == WithEos(q)
    ensures Tracked(d, k, times, h) && |d.cut| == |q|
  {
    MarkedDone(q);
    MarkedNoted(q, k, times);
    MarkedBegin(q, w.packets, h);
  }

  lemma CutOneMore(k: Notes, n: nat, m: nat)
    requires m == n + 1
    ensures CutMany(k, m) == Cut(CutMany(k, n))
  {}

  lemma EndedTracks(w: StreamWriter, d: StreamWriter, k: Notes, times: seq<Option<i64>>, h: nat)
    requires Tracked(w, k, times, h) && HoldsPackets(w) && Ended(w, d)
    ensures Tracked(d, CutMany(k, Grown(w.cut, d.cut)), times, h)
  {
    var q := CutOff(w);
    var k1 := CutMany(k, Grown(w.cut, q));
    CutOffTracks(w, q, k, times, h);
    if d.cut == WithEos(q) {
      MarkTracks(w, q, d, k1, times, h);
    } else {
      NilTracks(w, q, d, k1, times, h);
      CutOneMore(k, Grown(w.cut, q), Grown(w.cut, d.cut));
    }
  }

  /** What the pages of stream `i` are noted with once the run is over. */
  function FinalNotes(infos: seq<StreamInfo>, calls: seq<Call>, i: u32): Notes
    requires |infos| < TWO32
  {
    var m := After(infos, calls);
    var d := FinishLink(m);
    if i in m.writers && i in d.writers then
      CutMany(NotesAfter(infos, calls, i), Grown(m.writers[i].cut, d.writers[i].cut))
    else NO_NOTES
  }

  lemma FinalTracks(infos: seq<StreamInfo>, calls: seq<Call>, i: u32, d: Mux)
    requires WellUsed(infos, calls) && |infos| < TWO32 && OneLink(calls) && i in Opened(infos).writers
    requires d == FinishLink(After(infos, calls))
    ensures i in d.writers
    ensures Tracked(d.writers[i], FinalNotes(infos, calls, i), TimesAfter(infos, calls, i), HeadersOf(infos, i))
  {
    var m := After(infos, calls);
    RunTracks(infos, calls, i);
    RunHolds(infos, calls);
    FinishEnds(m, d, i);
    EndedTracks(m.writers[i], d.writers[i], NotesAfter(infos, calls, i), TimesAfter(infos, calls, i),
                HeadersOf(infos, i));
  }

  // ----- what a note means -----

  lemma {:induction false} HeadersUntimed(infos: seq<StreamInfo>, calls: seq<Call>, i: u32)
    requires |infos| < TWO32
    ensures HeadersOf(infos, i) <= |TimesAfter(infos, calls, i)|
    ensures forall k :: 0 <= k < HeadersOf(infos, i) ==> TimesAfter(infos, calls, i)[k] == None
  {
    if calls != [] {
      HeadersUntimed(infos, calls[..|calls| - 1], i);
    }
  }

  /** Page `n` is noted with the time of the first keyframe to end on it, packet `j`. */
  predicate FirstKey(q: seq<Page>, times: seq<Option<i64>>, n: nat, j: nat)
  {
    && n < |q| && j < |times| && EndsOn(q, j, n) && times[j].Some?
    && forall i :: Done(q[..n]) <= i < j ==> times[i].None?
  }

  lemma TrackedNote(w: StreamWriter, k: Notes, times: seq<Option<i64>>, h: nat, n: nat) returns (j: nat)
    requires Tracked(w, k, times, h) && n < |k.pages| && k.pages[n].Some?
    requires h <= |times| && forall i :: 0 <= i < h ==> times[i] == None
    ensures FirstKey(w.cut, times, n, j) && k.pages[n] == times[j] && h <= j < |w.packets|
    ensures BeginsFrom(w.cut, w.packets, j, n) <==> |w.packets[j]| < TOO_LONG
  {
    PagesMatch(w.cut, k.pages, times);
    NoteOf(w.cut, k.pages, times, n);
    var from, to := Done(w.cut[..n]), Done(w.cut[..n + 1]);
    var at := FirstMeans(times[from..to]);
    j := from + at;
    forall i | from <= i < j
      ensures times[i].None?
    {
      assert times[from..to][i - from] == times[i];
    }
    assert BeginsRight(w.cut, w.packets, j);
  }

  /**
   In a finished run of one link a page noted with a time has it from the first keyframe that ends on
   it, a content packet - which begins on that page too if and only if it fits a page.
   */
  lemma NoteMeans(infos: seq<StreamInfo>, calls: seq<Call>, i: u32, d: Mux, n: nat) returns (j: nat)
    requires WellUsed(infos, calls) && |infos| < TWO32 && OneLink(calls) && i in Opened(infos).writers
    requires d == FinishLink(After(infos, calls)) && n < |FinalNotes(infos, calls, i).pages|
    requires FinalNotes(infos, calls, i).pages[n].Some?
    ensures i in d.writers && FirstKey(d.writers[i].cut, TimesAfter(infos, calls, i), n, j)
    ensures FinalNotes(infos, calls, i).pages[n] == TimesAfter(infos, calls, i)[j]
    ensures var w := d.writers[i];
            && HeadersOf(infos, i) <= j < |w.packets|
            && (BeginsFrom(w.cut, w.packets, j, n) <==> |w.packets[j]| < TOO_LONG)
  {
    FinalTracks(infos, calls, i, d);
    HeadersUntimed(infos, calls, i);
    j := TrackedNote(d.writers[i], FinalNotes(infos, calls, i), TimesAfter(infos, calls, i), HeadersOf(infos, i), n);
  }

  /** Every packet of a finished run ends on some page. */
  lemma {:induction false} EndPage(q: seq<Page>, j: nat) returns (n: nat)
    requires j < Done(q)
    ensures n < |q| && EndsOn(q, j, n)
  {
    var m := |q| - 1;
    if j < Done(q[..m]) {
      n := EndPage(q[..m], j);
      assert q[..m][..n] == q[..n] && q[..m][..n + 1] == q[..n + 1];
    } else {
      n := m;
      assert q[..m + 1] == q;
    }
  }

  lemma FinalDone(m: Mux, d: Mux, i: u32)
    requires Running(m) && d == FinishLink(m) && i in m.writers
    ensures i in d.writers && Done(d.writers[i].cut) == |d.writers[i].packets|
  {
    TrailerFinishes(m);
    DoneIsShort(d.writers[i].cut);
    PacketsAreShort(d.writers[i].packets);
  }

  lemma TrackedKey(w: StreamWriter, k: Notes, times: seq<Option<i64>>, h: nat, n: nat, j: nat)
    requires Tracked(w, k, times, h) && FirstKey(w.cut, times, n, j)
    ensures n < |k.pages| && k.pages[n] == times[j]
  {
    NoteOf(w.cut, k.pages, times, n);
    var from, to := Done(w.cut[..n]), Done(w.cut[..n + 1]);
    FirstIs(times[from..to], j - from);
  }

  /** The converse: the page a keyframe ends on is noted with its time if no other keyframe ended there before. */
  lemma KeyIsNoted(infos: seq<StreamInfo>, calls: seq<Call>, i: u32, d: Mux, n: nat, j: nat)
    requires WellUsed(infos, calls) && |infos| < TWO32 && OneLink(calls) && i in Opened(infos).writers
    requires d == FinishLink(After(infos, calls)) && i in d.writers
    requires FirstKey(d.writers[i].cut, TimesAfter(infos, calls, i), n, j)
    ensures n < |FinalNotes(infos, calls, i).pages|
    ensures FinalNotes(infos, calls, i).pages[n] == TimesAfter(infos, calls, i)[j]
  {
    FinalTracks(infos, calls, i, d);
    TrackedKey(d.writers[i], FinalNotes(infos, calls, i), TimesAfter(infos, calls, i), HeadersOf(infos, i), n, j);
  }

  // ----- a keyframe noted where it does not begin -----

  /** A first frame one byte too long for a page. */
  const LONG_KEY := MuxPacket(0, seq(TOO_LONG, _ => 1), Some(0), true, false)

  lemma {:induction false} ShiftedZero(n: nat)
    ensures Theora.Shl(0, n) == 0
  {
    if n > 0 {
      ShiftedZero(n - 1);
    }
  }

  lemma FrameZeroFits(g: Theora.Granule)
    requires 0 < g.shift < 63 && !g.countFromOne
    ensures Theora.Packs(g, 0, 0)
  {
    ShiftedZero(g.shift);
    Theora.HighLow(0, g.shift);
  }

  lemma KeyTimeIs(w: StreamWriter, packet: MuxPacket, t: i64)
    requires Stamps.FieldsTake(w, packet) && packet.keyframe && packet.pts == Some(t)
    ensures KeyTime(w, packet) == Some(t)
  {
    Stamps.RefuseMeans(w, packet);
  }

  lemma LongKeyTime(w: StreamWriter)
    requires w.theora == Stamps.REFUSING.theora
    ensures KeyTime(w, LONG_KEY) == Some(0)
  {
    FrameZeroFits(w.theora.value.gran);
    KeyTimeIs(w, LONG_KEY, 0);
  }

  lemma OpenedHeaders(infos: seq<StreamInfo>, m: Mux, s: StreamInfo)
    requires Usable(infos) && |infos| < TWO32 && m == Opened(infos) && s in infos
    ensures s.index in m.writers && m.headerWritten && m.writers[s.index].packets == s.headers
    ensures HeadersOf(infos, s.index) == |s.headers|
  {
    OpenRuns(infos);
    assert HeadersAlone(m.writers[s.index], s);
  }

  lemma OneWrite(infos: seq<StreamInfo>, calls: seq<Call>, m: Mux, packet: MuxPacket)
    requires calls == [Write(packet)] && |infos| < TWO32 && m == Opened(infos)
    requires packet.stream in m.writers && m.headerWritten
    ensures TimesAfter(infos, calls, packet.stream)
         == Nothing(HeadersOf(infos, packet.stream)) + [KeyTime(m.writers[packet.stream], packet)]
  {
    assert calls[..|calls| - 1] == [];
    assert TimesAfter(infos, [], packet.stream) == Nothing(HeadersOf(infos, packet.stream));
  }

  lemma OneIsWellUsed(infos: seq<StreamInfo>, calls: seq<Call>, packet: MuxPacket)
    requires calls == [Write(packet)] && Usable(infos) && |infos| < TWO32
    ensures WellUsed(infos, calls) && OneLink(calls)
  {
    assert calls[..|calls| - 1] == [];
    assert WellUsed(infos, []);
  }

  lemma LongKeyRun(infos: seq<StreamInfo>, calls: seq<Call>, m: Mux)
    requires infos == [Stamps.REFUSING] && calls == [Write(LONG_KEY)] && m == Opened(infos)
    ensures WellUsed(infos, calls) && OneLink(calls) && 0 in m.writers && HeadersOf(infos, 0) == 3
    ensures TimesAfter(infos, calls, 0) == Nothing(3) + [Some(0)]
  {
    Stamps.TooFarIsRefused();
    OneIsWellUsed(infos, calls, LONG_KEY);
    Stamps.OpenedTheora(infos, m, Stamps.REFUSING);
    OpenedHeaders(infos, m, Stamps.REFUSING);
    LongKeyTime(m.writers[0]);
    OneWrite(infos, calls, m, LONG_KEY);
  }

  lemma LongKeyFirst(q: seq<Page>, times: seq<Option<i64>>, n: nat)
    requires n < |q| && EndsOn(q, 3, n) && times == Nothing(3) + [Some(0)]
    ensures FirstKey(q, times, n, 3) && times[3] == Some(0)
  {}

  /** A stream whose only content packet is a keyframe too long for a page. */
  lemma LongKeyEnds(infos: seq<StreamInfo>, calls: seq<Call>, d: Mux, w: StreamWriter) returns (n: nat)
    requires WellUsed(infos, calls) && |infos| < TWO32 && OneLink(calls) && 0 in Opened(infos).writers
    requires HeadersOf(infos, 0) == 3 && TimesAfter(infos, calls, 0) == Nothing(3) + [Some(0)]
    requires d == FinishLink(After(infos, calls)) && 0 in d.writers && w == d.writers[0]
    ensures |w.packets| == 4 && n < |w.cut| && EndsOn(w.cut, 3, n)
    ensures n < |FinalNotes(infos, calls, 0).pages| && FinalNotes(infos, calls, 0).pages[n] == Some(0)
    ensures BeginsFrom(w.cut, w.packets, 3, n) <==> |w.packets[3]| < TOO_LONG
  {
    FinalTracks(infos, calls, 0, d);
    RunTracks(infos, calls, 0);
    RunHolds(infos, calls);
    FinalDone(After(infos, calls), d, 0);
    n := EndPage(w.cut, 3);
    LongKeyFirst(w.cut, TimesAfter(infos, calls, 0), n);
    KeyIsNoted(infos, calls, 0, d, n, 3);
    assert BeginsRight(w.cut, w.packets, 3);
  }

  lemma FinalPackets(infos: seq<StreamInfo>, calls: seq<Call>, s: StreamInfo, d: Mux)
    requires WellUsed(infos, calls) && |infos| < TWO32 && s in InfosAt(infos, calls)
    requires d == FinishLink(After(infos, calls))
    ensures s.index in d.writers && d.writers[s.index].packets == s.headers + Given(calls, s.index)
  {
    var m := After(infos, calls);
    RunHolds(infos, calls);
    TrailerFinishes(m);
    FinishEnds(m, d, s.index);
  }

  lemma FourthIs(headers: seq<Packet>, data: Packet)
    requires |headers| == 3
    ensures (headers + [data])[3] == data
  {}

  /**
   A keyframe of 255 * 255 bytes, alone in its stream: the page noted with it is the one it ends on, and
   it does not begin there.
   */
  lemma LongKeyMisplaced(infos: seq<StreamInfo>, calls: seq<Call>, d: Mux) returns (n: nat)
    requires infos == [Stamps.REFUSING] && calls == [Write(LONG_KEY)] && d == FinishLink(After(infos, calls))
    ensures 0 in d.writers && n < |d.writers[0].cut|
    ensures |d.writers[0].packets| == 4 && d.writers[0].packets[3] == LONG_KEY.data
    ensures n < |FinalNotes(infos, calls, 0).pages| && FinalNotes(infos, calls, 0).pages[n] == Some(0)
    ensures EndsOn(d.writers[0].cut, 3, n) && !BeginsFrom(d.writers[0].cut, d.writers[0].packets, 3, n)
  {
    LongKeyRun(infos, calls, Opened(infos));
    Stamps.OneCall(infos, calls, Write(LONG_KEY));
    FinalPackets(infos, calls, Stamps.REFUSING, d);
    FourthIs(Stamps.REFUSING.headers, LONG_KEY.data);
    n := LongKeyEnds(infos, calls, d, d.writers[0]);
  }
}
