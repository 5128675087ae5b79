/** A link's header section, from the first BOS page to the last header packet. */
module MuxHeaders {
  import opened Bytes
  import opened Pages
  import opened Segments
  import opened Grammar
  import opened Muxing
  import opened MuxWire
  import opened MuxFill
  import opened MuxSteps
  import opened MuxClose
  import opened MuxLinks
  import D = Decision

  // ----- the BOS pages -----

  /** A stream's writer before and after its BOS page. */
  predicate Opening(w: StreamWriter, s: StreamInfo, begun: bool)
  {
    UsableStream(s) && w == if begun then BosWritten(NewWriter(s, w.serial), s.headers[0]) else NewWriter(s, w.serial)
  }

  /** Every writer belongs to a declared stream. */
  predicate Covered(writers: map<u32, StreamWriter>, infos: seq<StreamInfo>)
  {
    forall i :: i in writers ==> exists s :: s in infos && s.index == i
  }

  predicate BosOut(writers: map<u32, StreamWriter>, infos: seq<StreamInfo>, begun: seq<StreamInfo>)
  {
    && Covered(writers, infos)
    && forall s :: s in infos ==> s.index in writers && Opening(writers[s.index], s, s in begun)
  }

  /** The wire before a link's first BOS page, and between its BOS pages. */
  ghost predicate AtBos(wire: seq<Page>, links: nat, bos: nat, begun: nat)
  {
    if begun == 0 then Tally(wire, links, bos) && (wire == [] || DataBegun(wire)) && AllClosed(wire)
    else Tally(wire, links + 1, bos + begun) && wire != [] && !DataBegun(wire)
  }

  ghost predicate BosPhase(m: Mux, infos: seq<StreamInfo>, begun: seq<StreamInfo>, links: nat, bos: nat)
  {
    && Sound(m.wire, m.writers) && PastKept(m.wire, m.writers, m.past, m.used)
    && BosOut(m.writers, infos, begun)
    && AtBos(m.wire, links, bos, |begun|)
  }

  lemma BosTally(wire: seq<Page>, p: Page, links: nat, bos: nat, begun: nat)
    requires AtBos(wire, links, bos, begun) && IsFirst(p)
    ensures AtBos(wire + [p], links, bos, begun + 1)
  {
    D.LinksSnoc(wire, p);
    UnSnoc(wire, p);
  }

  lemma BosOutSnoc(writers: map<u32, StreamWriter>, infos: seq<StreamInfo>, begun: seq<StreamInfo>, s: StreamInfo)
    requires DistinctIndices(infos) && BosOut(writers, infos, begun) && s in infos && s !in begun
    ensures BosOut(writers[s.index := BosWritten(writers[s.index], s.headers[0])], infos, begun + [s])
  {
    var writers' := writers[s.index := BosWritten(writers[s.index], s.headers[0])];
    forall t | t in infos
      ensures t.index in writers' && Opening(writers'[t.index], t, t in begun + [s])
    {
      if t.index == s.index {
        MemberIndex(infos, s, t);
      } else {
        assert Opening(writers[t.index], t, t in begun);
      }
    }
  }

  lemma WriteBosOpens(m: Mux, s: StreamInfo, w: StreamWriter)
    requires s.index in m.writers && w == m.writers[s.index] && UsableStream(s) && Opening(w, s, false)
    ensures WriteBos(m, s)
        == With(m, s.index, BosWritten(w, s.headers[0])).(wire := m.wire + [BosPage(w, s.headers[0])])
    ensures w.cut == [] && w.queue == [] && w.seqNo == 0 && IsFirst(BosPage(w, s.headers[0]))
    ensures BosPage(w, s.headers[0]).serial == w.serial
  {}

  lemma BosStep(m: Mux, infos: seq<StreamInfo>, begun: seq<StreamInfo>, s: StreamInfo, links: nat, bos: nat)
    requires DistinctIndices(infos) && BosPhase(m, infos, begun, links, bos) && s in infos && s !in begun
    ensures BosPhase(WriteBos(m, s), infos, begun + [s], links, bos)
  {
    var i := s.index;
    var w := m.writers[i];
    var p := BosPage(w, s.headers[0]);
    assert Opening(w, s, false);
    WriteBosOpens(m, s, w);
    BosSound(m.wire, m.writers, i, s.headers[0]);
    PastSnoc(m.wire, m.writers, m.past, m.used, i, p);
    PastWith(m.wire + [p], m.writers, m.past, m.used, i, BosWritten(w, s.headers[0]));
    BosOutSnoc(m.writers, infos, begun, s);
    BosTally(m.wire, p, links, bos, |begun|);
  }

  lemma {:induction false} BosAll(m: Mux, infos: seq<StreamInfo>, todo: seq<StreamInfo>, links: nat, bos: nat)
    requires DistinctIndices(infos) && BosPhase(m, infos, [], links, bos)
    requires DistinctIndices(todo) && forall s :: s in todo ==> s in infos
    ensures BosPhase(WriteAllBos(m, todo), infos, todo, links, bos)
    ensures var m' := WriteAllBos(m, todo); m' == m.(writers := m'.writers, wire := m'.wire)
  {
    if todo != [] {
      var front, s := todo[..|todo| - 1], todo[|todo| - 1];
      SplitLast(todo);
      DistinctFront(front, s);
      BosAll(m, infos, front, links, bos);
      BosStep(WriteAllBos(m, front), infos, front, s, links, bos);
    }
  }

  lemma BegunHolds(wire: seq<Page>, w: StreamWriter, s: StreamInfo)
    requires Opening(w, s, true) && Carried(wire, w)
    ensures HoldsPackets(w) && Proj(wire, w.serial) != []
  {
    BosHolds(NewWriter(s, w.serial), s.headers[0]);
    assert PagesOf(w.queue) == [];
    PlusNil(Proj(wire, w.serial));
    assert w.cut != [];
  }

  /** With every BOS page out, the link's standing invariant holds. */
  lemma BosDone(m: Mux, infos: seq<StreamInfo>, begun: seq<StreamInfo>, links: nat, bos: nat)
    requires infos != [] && BosPhase(m, infos, begun, links, bos) && (forall s :: s in infos ==> s in begun)
    ensures Good(m, links + 1, bos + |begun|) && AllHold(m)
  {
    assert infos[0] in infos;
    forall i | i in m.writers
      ensures HoldsPackets(m.writers[i]) && Proj(m.wire, m.writers[i].serial) != []
    {
      var s :| s in infos && s.index == i;
      BegunHolds(m.wire, m.writers[i], s);
    }
  }

  // ----- the other header packets -----

  predicate AllZero(stamps: seq<i64>) { forall k :: 0 <= k < |stamps| ==> stamps[k] == 0 }

  /** The first `n` header packets of `s` are in, and the muxer still expects the rest. */
  predicate HeadersIn(w: StreamWriter, s: StreamInfo, n: nat)
  {
    && n <= |s.headers| && w.packets == s.headers[..n] && w.headersRemaining == |s.headers| - n
    && w.stamps != [] && AllZero(w.stamps) && w.theora == NewWriter(s, 0).theora
  }

  lemma HeaderStamp(m: Mux, s: StreamInfo, packet: Packet, n: nat)
    requires s.index in m.writers && HeadersIn(m.writers[s.index], s, n) && n < |s.headers|
    ensures StampOn(m, HeaderPacket(s, packet)) == 0 && !Refused(m, HeaderPacket(s, packet))
  {}

  lemma HeaderIn(inv: Invariant, m: Mux, m': Mux, s: StreamInfo, n: nat)
    requires s.index in m.writers && HeadersIn(m.writers[s.index], s, n) && n < |s.headers|
    requires Taken(inv, m, m', HeaderPacket(s, s.headers[n]), 0)
    ensures HeadersIn(m'.writers[s.index], s, n + 1) && m'.contentStarted == m.contentStarted
  {
    assert s.headers[..n + 1] == s.headers[..n] + [s.headers[n]];
  }

  /** Streams other than `i` have the packets they had. */
  predicate OthersSame(m: Mux, m': Mux, i: u32)
  {
    && m'.writers.Keys == m.writers.Keys
    && m' == m.(writers := m'.writers, wire := m'.wire, released := m'.released)
    && forall j :: j in m.writers && j != i ==> SameHistory(m.writers[j], m'.writers[j])
  }

  lemma TakenElsewhere(inv: Invariant, m: Mux, m': Mux, packet: MuxPacket, g: i64)
    requires Taken(inv, m, m', packet, g) && m'.contentStarted == m.contentStarted
    ensures OthersSame(m, m', packet.stream)
  {}

  lemma OthersSameTrans(m: Mux, m1: Mux, m2: Mux, i: u32)
    requires OthersSame(m, m1, i) && OthersSame(m1, m2, i)
    ensures OthersSame(m, m2, i)
  {}

  /** From `m` on only header packets of `s` went in, and `n` of them are in now. */
  predicate HeadersOn(inv: Invariant, m: Mux, m': Mux, s: StreamInfo, n: nat)
  {
    && inv(m') && AllHold(m') && m'.headerWritten && OthersSame(m, m', s.index)
    && s.index in m'.writers && HeadersIn(m'.writers[s.index], s, n)
  }

  lemma HeaderStep(inv: Invariant, m: Mux, s: StreamInfo, n: nat)
    requires Stable(inv) && HeadersOn(inv, m, m, s, n) && n < |s.headers|
    ensures HeadersOn(inv, m, WritePacket(m, HeaderPacket(s, s.headers[n])).0, s, n + 1)
  {
    var packet := HeaderPacket(s, s.headers[n]);
    HeaderStamp(m, s, s.headers[n], n);
    WriteSeals(inv, m, packet);
    HeaderIn(inv, m, WritePacket(m, packet).0, s, n);
    TakenElsewhere(inv, m, WritePacket(m, packet).0, packet, 0);
  }

  lemma HeadersOnSelf(inv: Invariant, m0: Mux, m: Mux, s: StreamInfo, n: nat)
    requires HeadersOn(inv, m0, m, s, n)
    ensures HeadersOn(inv, m, m, s, n)
  {}

  lemma HeadersOnTrans(inv: Invariant, m: Mux, m1: Mux, m2: Mux, s: StreamInfo, n: nat, n': nat)
    requires HeadersOn(inv, m, m1, s, n) && HeadersOn(inv, m1, m2, s, n')
    ensures HeadersOn(inv, m, m2, s, n')
  {
    OthersSameTrans(m, m1, m2, s.index);
  }

  lemma WriteHeadersSnoc(m: Mux, s: StreamInfo, packets: seq<Packet>, m1: Mux, packet: Packet)
    requires packets != [] && m1 == WriteHeaders(m, s, packets[..|packets| - 1]) && packet == packets[|packets| - 1]
    ensures WriteHeaders(m, s, packets) == WritePacket(m1, HeaderPacket(s, packet)).0
  {}

  /** One header packet after others. */
  lemma HeaderMore(inv: Invariant, m: Mux, m1: Mux, s: StreamInfo, n: nat, packet: Packet, n': nat, m2: Mux)
    requires Stable(inv) && HeadersOn(inv, m, m1, s, n) && n < |s.headers| && packet == s.headers[n] && n' == n + 1
    requires m2 == WritePacket(m1, HeaderPacket(s, packet)).0
    ensures HeadersOn(inv, m, m2, s, n')
  {
    HeadersOnSelf(inv, m, m1, s, n);
    HeaderStep(inv, m1, s, n);
    HeadersOnTrans(inv, m, m1, WritePacket(m1, HeaderPacket(s, s.headers[n])).0, s, n, n + 1);
  }

  lemma HeadersMore(inv: Invariant, m: Mux, m1: Mux, s: StreamInfo, packets: seq<Packet>, n: nat, n': nat)
    requires Stable(inv) && HeadersOn(inv, m, m1, s, n) && n < |s.headers| && n' == n + 1
    requires packets != [] && m1 == WriteHeaders(m, s, packets[..|packets| - 1])
    requires packets[|packets| - 1] == s.headers[n]
    ensures HeadersOn(inv, m, WriteHeaders(m, s, packets), s, n')
  {
    WriteHeadersSnoc(m, s, packets, m1, s.headers[n]);
    HeaderMore(inv, m, m1, s, n, s.headers[n], n', WriteHeaders(m, s, packets));
  }

  /** The first `n` header packets, the first one already out on the BOS page. */
  function Rest(s: StreamInfo, n: nat): seq<Packet>
    requires 1 <= n <= |s.headers|
  {
    s.headers[1..n]
  }

  lemma RestSnoc(s: StreamInfo, n: nat, n': nat)
    requires 1 <= n < |s.headers| && n' == n + 1
    ensures var r := Rest(s, n'); r != [] && r[..|r| - 1] == Rest(s, n) && r[|r| - 1] == s.headers[n]
  {}

  lemma {:induction false} HeadersTaken(inv: Invariant, m: Mux, s: StreamInfo, n: nat)
    requires Stable(inv) && HeadersOn(inv, m, m, s, 1) && 1 <= n <= |s.headers|
    ensures HeadersOn(inv, m, WriteHeaders(m, s, Rest(s, n)), s, n)
    decreases n
  {
    if n > 1 {
      var k := n - 1;
      HeadersTaken(inv, m, s, k);
      RestSnoc(s, k, n);
      HeadersMore(inv, m, WriteHeaders(m, s, Rest(s, k)), s, Rest(s, n), k, n);
    }
  }

  // ----- all streams -----

  function HeadersExpected(s: StreamInfo, done: seq<StreamInfo>): nat { if s in done then |s.headers| else 1 }

  /** The streams in `done` have all their header packets, the others their first. */
  predicate HeadersPhase(inv: Invariant, m: Mux, infos: seq<StreamInfo>, done: seq<StreamInfo>)
  {
    && inv(m) && AllHold(m) && m.headerWritten && Covered(m.writers, infos)
    && AllHeadersIn(m.writers, infos, done)
  }

  lemma SameHeaders(w: StreamWriter, w': StreamWriter, s: StreamInfo, n: nat)
    requires HeadersIn(w, s, n) && SameHistory(w, w')
    ensures HeadersIn(w', s, n)
  {}

  lemma ExpectedSnoc(infos: seq<StreamInfo>, done: seq<StreamInfo>, s: StreamInfo, t: StreamInfo)
    requires DistinctIndices(infos) && s in infos && t in infos
    ensures t.index == s.index ==> t == s
    ensures HeadersExpected(t, done + [s]) == if t.index == s.index then |s.headers| else HeadersExpected(t, done)
  {
    if t.index == s.index {
      MemberIndex(infos, s, t);
    }
  }

  predicate AllHeadersIn(writers: map<u32, StreamWriter>, infos: seq<StreamInfo>, done: seq<StreamInfo>)
  {
    forall s :: s in infos ==> s.index in writers && HeadersIn(writers[s.index], s, HeadersExpected(s, done))
  }

  lemma HeadersElsewhere(m: Mux, m': Mux, infos: seq<StreamInfo>, done: seq<StreamInfo>, s: StreamInfo)
    requires AllHeadersIn(m.writers, infos, done) && DistinctIndices(infos) && s in infos
    requires OthersSame(m, m', s.index) && s.index in m'.writers && HeadersIn(m'.writers[s.index], s, |s.headers|)
    ensures AllHeadersIn(m'.writers, infos, done + [s])
  {
    forall t | t in infos
      ensures t.index in m'.writers && HeadersIn(m'.writers[t.index], t, HeadersExpected(t, done + [s]))
    {
      ExpectedSnoc(infos, done, s, t);
      if t.index != s.index {
        SameHeaders(m.writers[t.index], m'.writers[t.index], t, HeadersExpected(t, done));
      }
    }
  }

  lemma FirstIn(inv: Invariant, m: Mux, infos: seq<StreamInfo>, done: seq<StreamInfo>, s: StreamInfo)
    requires HeadersPhase(inv, m, infos, done) && s in infos && s !in done
    ensures HeadersOn(inv, m, m, s, 1)
  {
    assert HeadersExpected(s, done) == 1;
  }

  lemma RestIsTail(s: StreamInfo)
    requires |s.headers| > 0
    ensures Rest(s, |s.headers|) == s.headers[1..]
  {}

  lemma RestOfHeaders(inv: Invariant, m: Mux, infos: seq<StreamInfo>, done: seq<StreamInfo>, s: StreamInfo)
    requires Stable(inv) && HeadersPhase(inv, m, infos, done) && s in infos && s !in done && |s.headers| > 0
    ensures HeadersOn(inv, m, WriteHeaders(m, s, s.headers[1..]), s, |s.headers|)
  {
    FirstIn(inv, m, infos, done, s);
    RestIsTail(s);
    HeadersTaken(inv, m, s, |s.headers|);
  }

  lemma HeadersStep(inv: Invariant, m: Mux, infos: seq<StreamInfo>, done: seq<StreamInfo>, s: StreamInfo, m': Mux)
    requires Stable(inv) && HeadersPhase(inv, m, infos, done) && DistinctIndices(infos) && s in infos && s !in done
    requires |s.headers| > 0 && m' == WriteHeaders(m, s, s.headers[1..])
    ensures HeadersPhase(inv, m', infos, done + [s])
    ensures m' == m.(writers := m'.writers, wire := m'.wire, released := m'.released)
  {
    RestOfHeaders(inv, m, infos, done, s);
    HeadersElsewhere(m, m', infos, done, s);
  }

  lemma {:induction false} HeadersAll(inv: Invariant, m: Mux, infos: seq<StreamInfo>, todo: seq<StreamInfo>)
    requires Stable(inv) && HeadersPhase(inv, m, infos, []) && DistinctIndices(infos)
    requires DistinctIndices(todo) && forall s :: s in todo ==> s in infos && UsableStream(s)
    ensures var m' := WriteAllHeaders(m, todo);
            && HeadersPhase(inv, m', infos, todo)
            && m' == m.(writers := m'.writers, wire := m'.wire, released := m'.released)
  {
    if todo != [] {
      var front, s := todo[..|todo| - 1], todo[|todo| - 1];
      SplitLast(todo);
      DistinctFront(front, s);
      HeadersAll(inv, m, infos, front);
      HeadersStep(inv, WriteAllHeaders(m, front), infos, front, s, WriteAllHeaders(m, todo));
    }
  }

  lemma OpenedHeader(w: StreamWriter, s: StreamInfo)
    requires Opening(w, s, true)
    ensures HeadersIn(w, s, 1)
  {
    assert s.headers[..1] == [s.headers[0]] && [] + [s.headers[0]] == [s.headers[0]];
  }

  lemma OpenedHeaders(writers: map<u32, StreamWriter>, infos: seq<StreamInfo>, begun: seq<StreamInfo>)
    requires BosOut(writers, infos, begun) && forall s :: s in infos ==> s in begun
    ensures AllHeadersIn(writers, infos, [])
  {
    forall s | s in infos
      ensures s.index in writers && HeadersIn(writers[s.index], s, HeadersExpected(s, []))
    {
      OpenedHeader(writers[s.index], s);
    }
  }

  /** What a finished header section leaves: every header packet on the wire, nothing queued. */
  ghost predicate SectionDone(m: Mux, infos: seq<StreamInfo>, links: nat, bos: nat)
  {
    && Good(m, links, bos) && AllHold(m) && m.headerWritten && m.released == [] && Covered(m.writers, infos)
    && (forall s :: s in infos ==> s.index in m.writers && HeadersIn(m.writers[s.index], s, |s.headers|))
    && forall i :: i in m.writers && i in m.order ==> m.writers[i].queue == []
  }

  lemma DrainHeaders(m: Mux, infos: seq<StreamInfo>, done: seq<StreamInfo>, links: nat, bos: nat)
    requires HeadersPhase(GoodFor(links, bos), m, infos, done) && forall s :: s in infos ==> s in done
    ensures SectionDone(DrainAll(m).(released := []), infos, links, bos)
    ensures var m' := DrainAll(m); m' == m.(writers := m'.writers, wire := m'.wire, released := m'.released)
  {
    var m' := DrainAll(m);
    DrainGood(m, links, bos);
    DrainMoves(m);
    DrainEmpties(m);
    forall i | i in m'.writers
      ensures HoldsPackets(m'.writers[i])
    {
      QueueIsAside(m.writers[i], m'.writers[i].queue, AllPacketSegs(m.writers[i].packets));
    }
    forall s | s in infos
      ensures s.index in m'.writers && HeadersIn(m'.writers[s.index], s, |s.headers|)
    {
      SameHeaders(m.writers[s.index], m'.writers[s.index], s, HeadersExpected(s, done));
    }
  }

  /** The BOS pages of every stream, in the order headers go out. */
  lemma SectionOpened(m: Mux, ordered: seq<StreamInfo>, links: nat, bos: nat)
    requires Usable(m.infos) && ordered == HeaderOrder(m.infos) && BosPhase(m, m.infos, [], links, bos)
    requires m.headerWritten
    ensures var m' := WriteAllBos(m, ordered);
            && HeadersPhase(GoodFor(links + 1, bos + |m.infos|), m', m.infos, [])
            && m' == m.(writers := m'.writers, wire := m'.wire)
  {
    HeaderOrderMeaning(m.infos);
    var m' := WriteAllBos(m, ordered);
    BosAll(m, m.infos, ordered, links, bos);
    BosDone(m', m.infos, ordered, links, bos);
    OpenedHeaders(m'.writers, m.infos, ordered);
  }

  lemma SectionFilled(m: Mux, infos: seq<StreamInfo>, ordered: seq<StreamInfo>, links: nat, bos: nat)
    requires Usable(infos) && ordered == HeaderOrder(infos) && HeadersPhase(GoodFor(links, bos), m, infos, [])
    ensures var m' := WriteAllHeaders(m, ordered);
            && HeadersPhase(GoodFor(links, bos), m', infos, ordered)
            && m' == m.(writers := m'.writers, wire := m'.wire, released := m'.released)
  {
    HeaderOrderMeaning(infos);
    forall s | s in ordered
      ensures s in infos && UsableStream(s)
    {
      var k :| 0 <= k < |infos| && infos[k] == s;
    }
    GoodStable(links, bos);
    HeadersAll(GoodFor(links, bos), m, infos, ordered);
  }

  /** From fresh writers on, the header section opens one link more and one stream more per declared stream. */
  lemma SectionWritten(m: Mux, links: nat, bos: nat)
    requires Usable(m.infos) && BosPhase(m.(headerWritten := true), m.infos, [], links, bos)
    ensures var m' := HeaderSection(m);
            && SectionDone(m', m.infos, links + 1, bos + |m.infos|)
            && m' == m.(headerWritten := true, writers := m'.writers, wire := m'.wire, released := [])
  {
    var ordered := HeaderOrder(m.infos);
    var m1 := WriteAllBos(m.(headerWritten := true), ordered);
    SectionOpened(m.(headerWritten := true), ordered, links, bos);
    SectionFilled(m1, m.infos, ordered, links + 1, bos + |m.infos|);
    HeaderOrderMeaning(m.infos);
    DrainHeaders(WriteAllHeaders(m1, ordered), m.infos, ordered, links + 1, bos + |m.infos|);
  }
}
