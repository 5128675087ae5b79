/** The wire's invariant through packets, and the end of a link: every stream whole and ended. */
module MuxClose {
  import opened Bytes
  import opened Pages
  import opened Segments
  import opened Grammar
  import opened Paging
  import opened Muxing
  import opened MuxWire
  import opened MuxFill
  import opened MuxSteps
  import S = MuxSchedule

  // ----- the wire's invariant is one that packets keep -----

  lemma GoodRelease(links: nat, bos: nat)
    ensures KeptByRelease(GoodFor(links, bos))
  {
    forall m: Mux | Good(m, links, bos)
      ensures Good(Release(m), links, bos)
    {
      ReleaseGood(m, links, bos);
    }
  }

  lemma GoodUpdate(links: nat, bos: nat)
    ensures KeptByUpdate(GoodFor(links, bos))
  {
    forall m: Mux, i: u32, w: StreamWriter | Good(m, links, bos) && i in m.writers && SamePages(m.writers[i], w)
      ensures Good(With(m, i, w), links, bos)
    {
      GoodWith(m, i, w, links, bos);
    }
  }

  lemma GoodCut(links: nat, bos: nat)
    ensures KeptByCut(GoodFor(links, bos))
  {
    forall m: Mux, i: u32 | Good(m, links, bos) && i in m.writers && Fitting(CutAndQueue(m.writers[i]).cut)
      ensures Good(With(m, i, CutAndQueue(m.writers[i])), links, bos)
    {
      CutCarried(m.wire, m.writers[i]);
      GoodWith(m, i, CutAndQueue(m.writers[i]), links, bos);
    }
  }

  lemma GoodFlag(links: nat, bos: nat)
    ensures KeptByFlag(GoodFor(links, bos))
  {}

  lemma GoodStable(links: nat, bos: nat)
    ensures Stable(GoodFor(links, bos))
  {
    GoodRelease(links, bos);
    GoodUpdate(links, bos);
    GoodCut(links, bos);
    GoodFlag(links, bos);
  }

  // ----- closing one stream -----

  /**
   All of the stream's packets are on its pages, the last page says it is the last, and no page on
   which none ends has a granule; stamps in order make it a stream of the grammar.
   */
  predicate Whole(w: StreamWriter)
  {
    && Closed(w.cut) && AllSegs(w.cut) == AllPacketSegs(w.packets) && AllWellFormed(w.cut)
    && w.buffered.lacing == [] && Bare(w.cut) && (InOrder(w.stamps) ==> Prefix(w.cut))
  }

  /** Such a stream, and how its pages begin. */
  predicate Retained(w: StreamWriter) { Whole(w) && Fitting(w.cut) && StartsWhole(w.cut) }

  lemma FlushedHolds(w: StreamWriter)
    requires HoldsPackets(w) && w.buffered.lacing == []
    ensures CutPages(w.cut, w.serial, w.stamps) && AllSegs(w.cut) == AllPacketSegs(w.packets) && !LeftOpen(w.cut)
    ensures Unbroken(w.cut) && AllWellFormed(w.cut)
    ensures forall k :: 0 <= k < |w.cut| ==> !IsLast(w.cut[k]) && w.cut[k].lacing != []
  {
    NothingOpen(w);
    PlusNil(AllSegs(w.cut));
    CutIsUnbroken(w.cut, w.serial, w.stamps);
    CutBasics(w.cut, w.serial, w.stamps);
  }

  /** Before its last page, a stream stamped in order is a prefix of the grammar. */
  lemma FlushedInOrder(w: StreamWriter)
    requires HoldsPackets(w) && w.buffered.lacing == [] && InOrder(w.stamps)
    ensures Prefix(w.cut) && !LeftOpen(w.cut)
  {
    NothingOpen(w);
    CutIsPrefix(w.cut, w.serial, w.stamps);
  }

  function NilPage(w: StreamWriter): Page { Page(LAST_PAGE, w.lastGranule, w.serial, w.seqNo, [], []) }

  lemma NilContinues(w: StreamWriter)
    requires HoldsPackets(w) && w.buffered.lacing == [] && w.cut != []
    ensures Continues(w.cut, NilPage(w))
  {
    NothingOpen(w);
    CutIsUnbroken(w.cut, w.serial, w.stamps);
    ModStep(|w.cut| - 1);
  }

  lemma NilSegs(q: seq<Page>, p: Page)
    requires p.lacing == [] && p.data == []
    ensures AllSegs(q + [p]) == AllSegs(q)
  {
    AllSegsSnoc(q, p);
    PlusNil(AllSegs(q));
  }

  lemma NilUnbroken(w: StreamWriter, q: seq<Page>, p: Page)
    requires HoldsPackets(w) && w.buffered.lacing == [] && q == w.cut != [] && p == NilPage(w)
    ensures Unbroken(q + [p])
  {
    NilContinues(w);
    CutIsUnbroken(w.cut, w.serial, w.stamps);
    UnbrokenSnoc(q, p);
  }

  lemma NilInOrder(w: StreamWriter, q: seq<Page>, p: Page)
    requires HoldsPackets(w) && w.buffered.lacing == [] && q == w.cut != [] && p == NilPage(w) && InOrder(w.stamps)
    ensures Prefix(q + [p])
  {
    NilContinues(w);
    FlushedInOrder(w);
    PrefixSnoc(q, p);
  }

  lemma NilIsLast(w: StreamWriter)
    ensures IsLast(NilPage(w))
  {}

  lemma ClosedSnoc(q: seq<Page>, p: Page)
    requires IsLast(p)
    ensures Closed(q + [p])
  {
    UnSnoc(q, p);
  }

  lemma NilFollows(w: StreamWriter)
    requires HoldsPackets(w) && w.buffered.lacing == [] && w.cut != []
    ensures Unbroken(w.cut + [NilPage(w)]) && Closed(w.cut + [NilPage(w)])
    ensures AllSegs(w.cut + [NilPage(w)]) == AllSegs(w.cut)
  {
    NilIsLast(w);
    ClosedSnoc(w.cut, NilPage(w));
    NilUnbroken(w, w.cut, NilPage(w));
    NilSegs(w.cut, NilPage(w));
  }

  lemma WithEosLacing(q: seq<Page>)
    ensures |WithEos(q)| == |q| && forall k :: 0 <= k < |q| ==> WithEos(q)[k].lacing == q[k].lacing
  {}

  lemma MarkedFits(q: seq<Page>)
    requires Unbroken(q) && AllWellFormed(q) && q != [] && !LeftOpen(q)
    requires forall k :: 0 <= k < |q| ==> q[k].lacing != []
    ensures Fitting(WithEos(q)) && Closed(WithEos(q))
  {
    WithEosUnbroken(q);
    WithEosSegs(q);
    WithEosLacing(q);
  }

  lemma NilFits(w: StreamWriter)
    requires HoldsPackets(w) && w.buffered.lacing == [] && w.cut != []
    ensures Fitting(w.cut + [NilPage(w)])
  {
    FlushedHolds(w);
    NilFollows(w);
  }

  lemma CloseInOrder(w: StreamWriter)
    requires HoldsPackets(w) && w.buffered.lacing == [] && w.cut != [] && InOrder(w.stamps)
    ensures Prefix(Close(w).cut)
  {
    if w.queue != [] {
      FlushedInOrder(w);
      WithEosCloses(w.cut);
    } else {
      FlushedHolds(w);
      NilInOrder(w, w.cut, NilPage(w));
    }
  }

  lemma CloseFits(w: StreamWriter)
    requires HoldsPackets(w) && w.buffered.lacing == [] && w.cut != []
    ensures Closed(Close(w).cut) && AllSegs(Close(w).cut) == AllPacketSegs(w.packets) && AllWellFormed(Close(w).cut)
    ensures Fitting(Close(w).cut) && SameHistory(w, Close(w))
  {
    FlushedHolds(w);
    if w.queue != [] {
      MarkedFits(w.cut);
      WithEosSegs(w.cut);
    } else {
      NilFollows(w);
      NilFits(w);
    }
  }

  lemma MarkedIsBare(q: seq<Page>)
    requires Bare(q)
    ensures Bare(WithEos(q))
  {
    forall k | 0 <= k < |q|
      ensures WithEos(q)[k].lacing == q[k].lacing && WithEos(q)[k].granule == q[k].granule
    {}
  }

  lemma CloseIsBare(w: StreamWriter)
    requires HoldsPackets(w) && w.buffered.lacing == [] && w.cut != []
    ensures Bare(Close(w).cut)
  {
    FlushedHolds(w);
    CutIsBare(w.cut, w.serial, w.stamps);
    if w.queue != [] {
      MarkedIsBare(w.cut);
    } else if w.bosEmitted {
      BareSnoc(w.cut, NilPage(w));
    }
  }

  lemma CloseEnds(w: StreamWriter)
    requires HoldsPackets(w) && w.buffered.lacing == [] && w.cut != []
    ensures Whole(Close(w)) && Fitting(Close(w).cut) && SameHistory(w, Close(w))
  {
    CloseFits(w);
    CloseIsBare(w);
    if InOrder(w.stamps) {
      CloseInOrder(w);
    }
  }

  /** Closing a stream that fits the grammar keeps `inv`. */
  ghost predicate KeptByClose(inv: Invariant)
  {
    forall m: Mux, i: u32 {:trigger With(m, i, Close(m.writers[i]))} ::
      inv(m) && i in m.writers && m.writers[i].bosEmitted && Fitting(Close(m.writers[i]).cut) ==>
        inv(With(m, i, Close(m.writers[i])))
  }

  lemma MarkedQueue(w: StreamWriter, sent: seq<Page>)
    requires sent + PagesOf(w.queue) == w.cut && w.queue != []
    ensures sent + PagesOf(Close(w).queue) == WithEos(w.cut)
  {
    var n := |w.queue| - 1;
    var front, last := PagesOf(w.queue[..n]), w.queue[n].page;
    assert PagesOf(w.queue) == front + [last] && PagesOf(Close(w).queue) == front + [MarkLast(last)];
    Assoc(sent, front, [last]);
    Assoc(sent, front, [MarkLast(last)]);
    UnSnoc(sent + front, last);
  }

  lemma CloseCarried(wire: seq<Page>, w: StreamWriter)
    requires Carried(wire, w) && Proj(wire, w.serial) != [] && w.bosEmitted && Fitting(Close(w).cut)
    ensures Carried(wire, Close(w))
  {
    var sent := Proj(wire, w.serial);
    if w.queue != [] {
      MarkedQueue(w, sent);
      WithEosSerial(w.cut, w.serial);
    } else {
      assert PagesOf(w.queue) == [] && PagesOf(Close(w).queue) == [NilPage(w)];
      PlusNil(sent);
    }
  }

  lemma WithEosSerial(q: seq<Page>, serial: u32)
    requires forall k :: 0 <= k < |q| ==> q[k].serial == serial
    ensures forall k :: 0 <= k < |q| ==> WithEos(q)[k].serial == serial
  {
    forall k | 0 <= k < |q|
      ensures WithEos(q)[k].serial == serial
    {
      assert WithEos(q)[k].serial == q[k].serial;
    }
  }

  lemma GoodClose(links: nat, bos: nat)
    ensures KeptByClose(GoodFor(links, bos))
  {
    forall m: Mux, i: u32 |
      Good(m, links, bos) && i in m.writers && m.writers[i].bosEmitted && Fitting(Close(m.writers[i]).cut)
      ensures Good(With(m, i, Close(m.writers[i])), links, bos)
    {
      CloseCarried(m.wire, m.writers[i]);
      GoodWith(m, i, Close(m.writers[i]), links, bos);
    }
  }

  lemma ScheduledClose()
    ensures KeptByClose(S.Scheduled)
  {
    forall m: Mux, i: u32 | S.Scheduled(m) && i in m.writers && m.writers[i].bosEmitted
      ensures S.Scheduled(With(m, i, Close(m.writers[i])))
    {
      ClosePaced(m.released, m.writers[i]);
    }
  }

  lemma ClosePaced(released: seq<Pending>, w: StreamWriter)
    requires S.Paced(w) && S.After(released, w) && S.Ahead(released, w) && w.bosEmitted
    ensures var w' := Close(w); S.Paced(w') && S.After(released, w') && S.Ahead(released, w') && w'.bosEmitted
  {}

  // ----- closing every stream -----

  /** Every stream has its old packets; those in `closed` are ended, the others still hold theirs. */
  predicate Closing(inv: Invariant, m0: Mux, m: Mux, closed: seq<u32>)
  {
    && inv(m) && m.writers.Keys == m0.writers.Keys
    && m == m0.(writers := m.writers, wire := m.wire, released := m.released)
    && forall i :: i in m0.writers ==>
         && SameHistory(m0.writers[i], m.writers[i])
         && if i in closed then Whole(m.writers[i]) else HoldsPackets(m.writers[i])
  }

  lemma WholeAside(w: StreamWriter, queue: seq<Pending>)
    requires Whole(w)
    ensures Whole(w.(queue := queue))
  {}

  lemma OthersStay(inv: Invariant, m0: Mux, m: Mux, m': Mux, closed: seq<u32>, i: u32, j: u32)
    requires Closing(inv, m0, m, closed) && OthersMoved(m, m', i) && j in m0.writers && j != i
    ensures SameHistory(m0.writers[j], m'.writers[j])
    ensures if j in closed then Whole(m'.writers[j]) else HoldsPackets(m'.writers[j])
  {
    if j in closed {
      WholeAside(m.writers[j], m'.writers[j].queue);
    } else {
      QueueIsAside(m.writers[j], m'.writers[j].queue, AllPacketSegs(m.writers[j].packets));
    }
  }

  /** The page being filled is cut first. */
  lemma FlushForClose(inv: Invariant, m: Mux, i: u32)
    requires Stable(inv) && inv(m) && i in m.writers && HoldsPackets(m.writers[i])
    ensures var m' := if LacingOf(m, i) != [] then Flush(m, i, true) else m;
            Filled(inv, m, m', i, AllPacketSegs(m.writers[i].packets)) && LacingOf(m', i) == []
  {
    if LacingOf(m, i) != [] {
      FlushFills(inv, m, i, true, AllPacketSegs(m.writers[i].packets));
    }
  }

  lemma {:induction false} PacketsHaveSegs(packets: seq<Packet>)
    requires packets != []
    ensures AllPacketSegs(packets) != []
  {
    ConcatFront(AllPacketSegs(packets[..|packets| - 1]), PacketSegs(packets[|packets| - 1]));
  }

  lemma SomePageCut(w: StreamWriter)
    requires HoldsPackets(w) && w.buffered.lacing == [] && w.packets != []
    ensures w.cut != [] && w.bosEmitted
  {
    PacketsHaveSegs(w.packets);
    FlushedHolds(w);
  }

  lemma ClosesOne(inv: Invariant, m: Mux, i: u32)
    requires KeptByClose(inv) && inv(m) && i in m.writers && HoldsPackets(m.writers[i])
    requires m.writers[i].packets != [] && LacingOf(m, i) == []
    ensures var m' := With(m, i, Close(m.writers[i]));
            inv(m') && OthersMoved(m, m', i) && Whole(m'.writers[i]) && SameHistory(m.writers[i], m'.writers[i])
  {
    SomePageCut(m.writers[i]);
    CloseEnds(m.writers[i]);
  }

  lemma StreamCloses(inv: Invariant, m: Mux, i: u32)
    requires Stable(inv) && KeptByClose(inv) && inv(m) && i in m.writers && HoldsPackets(m.writers[i])
    requires m.writers[i].packets != []
    ensures var m' := CloseStream(m, i);
            inv(m') && OthersMoved(m, m', i) && Whole(m'.writers[i]) && SameHistory(m.writers[i], m'.writers[i])
  {
    var m1 := if LacingOf(m, i) != [] then Flush(m, i, true) else m;
    FlushForClose(inv, m, i);
    ClosesOne(inv, m1, i);
    OthersTrans(m, m1, CloseStream(m, i), i);
  }

  lemma ClosingStep(inv: Invariant, m0: Mux, m: Mux, closed: seq<u32>, i: u32)
    requires Stable(inv) && KeptByClose(inv) && Closing(inv, m0, m, closed)
    requires i in m0.writers && i !in closed && m0.writers[i].packets != []
    ensures Closing(inv, m0, CloseStream(m, i), closed + [i])
  {
    var m' := CloseStream(m, i);
    StreamCloses(inv, m, i);
    forall j | j in m0.writers
      ensures SameHistory(m0.writers[j], m'.writers[j])
      ensures if j in closed + [i] then Whole(m'.writers[j]) else HoldsPackets(m'.writers[j])
    {
      if j != i {
        OthersStay(inv, m0, m, m', closed, i, j);
      }
    }
  }

  predicate Distinct(order: seq<u32>) { forall j, k :: 0 <= j < k < |order| ==> order[j] != order[k] }

  predicate AllIn(order: seq<u32>, m: Mux)
  {
    forall k :: 0 <= k < |order| ==> order[k] in m.writers && m.writers[order[k]].packets != []
  }

  lemma FrontOrder(order: seq<u32>, i: u32, m: Mux)
    requires Distinct(order + [i]) && AllIn(order + [i], m)
    ensures Distinct(order) && AllIn(order, m) && i !in order && i in m.writers && m.writers[i].packets != []
  {
    var r := order + [i];
    assert r[|order|] == i;
    forall k | 0 <= k < |order|
      ensures order[k] == r[k] && r[k] != r[|order|]
    {}
  }

  lemma NoneClosed(inv: Invariant, m: Mux)
    requires inv(m) && AllHold(m)
    ensures Closing(inv, m, m, [])
  {}

  lemma {:induction false} ClosesAll(inv: Invariant, m: Mux, order: seq<u32>)
    requires Stable(inv) && KeptByClose(inv) && inv(m) && AllHold(m) && Distinct(order) && AllIn(order, m)
    ensures Closing(inv, m, CloseAll(m, order), order)
  {
    if order == [] {
      NoneClosed(inv, m);
    } else {
      var front, i := order[..|order| - 1], order[|order| - 1];
      SplitLast(order);
      FrontOrder(front, i, m);
      ClosesAll(inv, m, front);
      ClosingStep(inv, m, CloseAll(m, front), front, i);
    }
  }

  // ----- the end of a link -----

  /** Every stream of the link is on the wire whole and ended; its packets are those it was given. */
  predicate LinkDone(m: Mux, m': Mux)
  {
    && m'.writers.Keys == m.writers.Keys
    && m' == m.(writers := m'.writers, wire := m'.wire, released := m'.released)
    && forall i :: i in m.writers ==>
         SameHistory(m.writers[i], m'.writers[i]) && Whole(m'.writers[i]) && m'.writers[i].queue == []
  }

  lemma DrainDone(inv: Invariant, m: Mux, m1: Mux)
    requires Closing(inv, m, m1, m.order) && forall i :: i in m.writers ==> i in m.order
    ensures LinkDone(m, DrainAll(m1))
  {
    DrainMoves(m1);
    DrainEmpties(m1);
    forall i | i in m.writers
      ensures Whole(DrainAll(m1).writers[i])
    {
      WholeAside(m1.writers[i], DrainAll(m1).writers[i].queue);
    }
  }

  /** The streams a muxer writes to are those in its stream order. */
  predicate InOrderOnly(m: Mux)
  {
    Distinct(m.order) && AllIn(m.order, m) && forall i :: i in m.writers ==> i in m.order
  }

  lemma FinishGood(m: Mux, links: nat, bos: nat)
    requires Good(m, links, bos) && AllHold(m) && InOrderOnly(m)
    ensures Good(FinishLink(m), links, bos) && LinkDone(m, FinishLink(m))
  {
    GoodStable(links, bos);
    GoodClose(links, bos);
    ClosesAll(GoodFor(links, bos), m, m.order);
    DrainDone(GoodFor(links, bos), m, CloseAll(m, m.order));
    DrainGood(CloseAll(m, m.order), links, bos);
  }

  lemma FinishOrdered(m: Mux)
    requires S.Scheduled(m) && AllHold(m) && InOrderOnly(m)
    ensures S.Queues(FinishLink(m))
  {
    S.ScheduleStable();
    ScheduledClose();
    ClosesAll(S.Scheduled, m, m.order);
    S.DrainOrdered(CloseAll(m, m.order));
  }

  /** After the last page of a link nothing on the wire is left open. */
  lemma DoneIsClosed(m: Mux, links: nat, bos: nat)
    requires Good(m, links, bos) && forall i :: i in m.writers ==> Whole(m.writers[i]) && m.writers[i].queue == []
    ensures AllClosed(m.wire)
    ensures forall i :: i in m.writers ==> Proj(m.wire, m.writers[i].serial) == m.writers[i].cut
  {
    forall i | i in m.writers
      ensures Proj(m.wire, m.writers[i].serial) == m.writers[i].cut
    {
      assert PagesOf(m.writers[i].queue) == [];
      PlusNil(Proj(m.wire, m.writers[i].serial));
    }
    forall s | Proj(m.wire, s) != []
      ensures Closed(Proj(m.wire, s))
    {
      if Live(m.writers, s) {
        var i :| i in m.writers && m.writers[i].serial == s;
      }
    }
  }
}
