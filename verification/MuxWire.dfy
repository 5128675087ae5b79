/**
 What the wire holds at every moment of a run, whatever the granules: pages in order, each stream's
 pages as they were cut, none lost and none repeated.
 */
module MuxWire {
  import opened Bytes
  import opened Pages
  import opened Segments
  import opened Grammar
  import opened Paging
  import opened Muxing
  import D = Decision

  function PagesOf(queue: seq<Pending>): (r: seq<Page>)
    ensures |r| == |queue| && forall k :: 0 <= k < |r| ==> r[k] == queue[k].page
  {
    seq(|queue|, k requires 0 <= k < |queue| => queue[k].page)
  }

  /** Pages that serialize and follow each other without a break, none continuing a packet with no segment. */
  predicate Fitting(q: seq<Page>)
  {
    Unbroken(q) && AllWellFormed(q) && forall k :: 0 <= k < |q| && q[k].lacing == [] ==> !IsContinued(q[k])
  }

  /** The first page completes a packet. */
  predicate StartsWhole(q: seq<Page>) { q != [] ==> Completes(q[0].lacing) }

  /** A page that serializes and, if it has no segment, neither continues a packet nor opens a stream. */
  predicate Neat(p: Page) { WellFormed(p) && (p.lacing == [] ==> !IsContinued(p) && !IsFirst(p)) }

  predicate AllNeat(wire: seq<Page>) { forall k :: 0 <= k < |wire| ==> Neat(wire[k]) }

  /** A stream's pages are those on the wire, then those queued; only its BOS page bypasses the queue. */
  predicate Carried(wire: seq<Page>, w: StreamWriter)
  {
    && Proj(wire, w.serial) + PagesOf(w.queue) == w.cut
    && Fitting(w.cut) && StartsWhole(w.cut) && (forall k :: 0 <= k < |w.cut| ==> w.cut[k].serial == w.serial)
    && (w.queue != [] ==> Proj(wire, w.serial) != [])
  }

  predicate OwnSerials(writers: map<u32, StreamWriter>)
  {
    forall i, j :: i in writers && j in writers && i != j ==> writers[i].serial != writers[j].serial
  }

  predicate Live(writers: map<u32, StreamWriter>, s: u32) { exists i :: i in writers && writers[i].serial == s }

  ghost predicate EndedOrLive(wire: seq<Page>, writers: map<u32, StreamWriter>)
  {
    forall s :: Proj(wire, s) == [] || Closed(Proj(wire, s)) || Live(writers, s)
  }

  /** The wire is in order and carries every stream's pages, and only unfinished streams are open on it. */
  ghost predicate Sound(wire: seq<Page>, writers: map<u32, StreamWriter>)
  {
    && Orderly(wire) && AllNeat(wire)
    && OwnSerials(writers)
    && (forall i :: i in writers ==> Carried(wire, writers[i]))
    && EndedOrLive(wire, writers)
  }

  // ----- changes to one writer -----

  lemma LiveAfter(writers: map<u32, StreamWriter>, i: u32, w: StreamWriter, s: u32)
    requires i in writers && w.serial == writers[i].serial
    ensures Live(writers[i := w], s) == Live(writers, s)
  {
    if Live(writers, s) {
      var j :| j in writers && writers[j].serial == s;
      assert j in writers[i := w] && writers[i := w][j].serial == s;
    }
    if Live(writers[i := w], s) {
      var j :| j in writers[i := w] && writers[i := w][j].serial == s;
      assert j in writers && writers[j].serial == s;
    }
  }

  lemma LiveStays(wire: seq<Page>, writers: map<u32, StreamWriter>, i: u32, w: StreamWriter)
    requires EndedOrLive(wire, writers) && OwnSerials(writers) && i in writers && w.serial == writers[i].serial
    ensures EndedOrLive(wire, writers[i := w]) && OwnSerials(writers[i := w]) && Live(writers[i := w], w.serial)
  {
    assert i in writers[i := w] && writers[i := w][i].serial == w.serial;
    forall s
      ensures Proj(wire, s) == [] || Closed(Proj(wire, s)) || Live(writers[i := w], s)
    {
      LiveAfter(writers, i, w, s);
    }
  }

  lemma SoundWith(wire: seq<Page>, writers: map<u32, StreamWriter>, i: u32, w: StreamWriter)
    requires Sound(wire, writers) && i in writers && w.serial == writers[i].serial && Carried(wire, w)
    ensures Sound(wire, writers[i := w])
  {
    LiveStays(wire, writers, i, w);
  }

  // ----- a page to the wire -----

  lemma NextPageFollows(sent: seq<Page>, p: Page, rest: seq<Page>)
    requires Unbroken(sent + [p] + rest)
    ensures Continues(sent, p)
  {
    UnbrokenOfPrefix(sent + [p] + rest, |sent| + 1);
    assert (sent + [p] + rest)[..|sent| + 1] == sent + [p];
    UnbrokenSnoc(sent, p);
  }

  lemma PopAccepted(wire: seq<Page>, w: StreamWriter)
    requires Carried(wire, w) && w.queue != []
    ensures var p := w.queue[0].page;
            p.serial == w.serial && Admits(wire, p) && !IsFirst(p) && Neat(p)
  {
    var sent, p := Proj(wire, w.serial), w.queue[0].page;
    assert w.cut == sent + [p] + PagesOf(w.queue[1..]);
    assert w.cut[|sent|] == p;
    NextPageFollows(sent, p, PagesOf(w.queue[1..]));
  }

  lemma PopCarried(wire: seq<Page>, w: StreamWriter)
    requires Carried(wire, w) && w.queue != []
    ensures Carried(wire + [w.queue[0].page], w.(queue := w.queue[1..]))
  {
    var sent, p := Proj(wire, w.serial), w.queue[0].page;
    assert w.cut == sent + [p] + PagesOf(w.queue[1..]);
    assert w.cut[|sent|] == p;
    ProjSnoc(wire, p, w.serial);
  }

  lemma ElsewhereCarried(wire: seq<Page>, p: Page, w: StreamWriter)
    requires Carried(wire, w) && p.serial != w.serial
    ensures Carried(wire + [p], w)
  {
    ProjSnoc(wire, p, w.serial);
    PlusNil(Proj(wire, w.serial));
  }

  lemma StillEndedOrLive(wire: seq<Page>, writers: map<u32, StreamWriter>, p: Page)
    requires EndedOrLive(wire, writers) && Live(writers, p.serial)
    ensures EndedOrLive(wire + [p], writers)
  {
    forall s
      ensures Proj(wire + [p], s) == [] || Closed(Proj(wire + [p], s)) || Live(writers, s)
    {
      ProjSnoc(wire, p, s);
      PlusNil(Proj(wire, s));
    }
  }

  lemma EveryCarried(wire: seq<Page>, writers: map<u32, StreamWriter>, i: u32, p: Page, w: StreamWriter,
          writers': map<u32, StreamWriter>)
    requires OwnSerials(writers) && (forall j :: j in writers ==> Carried(wire, writers[j]))
    requires i in writers && p.serial == writers[i].serial && Carried(wire + [p], w) && writers' == writers[i := w]
    ensures forall j :: j in writers' ==> Carried(wire + [p], writers'[j])
  {
    forall j | j in writers'
      ensures Carried(wire + [p], writers'[j])
    {
      if j != i {
        ElsewhereCarried(wire, p, writers[j]);
      }
    }
  }

  lemma NeatSnoc(wire: seq<Page>, p: Page)
    requires AllNeat(wire) && Neat(p)
    ensures AllNeat(wire + [p])
  {}

  /** A page of stream `i` that the wire admits and the stream's new writer accounts for. */
  lemma SoundSnoc(wire: seq<Page>, writers: map<u32, StreamWriter>, i: u32, p: Page, w: StreamWriter)
    requires Sound(wire, writers) && i in writers && p.serial == w.serial == writers[i].serial
    requires Admits(wire, p) && Neat(p) && Carried(wire + [p], w)
    ensures Sound(wire + [p], writers[i := w])
  {
    OrderlySnoc(wire, p);
    NeatSnoc(wire, p);
    EveryCarried(wire, writers, i, p, w, writers[i := w]);
    LiveStays(wire, writers, i, w);
    StillEndedOrLive(wire, writers[i := w], p);
  }

  lemma PopSound(wire: seq<Page>, writers: map<u32, StreamWriter>, i: u32)
    requires Sound(wire, writers) && i in writers && writers[i].queue != []
    ensures var w := writers[i];
            Sound(wire + [w.queue[0].page], writers[i := w.(queue := w.queue[1..])])
  {
    var w := writers[i];
    PopAccepted(wire, w);
    PopCarried(wire, w);
    SoundSnoc(wire, writers, i, w.queue[0].page, w.(queue := w.queue[1..]));
  }

  // ----- what releasing keeps -----

  predicate Begun(wire: seq<Page>, writers: map<u32, StreamWriter>)
  {
    forall i :: i in writers ==> Proj(wire, writers[i].serial) != []
  }

  predicate LaidAside(past: seq<StreamWriter>, s: u32) { exists k :: 0 <= k < |past| && past[k].serial == s }

  /** Every serial on the wire is that of a stream of this link or of one finished. */
  ghost predicate AllKnown(wire: seq<Page>, writers: map<u32, StreamWriter>, past: seq<StreamWriter>)
  {
    forall s: u32 :: Proj(wire, s) != [] ==> Live(writers, s) || LaidAside(past, s)
  }

  /** Finished streams are whole on the wire, none of their serials is in use again, and all serials are noted. */
  ghost predicate PastKept(wire: seq<Page>, writers: map<u32, StreamWriter>, past: seq<StreamWriter>, used: set<u32>)
  {
    && (forall s :: Proj(wire, s) != [] ==> s in used)
    && (forall i :: i in writers ==> writers[i].serial in used)
    && (forall k :: 0 <= k < |past| ==> Proj(wire, past[k].serial) == past[k].cut && past[k].serial in used)
    && (forall k, i :: 0 <= k < |past| && i in writers ==> past[k].serial != writers[i].serial)
    && AllKnown(wire, writers, past)
  }

  predicate Tally(wire: seq<Page>, links: nat, bos: nat)
  {
    |Links(wire)| == links && D.BosCount(wire) == bos
  }

  /** The standing invariant, once every stream of the link has its BOS page on the wire. */
  ghost predicate Good(m: Mux, links: nat, bos: nat)
  {
    && Sound(m.wire, m.writers) && Begun(m.wire, m.writers)
    && PastKept(m.wire, m.writers, m.past, m.used)
    && Tally(m.wire, links, bos)
  }

  lemma PopCounts(wire: seq<Page>, p: Page, links: nat, bos: nat)
    requires wire != [] && !IsFirst(p) && Tally(wire, links, bos)
    ensures Tally(wire + [p], links, bos)
  {
    D.LinksSnoc(wire, p);
  }

  lemma ProjElsewhere(wire: seq<Page>, p: Page, s: u32)
    requires p.serial != s
    ensures Proj(wire + [p], s) == Proj(wire, s)
  {
    ProjSnoc(wire, p, s);
    PlusNil(Proj(wire, s));
  }

  lemma KnownSnoc(wire: seq<Page>, writers: map<u32, StreamWriter>, past: seq<StreamWriter>, i: u32, p: Page)
    requires AllKnown(wire, writers, past) && i in writers && p.serial == writers[i].serial
    ensures AllKnown(wire + [p], writers, past)
  {
    assert Live(writers, p.serial);
    forall s: u32 | Proj(wire + [p], s) != []
      ensures Live(writers, s) || LaidAside(past, s)
    {
      if p.serial != s {
        ProjElsewhere(wire, p, s);
      }
    }
  }

  lemma KnownWith(wire: seq<Page>, writers: map<u32, StreamWriter>, past: seq<StreamWriter>, i: u32, w: StreamWriter)
    requires AllKnown(wire, writers, past) && i in writers && w.serial == writers[i].serial
    ensures AllKnown(wire, writers[i := w], past)
  {
    forall s: u32 | Proj(wire, s) != []
      ensures Live(writers[i := w], s) || LaidAside(past, s)
    {
      LiveAfter(writers, i, w, s);
    }
  }

  lemma PastSnoc(wire: seq<Page>, writers: map<u32, StreamWriter>, past: seq<StreamWriter>, used: set<u32>, i: u32,
          p: Page)
    requires PastKept(wire, writers, past, used) && i in writers && p.serial == writers[i].serial
    ensures PastKept(wire + [p], writers, past, used)
  {
    KnownSnoc(wire, writers, past, i, p);
    forall s
      ensures p.serial != s ==> Proj(wire + [p], s) == Proj(wire, s)
    {
      if p.serial != s {
        ProjElsewhere(wire, p, s);
      }
    }
  }

  lemma PastWith(wire: seq<Page>, writers: map<u32, StreamWriter>, past: seq<StreamWriter>, used: set<u32>, i: u32,
          w: StreamWriter)
    requires PastKept(wire, writers, past, used) && i in writers && w.serial == writers[i].serial
    ensures PastKept(wire, writers[i := w], past, used)
  {
    KnownWith(wire, writers, past, i, w);
  }

  lemma BegunSnoc(wire: seq<Page>, writers: map<u32, StreamWriter>, i: u32, w: StreamWriter, p: Page)
    requires Begun(wire, writers) && i in writers && w.serial == writers[i].serial
    ensures Begun(wire + [p], writers[i := w]) && Begun(wire, writers[i := w])
  {
    var writers' := writers[i := w];
    forall j | j in writers'
      ensures Proj(wire + [p], writers'[j].serial) != []
    {
      ProjSnoc(wire, p, writers'[j].serial);
    }
  }

  lemma GoodPop(m: Mux, i: u32, links: nat, bos: nat)
    requires Good(m, links, bos) && i in m.writers && m.writers[i].queue != []
    ensures Good(Pop(m, i), links, bos)
  {
    var w := m.writers[i];
    var p := w.queue[0].page;
    PopAccepted(m.wire, w);
    PopSound(m.wire, m.writers, i);
    PopCounts(m.wire, p, links, bos);
    PastSnoc(m.wire, m.writers, m.past, m.used, i, p);
    PastWith(m.wire + [p], m.writers, m.past, m.used, i, w.(queue := w.queue[1..]));
    BegunSnoc(m.wire, m.writers, i, w.(queue := w.queue[1..]), p);
  }

  lemma GoodWith(m: Mux, i: u32, w: StreamWriter, links: nat, bos: nat)
    requires Good(m, links, bos) && i in m.writers && w.serial == m.writers[i].serial && Carried(m.wire, w)
    ensures Good(With(m, i, w), links, bos)
  {
    SoundWith(m.wire, m.writers, i, w);
    PastWith(m.wire, m.writers, m.past, m.used, i, w);
    BegunSnoc(m.wire, m.writers, i, w, BosPage(w, []));
  }

  /** Pages have left queues and nothing else has changed. */
  predicate OnlyMoved(m: Mux, m': Mux)
  {
    && m' == m.(writers := m'.writers, wire := m'.wire, released := m'.released)
    && m'.writers.Keys == m.writers.Keys
    && forall i :: i in m.writers ==> m'.writers[i] == m.writers[i].(queue := m'.writers[i].queue)
  }

  /** Whatever releasing one queued page keeps, releasing many keeps. */
  ghost predicate KeptByPop(inv: Mux -> bool)
  {
    forall m: Mux, i: u32 {:trigger Pop(m, i)} ::
      i in m.writers && m.writers[i].queue != [] && inv(m) ==> inv(Pop(m, i))
  }

  lemma {:induction false} ReleaseKeeps(inv: Mux -> bool, m: Mux)
    requires KeptByPop(inv) && inv(m)
    ensures inv(Release(m))
    decreases Queued(m.writers, m.order)
  {
    var best := Best(m.writers, m.order, 1);
    if best.Some? && Settled(m, best.value, m.writers[best.value].queue[0].time) {
      PopShrinks(m.writers, m.order, best.value, Pop(m, best.value).writers[best.value]);
      ReleaseKeeps(inv, Pop(m, best.value));
    }
  }

  lemma {:induction false} DrainKeeps(inv: Mux -> bool, m: Mux)
    requires KeptByPop(inv) && inv(m)
    ensures inv(DrainAll(m))
    decreases Queued(m.writers, m.order)
  {
    var best := Best(m.writers, m.order, 0);
    if best.Some? {
      PopShrinks(m.writers, m.order, best.value, Pop(m, best.value).writers[best.value]);
      DrainKeeps(inv, Pop(m, best.value));
    }
  }

  lemma {:induction false} BestExists(writers: map<u32, StreamWriter>, order: seq<u32>, held: nat)
    ensures Best(writers, order, held).None? ==> forall i :: i in order && i in writers ==> |writers[i].queue| <= held
  {
    if order != [] {
      BestExists(writers, order[..|order| - 1], held);
      assert order == order[..|order| - 1] + [order[|order| - 1]];
    }
  }

  lemma {:induction false} DrainEmpties(m: Mux)
    ensures DrainAll(m).order == m.order
    ensures forall i :: i in m.order && i in m.writers ==> DrainAll(m).writers[i].queue == []
    decreases Queued(m.writers, m.order)
  {
    var best := Best(m.writers, m.order, 0);
    BestExists(m.writers, m.order, 0);
    if best.Some? {
      PopShrinks(m.writers, m.order, best.value, Pop(m, best.value).writers[best.value]);
      DrainEmpties(Pop(m, best.value));
    }
  }

  ghost function GoodFor(links: nat, bos: nat): Mux -> bool { m => Good(m, links, bos) }

  function MovedFrom(m: Mux): Mux -> bool { m' => OnlyMoved(m, m') }

  lemma GoodKept(links: nat, bos: nat)
    ensures KeptByPop(GoodFor(links, bos))
  {
    forall m: Mux, i: u32 | i in m.writers && m.writers[i].queue != [] && Good(m, links, bos)
      ensures Good(Pop(m, i), links, bos)
    {
      GoodPop(m, i, links, bos);
    }
  }

  lemma MovedKept(m: Mux)
    ensures KeptByPop(MovedFrom(m))
  {
    forall m': Mux, i: u32 | i in m'.writers && m'.writers[i].queue != [] && OnlyMoved(m, m')
      ensures OnlyMoved(m, Pop(m', i))
    {}
  }

  lemma ReleaseMoves(m: Mux)
    ensures OnlyMoved(m, Release(m))
  {
    MovedKept(m);
    ReleaseKeeps(MovedFrom(m), m);
  }

  lemma DrainMoves(m: Mux)
    ensures OnlyMoved(m, DrainAll(m))
  {
    MovedKept(m);
    DrainKeeps(MovedFrom(m), m);
  }

  lemma ReleaseGood(m: Mux, links: nat, bos: nat)
    requires Good(m, links, bos)
    ensures Good(Release(m), links, bos)
  {
    GoodKept(links, bos);
    ReleaseKeeps(GoodFor(links, bos), m);
  }

  lemma DrainGood(m: Mux, links: nat, bos: nat)
    requires Good(m, links, bos)
    ensures Good(DrainAll(m), links, bos)
  {
    GoodKept(links, bos);
    DrainKeeps(GoodFor(links, bos), m);
  }
}
