/** The release order: within a link's data section pages reach the wire in non-decreasing time. */
module MuxSchedule {
  import opened Bytes
  import opened Pages
  import opened Muxing
  import opened MuxWire
  import opened MuxSteps

  predicate Ascending(queue: seq<Pending>)
  {
    forall j, k :: 0 <= j < k < |queue| ==> queue[j].time <= queue[k].time
  }

  predicate NotBefore(queue: seq<Pending>, t: real) { forall k :: 0 <= k < |queue| ==> t <= queue[k].time }

  /** A stream's queue is in time order and its newest page has the stream's newest time. */
  predicate Paced(w: StreamWriter)
  {
    && Ascending(w.queue)
    && (w.queue != [] ==> w.queue[|w.queue| - 1].time == w.newestTime)
  }

  /** Nothing released so far is later than what is queued. */
  predicate After(released: seq<Pending>, w: StreamWriter)
  {
    released != [] ==> NotBefore(w.queue, released[|released| - 1].time)
  }

  /** Nor later than anything the stream may still bring. */
  predicate Ahead(released: seq<Pending>, w: StreamWriter)
  {
    released != [] ==> released[|released| - 1].time <= w.newestTime
  }

  /** The pages released in this data section are the last ones on the wire. */
  predicate OnWire(wire: seq<Page>, released: seq<Pending>)
  {
    |released| <= |wire| && wire[|wire| - |released|..] == PagesOf(released)
  }

  predicate Queues(m: Mux)
  {
    && Ascending(m.released) && OnWire(m.wire, m.released)
    && forall i :: i in m.writers ==> i in m.order && Paced(m.writers[i]) && After(m.released, m.writers[i])
  }

  /** In a data section: every stream has begun and holds the release order up. */
  predicate Scheduled(m: Mux)
  {
    Queues(m) && forall i :: i in m.writers ==> m.writers[i].bosEmitted && Ahead(m.released, m.writers[i])
  }

  /** The stream chosen has the least front among the queues long enough. */
  lemma {:induction false} BestIsLeast(writers: map<u32, StreamWriter>, order: seq<u32>, held: nat)
    ensures var r := Best(writers, order, held);
            forall i :: i in order && i in writers && |writers[i].queue| > held ==>
              r.Some? && writers[r.value].queue[0].time <= writers[i].queue[0].time
  {
    if order != [] {
      var front, last := order[..|order| - 1], order[|order| - 1];
      BestIsLeast(writers, front, held);
      assert order == front + [last];
    }
  }

  /** Of pages at equal times the one of the stream declared first goes: all streams before it are later. */
  lemma {:induction false} BestIsFirst(writers: map<u32, StreamWriter>, order: seq<u32>, held: nat) returns (p: nat)
    requires Best(writers, order, held).Some?
    ensures var r := Best(writers, order, held).value;
            && p < |order| && order[p] == r
            && forall q :: 0 <= q < p && order[q] in writers && |writers[order[q]].queue| > held ==>
                 writers[r].queue[0].time < writers[order[q]].queue[0].time
  {
    var n := |order| - 1;
    var front, last := order[..n], order[n];
    var best := Best(writers, front, held);
    if best.Some? && Best(writers, order, held) == best {
      p := BestIsFirst(writers, front, held);
    } else {
      p := n;
      BestIsLeast(writers, front, held);
      assert forall q :: 0 <= q < n ==> order[q] in front;
    }
  }

  lemma OnWireSnoc(wire: seq<Page>, released: seq<Pending>, p: Pending)
    requires OnWire(wire, released)
    ensures OnWire(wire + [p.page], released + [p])
  {
    assert PagesOf(released + [p]) == PagesOf(released) + [p.page];
    assert (wire + [p.page])[|wire| - |released|..] == wire[|wire| - |released|..] + [p.page];
  }

  lemma PopAscends(m: Mux, i: u32)
    requires Queues(m) && i in m.writers && m.writers[i].queue != []
    ensures Ascending(Pop(m, i).released) && OnWire(Pop(m, i).wire, Pop(m, i).released)
  {
    OnWireSnoc(m.wire, m.released, m.writers[i].queue[0]);
  }

  lemma TailPaced(w: StreamWriter)
    requires Paced(w) && w.queue != []
    ensures Paced(w.(queue := w.queue[1..])) && NotBefore(w.queue[1..], w.queue[0].time)
    ensures w.queue[0].time <= w.newestTime
  {}

  /** After the least front among all queues goes, everything queued is still not earlier. */
  lemma DrainStep(m: Mux, i: u32)
    requires Queues(m) && Best(m.writers, m.order, 0) == Some(i)
    ensures Queues(Pop(m, i))
  {
    var m' := Pop(m, i);
    BestIsLeast(m.writers, m.order, 0);
    PopAscends(m, i);
    TailPaced(m.writers[i]);
  }

  lemma SettledElsewhere(m: Mux, i: u32, o: u32, t: real)
    requires Scheduled(m) && Best(m.writers, m.order, 1) == Some(i) && t == m.writers[i].queue[0].time
    requires Settled(m, i, t)
    requires o in m.writers && o != i
    ensures NotBefore(m.writers[o].queue, t) && t <= m.writers[o].newestTime
  {
    BestIsLeast(m.writers, m.order, 1);
    assert Paced(m.writers[o]);
  }

  /** A settled page goes: no other stream holds or will bring an earlier one. */
  lemma ReleaseStep(m: Mux, i: u32)
    requires Scheduled(m) && Best(m.writers, m.order, 1) == Some(i) && Settled(m, i, m.writers[i].queue[0].time)
    ensures Scheduled(Pop(m, i))
  {
    var m' := Pop(m, i);
    var t := m.writers[i].queue[0].time;
    PopAscends(m, i);
    TailPaced(m.writers[i]);
    forall o | o in m'.writers
      ensures NotBefore(m'.writers[o].queue, t) && t <= m'.writers[o].newestTime
    {
      if o != i {
        SettledElsewhere(m, i, o, t);
      }
    }
  }

  lemma {:induction false} ReleaseScheduled(m: Mux)
    requires Scheduled(m)
    ensures Scheduled(Release(m))
    decreases Queued(m.writers, m.order)
  {
    var best := Best(m.writers, m.order, 1);
    if best.Some? && Settled(m, best.value, m.writers[best.value].queue[0].time) {
      PopShrinks(m.writers, m.order, best.value, Pop(m, best.value).writers[best.value]);
      ReleaseStep(m, best.value);
      ReleaseScheduled(Pop(m, best.value));
    }
  }

  /** Some started stream has not reached `t` yet. */
  predicate Awaited(m: Mux, t: real)
  {
    exists o :: o in m.order && o in m.writers && m.writers[o].bosEmitted && m.writers[o].newestTime < t
  }

  /** Every page queued in front of another waits for some stream to reach its time. */
  predicate AllAwaited(m: Mux)
  {
    forall i :: i in m.order && i in m.writers && |m.writers[i].queue| > 1 ==> Awaited(m, m.writers[i].queue[0].time)
  }

  lemma AwaitedLater(m: Mux, t: real, t': real)
    requires Awaited(m, t) && t <= t'
    ensures Awaited(m, t')
  {}

  lemma UnsettledIsAwaited(m: Mux, best: u32)
    requires Best(m.writers, m.order, 1) == Some(best) && !Settled(m, best, m.writers[best].queue[0].time)
    ensures AllAwaited(m)
  {
    var t := m.writers[best].queue[0].time;
    BestIsLeast(m.writers, m.order, 1);
    assert Awaited(m, t);
    forall i | i in m.order && i in m.writers && |m.writers[i].queue| > 1
      ensures Awaited(m, m.writers[i].queue[0].time)
    {
      AwaitedLater(m, t, m.writers[i].queue[0].time);
    }
  }

  /** Nothing is held back without need. */
  lemma {:induction false} ReleaseIsMaximal(m: Mux)
    ensures AllAwaited(Release(m))
    decreases Queued(m.writers, m.order)
  {
    var best := Best(m.writers, m.order, 1);
    BestIsLeast(m.writers, m.order, 1);
    if best.Some? {
      if Settled(m, best.value, m.writers[best.value].queue[0].time) {
        PopShrinks(m.writers, m.order, best.value, Pop(m, best.value).writers[best.value]);
        ReleaseIsMaximal(Pop(m, best.value));
      } else {
        UnsettledIsAwaited(m, best.value);
      }
    }
  }

  lemma {:induction false} DrainOrdered(m: Mux)
    requires Queues(m)
    ensures Queues(DrainAll(m))
    decreases Queued(m.writers, m.order)
  {
    var best := Best(m.writers, m.order, 0);
    if best.Some? {
      PopShrinks(m.writers, m.order, best.value, Pop(m, best.value).writers[best.value]);
      DrainStep(m, best.value);
      DrainOrdered(Pop(m, best.value));
    }
  }

  /** A page cut is never earlier than those before it on its stream. */
  lemma CutPaced(released: seq<Pending>, w: StreamWriter)
    requires Paced(w) && After(released, w) && Ahead(released, w)
    ensures var w' := CutAndQueue(w); Paced(w') && After(released, w') && Ahead(released, w') && w'.bosEmitted
  {}

  lemma CutScheduled(m: Mux, i: u32)
    requires Scheduled(m) && i in m.writers
    ensures Scheduled(With(m, i, CutAndQueue(m.writers[i])))
  {
    CutPaced(m.released, m.writers[i]);
  }

  lemma ScheduledRelease()
    ensures KeptByRelease(Scheduled)
  {
    forall m: Mux | Scheduled(m)
      ensures Scheduled(Release(m))
    {
      ReleaseScheduled(m);
    }
  }

  lemma ScheduledCut()
    ensures KeptByCut(Scheduled)
  {
    forall m: Mux, i: u32 | Scheduled(m) && i in m.writers
      ensures Scheduled(With(m, i, CutAndQueue(m.writers[i])))
    {
      CutScheduled(m, i);
    }
  }

  lemma ScheduledUpdate()
    ensures KeptByUpdate(Scheduled)
  {}

  /** The schedule is one of the invariants every packet keeps. */
  lemma ScheduleStable()
    ensures Stable(Scheduled)
  {
    ScheduledRelease();
    ScheduledCut();
    ScheduledUpdate();
  }
}
