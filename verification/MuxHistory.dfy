/** What holds from the start of a link on; above all, that the wire has grown by exactly the pages released. */
module MuxHistory {
  import opened Bytes
  import opened Pages
  import opened Muxing
  import opened MuxWire
  import opened MuxSteps
  import opened MuxClose
  import opened MuxRuns
  import opened MuxTheorems

  /** All the wire holds beyond `base` is what was released. */
  ghost function Grown(base: seq<Page>): Invariant { (m: Mux) => m.wire == base + PagesOf(m.released) }

  lemma PagesSnoc(queue: seq<Pending>, p: Pending)
    ensures PagesOf(queue + [p]) == PagesOf(queue) + [p.page]
  {}

  lemma GrownPop(base: seq<Page>)
    ensures KeptByPop(Grown(base))
  {
    forall m: Mux, i: u32 | i in m.writers && m.writers[i].queue != [] && m.wire == base + PagesOf(m.released)
      ensures Grown(base)(Pop(m, i))
    {
      var p := m.writers[i].queue[0];
      PagesSnoc(m.released, p);
      Assoc(base, PagesOf(m.released), [p.page]);
    }
  }

  lemma GrownRelease(base: seq<Page>)
    ensures KeptByRelease(Grown(base))
  {
    GrownPop(base);
    forall m: Mux | Grown(base)(m)
      ensures Grown(base)(Release(m))
    {
      ReleaseKeeps(Grown(base), m);
    }
  }

  /** Filling, cutting and closing pages leave the wire alone. */
  lemma GrownStable(base: seq<Page>)
    ensures Stable(Grown(base)) && KeptByClose(Grown(base))
  {
    GrownRelease(base);
  }

  /** The muxer as the current link's header section left it. */
  function LinkStart(infos: seq<StreamInfo>, calls: seq<Call>): Mux
    requires |infos| < TWO32
  {
    if calls == [] || calls[|calls| - 1].NewLink? then Muxing.After(infos, calls)
    else LinkStart(infos, calls[..|calls| - 1])
  }

  lemma StartsGrown(m: Mux)
    requires m.released == []
    ensures Grown(m.wire)(m)
  {
    PlusNil(m.wire);
  }

  /** A header section ends with every queue drained and the release order starting afresh. */
  lemma SectionEnds(m: Mux)
    ensures var s := HeaderSection(m);
            s.released == [] && forall i :: i in s.order && i in s.writers ==> s.writers[i].queue == []
  {
    var ordered := HeaderOrder(m.infos);
    DrainEmpties(WriteAllHeaders(WriteAllBos(m.(headerWritten := true), ordered), ordered));
  }

  lemma NewLinkEnds(m: Mux, infos: seq<StreamInfo>)
    requires Running(m) && MayBeginLink(m, infos) && |m.used| + |infos| < TWO32
    ensures var s := BeginLink(m, infos);
            s.released == [] && forall i :: i in s.order && i in s.writers ==> s.writers[i].queue == []
  {
    FinishRuns(m);
    BeginLinkIs(m, FinishLink(m), infos);
    SectionEnds(Rearmed(FinishLink(m), infos));
  }

  /** At a link's start nothing is queued and nothing has been released. */
  lemma {:induction false} StartsEmpty(infos: seq<StreamInfo>, calls: seq<Call>)
    requires WellUsed(infos, calls) && |infos| < TWO32
    ensures var s := LinkStart(infos, calls);
            s.released == [] && forall i :: i in s.order && i in s.writers ==> s.writers[i].queue == []
    ensures Running(LinkStart(infos, calls))
    decreases |calls|
  {
    RunHolds(infos, calls);
    if calls == [] {
      SectionEnds(BeforeHeaders(infos));
    } else {
      var front, call := calls[..|calls| - 1], calls[|calls| - 1];
      if call.NewLink? {
        RunHolds(infos, front);
        NewLinkEnds(Muxing.After(infos, front), call.infos);
      } else {
        StartsEmpty(infos, front);
      }
    }
  }

  ghost predicate KeptByTarget(inv: Invariant)
  {
    forall m: Mux, t: Option<nat> {:trigger m.(pageTarget := t)} :: inv(m) ==> inv(m.(pageTarget := t))
  }

  lemma CallKeeps(inv: Invariant, m: Mux, call: Call)
    requires Stable(inv) && KeptByTarget(inv) && inv(m)
    requires Running(m) && m.headerWritten && UsableCall(m, call) && !call.NewLink?
    ensures inv(Apply(m, call))
  {
    match call
    case Write(packet) =>
      if packet.stream in m.writers {
        WriteSeals(inv, m, packet);
      }
    case SetTarget(_) =>
  }

  /** What holds at a link's start and is kept by every step holds at every moment of the link. */
  lemma {:induction false} SinceLinkStart(inv: Invariant, infos: seq<StreamInfo>, calls: seq<Call>)
    requires WellUsed(infos, calls) && |infos| < TWO32
    requires Stable(inv) && KeptByTarget(inv) && inv(LinkStart(infos, calls))
    ensures inv(Muxing.After(infos, calls))
    decreases |calls|
  {
    if calls != [] && !calls[|calls| - 1].NewLink? {
      var front, call := calls[..|calls| - 1], calls[|calls| - 1];
      RunHolds(infos, front);
      SinceLinkStart(inv, infos, front);
      CallKeeps(inv, Muxing.After(infos, front), call);
    }
  }

  /** ... and when the link is finished. */
  lemma UntilLinkEnd(inv: Invariant, m: Mux)
    requires Running(m) && Stable(inv) && KeptByClose(inv) && KeptByPop(inv) && inv(m)
    ensures inv(FinishLink(m))
  {
    OrderIsDeclared(m);
    ClosesAll(inv, m, m.order);
    DrainKeeps(inv, CloseAll(m, m.order));
  }

  /** The wire is the link's start followed by the pages released since. */
  lemma WireGrows(infos: seq<StreamInfo>, calls: seq<Call>, m: Mux, base: seq<Page>)
    requires WellUsed(infos, calls) && |infos| < TWO32
    requires m == Muxing.After(infos, calls) && base == LinkStart(infos, calls).wire
    ensures m.wire == base + PagesOf(m.released) && FinishLink(m).wire == base + PagesOf(FinishLink(m).released)
  {
    GrownStable(base);
    GrownPop(base);
    StartsEmpty(infos, calls);
    StartsGrown(LinkStart(infos, calls));
    SinceLinkStart(Grown(base), infos, calls);
    RunHolds(infos, calls);
    UntilLinkEnd(Grown(base), m);
  }
}
