/**
 The header section of a link taken apart: the moment its BOS pages are out and nothing else, and what
 holds from there to the first content packet.
 */
module MuxBirth {
  import opened Bytes
  import opened Muxing
  import opened MuxWire
  import opened MuxFill
  import opened MuxSteps
  import opened MuxLinks
  import opened MuxHeaders
  import opened MuxRuns
  import opened MuxTheorems
  import opened MuxHistory

  /** The BOS page of every stream is out, and no other page of the link. */
  function BosOnly(m: Mux): Mux { WriteAllBos(m.(headerWritten := true), HeaderOrder(m.infos)) }

  /** ... by forgetting what was released. */
  ghost predicate KeptByReset(inv: Invariant)
  {
    forall m: Mux {:trigger m.(released := [])} :: inv(m) ==> inv(m.(released := []))
  }

  ghost predicate Enduring(inv: Invariant) { Stable(inv) && KeptByPop(inv) && KeptByReset(inv) }

  lemma PhaseOf(inv: Invariant, m: Mux, infos: seq<StreamInfo>, links: nat, bos: nat)
    requires HeadersPhase(GoodFor(links, bos), m, infos, []) && inv(m)
    ensures HeadersPhase(inv, m, infos, [])
  {}

  /** The other header packets, and then all of it onto the wire. */
  lemma SectionKeeps(inv: Invariant, m: Mux, links: nat, bos: nat)
    requires Usable(m.infos) && BosPhase(m.(headerWritten := true), m.infos, [], links, bos)
    requires Enduring(inv) && inv(BosOnly(m))
    ensures inv(HeaderSection(m))
  {
    var ordered, m1 := HeaderOrder(m.infos), BosOnly(m);
    SectionOpened(m.(headerWritten := true), ordered, links, bos);
    PhaseOf(inv, m1, m.infos, links + 1, bos + |m.infos|);
    HeaderOrderMeaning(m.infos);
    forall s | s in ordered
      ensures s in m.infos && UsableStream(s)
    {
      UsableEach(m.infos);
    }
    HeadersAll(inv, m1, m.infos, ordered);
    var m2 := WriteAllHeaders(m1, ordered);
    DrainKeeps(inv, m2);
    assert inv(DrainAll(m2).(released := []));
  }

  /** A stream of which only the BOS page is out. */
  predicate Newborn(w: StreamWriter, s: StreamInfo)
  {
    UsableStream(s) && w == BosWritten(NewWriter(s, w.serial), s.headers[0]) && HoldsPackets(w)
  }

  predicate AllNewborn(m: Mux, infos: seq<StreamInfo>)
  {
    Covered(m.writers, infos) && forall s :: s in infos ==> s.index in m.writers && Newborn(m.writers[s.index], s)
  }

  lemma BosIsBirth(m: Mux, links: nat, bos: nat)
    requires Usable(m.infos) && BosPhase(m.(headerWritten := true), m.infos, [], links, bos)
    ensures AllNewborn(BosOnly(m), m.infos)
  {
    var ordered, m0 := HeaderOrder(m.infos), m.(headerWritten := true);
    HeaderOrderMeaning(m.infos);
    BosAll(m0, m.infos, ordered, links, bos);
    BosDone(BosOnly(m), m.infos, ordered, links, bos);
    forall s | s in m.infos
      ensures s.index in BosOnly(m).writers && Newborn(BosOnly(m).writers[s.index], s)
    {
      assert s in ordered && Opening(BosOnly(m).writers[s.index], s, true);
    }
  }

  // ----- the current link -----

  /** The current link when only its BOS pages were out. */
  function Birth(infos: seq<StreamInfo>, calls: seq<Call>): Mux
    requires |infos| < TWO32
  {
    if calls == [] then BosOnly(BeforeHeaders(infos))
    else
      var front, last := calls[..|calls| - 1], calls[|calls| - 1];
      var d := FinishLink(Muxing.After(infos, front));
      if last.NewLink? && |d.used| + |last.infos| < TWO32 then BosOnly(Rearmed(d, last.infos)) else Birth(infos, front)
  }

  lemma RearmedIs(m: Mux, d: Mux, infos: seq<StreamInfo>)
    requires Running(m) && d == FinishLink(m) && MayBeginLink(m, infos) && |m.used| + |infos| < TWO32
    ensures d.used == m.used && BeginLink(m, infos) == HeaderSection(Rearmed(d, infos))
  {
    FinishRuns(m);
    BeginLinkIs(m, d, infos);
  }

  lemma RearmedBegins(m: Mux, d: Mux, infos: seq<StreamInfo>, r: Mux)
    requires Running(m) && d == FinishLink(m) && MayBeginLink(m, infos) && Usable(infos)
    requires |d.used| + |infos| < TWO32 && r == Rearmed(d, infos)
    ensures BosPhase(r.(headerWritten := true), infos, [], LinksOf(m), StreamsOf(m))
  {
    FinishRuns(m);
    OrderIsDeclared(m);
    LinkKept(m, d);
    RearmedFields(m, d, infos, r);
    KnownAside(d, r.past);
    RearmedReady(d, infos, r, LinksOf(m), StreamsOf(m));
  }

  /** What holds when the BOS pages are out, and endures, holds when the link's content begins. */
  lemma {:induction false} StartKeeps(inv: Invariant, infos: seq<StreamInfo>, calls: seq<Call>)
    requires WellUsed(infos, calls) && |infos| < TWO32 && Enduring(inv) && inv(Birth(infos, calls))
    ensures inv(LinkStart(infos, calls))
    decreases |calls|
  {
    if calls == [] {
      OpenReady(infos);
      SectionKeeps(inv, BeforeHeaders(infos), 0, 0);
    } else {
      var front, call := calls[..|calls| - 1], calls[|calls| - 1];
      if call.NewLink? {
        var m := Muxing.After(infos, front);
        RunHolds(infos, front);
        var d := FinishLink(m);
        RearmedIs(m, d, call.infos);
        var r := Rearmed(d, call.infos);
        RearmedBegins(m, d, call.infos, r);
        SectionKeeps(inv, r, LinksOf(m), StreamsOf(m));
      } else {
        StartKeeps(inv, infos, front);
      }
    }
  }

  lemma {:induction false} BornNew(infos: seq<StreamInfo>, calls: seq<Call>)
    requires WellUsed(infos, calls) && |infos| < TWO32
    ensures AllNewborn(Birth(infos, calls), InfosAt(infos, calls))
    decreases |calls|
  {
    if calls == [] {
      OpenReady(infos);
      BosIsBirth(BeforeHeaders(infos), 0, 0);
    } else {
      var front, call := calls[..|calls| - 1], calls[|calls| - 1];
      if call.NewLink? {
        var m := Muxing.After(infos, front);
        RunHolds(infos, front);
        var d := FinishLink(m);
        RearmedIs(m, d, call.infos);
        var r := Rearmed(d, call.infos);
        RearmedBegins(m, d, call.infos, r);
        BosIsBirth(r, LinksOf(m), StreamsOf(m));
      } else {
        BornNew(infos, front);
      }
    }
  }
}
