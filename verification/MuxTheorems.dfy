/** What every run of the muxer comes to, from the caller's side. */
module MuxTheorems {
  import opened Bytes
  import opened Pages
  import opened Segments
  import opened Grammar
  import opened Muxing
  import opened MuxWire
  import opened MuxClose
  import opened MuxLinks
  import opened MuxRuns
  import opened Paging

  // ----- what the calls ask for -----

  /** The content packets written to stream `i` of the current link. */
  function Given(calls: seq<Call>, i: u32): seq<Packet>
  {
    if calls == [] then []
    else
      var front, last := calls[..|calls| - 1], calls[|calls| - 1];
      if last.NewLink? then []
      else Given(front, i) + if last.Write? && last.packet.stream == i then [last.packet.data] else []
  }

  /** The streams of the current link. */
  function InfosAt(infos: seq<StreamInfo>, calls: seq<Call>): seq<StreamInfo>
  {
    if calls == [] then infos
    else if calls[|calls| - 1].NewLink? then calls[|calls| - 1].infos
    else InfosAt(infos, calls[..|calls| - 1])
  }

  /** What a stream should carry: its headers, then the content packets it was given. */
  datatype Content = Content(headers: seq<Packet>, given: seq<Packet>)

  function LinkContents(infos: seq<StreamInfo>, calls: seq<Call>): (r: seq<Content>)
    ensures |r| == |infos|
    ensures forall k :: 0 <= k < |r| ==> r[k] == Content(infos[k].headers, Given(calls, infos[k].index))
  {
    seq(|infos|, k requires 0 <= k < |infos| => Content(infos[k].headers, Given(calls, infos[k].index)))
  }

  /** The same for every stream of the links already finished. */
  function PastContents(infos: seq<StreamInfo>, calls: seq<Call>): seq<Content>
  {
    if calls == [] then []
    else
      var front, last := calls[..|calls| - 1], calls[|calls| - 1];
      PastContents(infos, front) + if last.NewLink? then LinkContents(InfosAt(infos, front), front) else []
  }

  function NewLinks(calls: seq<Call>): nat
  {
    if calls == [] then 0 else NewLinks(calls[..|calls| - 1]) + if calls[|calls| - 1].NewLink? then 1 else 0
  }

  /** Any packet will do; a new link must be one `begin_new_link` accepts, its streams and headers usable. */
  predicate UsableCall(m: Mux, call: Call)
  {
    match call
    case Write(_) => true
    case NewLink(infos) => MayBeginLink(m, infos) && Usable(infos) && |m.used| + |infos| < TWO32
    case SetTarget(_) => true
  }

  predicate WellUsed(infos: seq<StreamInfo>, calls: seq<Call>)
  {
    if calls == [] then Usable(infos) && |infos| < TWO32
    else
      var front := calls[..|calls| - 1];
      WellUsed(infos, front) && |infos| < TWO32 && UsableCall(After(infos, front), calls[|calls| - 1])
  }

  /** `begin_new_link` refused: no content yet in the link, no streams, or the file not open. */
  predicate RefusedLink(m: Mux, call: Call) { call.NewLink? && !MayBeginLink(m, call.infos) }

  /** The same, new links that are refused included. */
  predicate Meant(infos: seq<StreamInfo>, calls: seq<Call>)
  {
    if calls == [] then Usable(infos) && |infos| < TWO32
    else
      var front, last := calls[..|calls| - 1], calls[|calls| - 1];
      && Meant(infos, front) && |infos| < TWO32
      && (RefusedLink(After(infos, front), last) || UsableCall(After(infos, front), last))
  }

  /** The calls but for the new links refused. */
  function Effective(infos: seq<StreamInfo>, calls: seq<Call>): seq<Call>
    requires |infos| < TWO32
  {
    if calls == [] then []
    else
      var front, last := calls[..|calls| - 1], calls[|calls| - 1];
      Effective(infos, front) + if RefusedLink(After(infos, front), last) then [] else [last]
  }

  lemma AfterSnoc(infos: seq<StreamInfo>, calls: seq<Call>, call: Call)
    requires |infos| < TWO32
    ensures After(infos, calls + [call]) == Apply(After(infos, calls), call)
    ensures WellUsed(infos, calls + [call]) <==> WellUsed(infos, calls) && UsableCall(After(infos, calls), call)
  {
    UnSnoc(calls, call);
  }

  /** A new link refused is no step: what holds of every well-used run holds of runs with such calls in them. */
  lemma {:induction false} RefusedLinksAreNoSteps(infos: seq<StreamInfo>, calls: seq<Call>)
    requires Meant(infos, calls) && |infos| < TWO32
    ensures WellUsed(infos, Effective(infos, calls)) && After(infos, calls) == After(infos, Effective(infos, calls))
  {
    if calls != [] {
      var front, last := calls[..|calls| - 1], calls[|calls| - 1];
      RefusedLinksAreNoSteps(infos, front);
      if RefusedLink(After(infos, front), last) {
        PlusNil(Effective(infos, front));
      } else {
        AfterSnoc(infos, Effective(infos, front), last);
      }
    }
  }

  // ----- the packets are where they belong -----

  predicate Has(w: StreamWriter, c: Content) { w.packets == c.headers + c.given }

  /** Stream by stream, the muxer's packets are those asked for. */
  predicate Carries(m: Mux, infos: seq<StreamInfo>, calls: seq<Call>)
  {
    && m.infos == InfosAt(infos, calls)
    && (forall s :: s in m.infos ==>
          s.index in m.writers && m.writers[s.index].packets == s.headers + Given(calls, s.index))
    && |m.past| == |PastContents(infos, calls)|
    && (forall k :: 0 <= k < |m.past| ==> Has(m.past[k], PastContents(infos, calls)[k]))
    && m.linkIndex == NewLinks(calls)
  }

  lemma OpenCarries(m: Mux, infos: seq<StreamInfo>)
    requires HeadersOnly(m) && m.past == [] && m.infos == infos && m.linkIndex == 0
    ensures Carries(m, infos, [])
  {
    forall s | s in m.infos
      ensures s.headers == s.headers + Given([], s.index)
    {
      PlusNil(s.headers);
    }
  }

  lemma WriteCarries(m: Mux, m': Mux, infos: seq<StreamInfo>, calls: seq<Call>, packet: MuxPacket)
    requires packet.stream in m.writers && Carries(m, infos, calls) && PacketAdded(m, m', packet)
    ensures Carries(m', infos, calls + [Write(packet)])
  {
    UnSnoc(calls, Write(packet));
    PlusNil(PastContents(infos, calls));
    forall s | s in m'.infos
      ensures s.index in m'.writers
      ensures m'.writers[s.index].packets == s.headers + Given(calls + [Write(packet)], s.index)
    {
      Assoc(s.headers, Given(calls, s.index), if s.index == packet.stream then [packet.data] else []);
    }
  }

  /** A call that adds nothing to any stream in use. */
  lemma OtherCarries(m: Mux, m': Mux, infos: seq<StreamInfo>, calls: seq<Call>, call: Call)
    requires Carries(m, infos, calls) && m' == m.(pageTarget := m'.pageTarget)
    requires call.SetTarget? || (call.Write? && call.packet.stream !in m.writers)
    ensures Carries(m', infos, calls + [call])
  {
    UnSnoc(calls, call);
    PlusNil(PastContents(infos, calls));
    forall s | s in m.infos
      ensures Given(calls + [call], s.index) == Given(calls, s.index)
    {
      PlusNil(Given(calls, s.index));
    }
  }

  lemma LinkCarried(m: Mux, d: Mux, infos: seq<StreamInfo>, calls: seq<Call>, k: nat)
    requires Carries(m, infos, calls) && LinkDone(m, d) && m.order == Indices(m.infos) && k < |m.infos|
    ensures m.order[k] in d.writers && Has(d.writers[m.order[k]], LinkContents(m.infos, calls)[k])
  {
    assert m.infos[k] in m.infos;
  }

  lemma WriterHas(m: Mux, d: Mux, infos: seq<StreamInfo>, calls: seq<Call>)
    requires Carries(m, infos, calls) && LinkDone(m, d) && m.order == Indices(m.infos)
    ensures var ws := WritersOf(d.writers, d.order);
            var cs := LinkContents(m.infos, calls);
            |ws| == |cs| && forall k :: 0 <= k < |ws| ==> Has(ws[k], cs[k])
  {
    forall k | 0 <= k < |m.order|
      ensures m.order[k] in d.writers && Has(d.writers[m.order[k]], LinkContents(m.infos, calls)[k])
    {
      LinkCarried(m, d, infos, calls, k);
    }
    WritersAre(d.writers, d.order);
  }

  lemma HasConcat(a: seq<StreamWriter>, x: seq<Content>, b: seq<StreamWriter>, y: seq<Content>)
    requires |a| == |x| && forall k :: 0 <= k < |a| ==> Has(a[k], x[k])
    requires |b| == |y| && forall k :: 0 <= k < |b| ==> Has(b[k], y[k])
    ensures |a + b| == |x + y| && forall k :: 0 <= k < |a + b| ==> Has((a + b)[k], (x + y)[k])
  {}

  lemma PastWithLink(infos: seq<StreamInfo>, calls: seq<Call>, next: seq<StreamInfo>)
    ensures var calls' := calls + [NewLink(next)];
            && PastContents(infos, calls') == PastContents(infos, calls) + LinkContents(InfosAt(infos, calls), calls)
            && InfosAt(infos, calls') == next && NewLinks(calls') == NewLinks(calls) + 1
            && forall i :: Given(calls', i) == []
  {
    UnSnoc(calls, NewLink(next));
  }

  lemma NewLinkCarries(m: Mux, d: Mux, m': Mux, infos: seq<StreamInfo>, calls: seq<Call>, next: seq<StreamInfo>)
    requires Carries(m, infos, calls) && LinkDone(m, d) && m.order == Indices(m.infos)
    requires HeadersOnly(m') && m'.infos == next && m'.linkIndex == m.linkIndex + 1
    requires m'.past == m.past + WritersOf(d.writers, m.order)
    ensures Carries(m', infos, calls + [NewLink(next)])
  {
    PastWithLink(infos, calls, next);
    WriterHas(m, d, infos, calls);
    HasConcat(m.past, PastContents(infos, calls), WritersOf(d.writers, d.order), LinkContents(m.infos, calls));
    forall s | s in m'.infos
      ensures s.headers == s.headers + Given(calls + [NewLink(next)], s.index)
    {
      PlusNil(s.headers);
    }
  }

  // ----- every well-used run -----

  /** At any point of a well-used run the muxer is on course and carries what it was given. */
  lemma {:induction false} RunHolds(infos: seq<StreamInfo>, calls: seq<Call>)
    requires WellUsed(infos, calls)
    ensures |infos| < TWO32 && Running(After(infos, calls)) && Carries(After(infos, calls), infos, calls)
  {
    if calls == [] {
      OpenRuns(infos);
      OpenCarries(Muxing.Opened(infos), infos);
    } else {
      var front, call := calls[..|calls| - 1], calls[|calls| - 1];
      SplitLast(calls);
      RunHolds(infos, front);
      CallHolds(After(infos, front), infos, front, call);
    }
  }

  lemma CallHolds(m: Mux, infos: seq<StreamInfo>, calls: seq<Call>, call: Call)
    requires Running(m) && Carries(m, infos, calls) && UsableCall(m, call)
    ensures Running(Apply(m, call)) && Carries(Apply(m, call), infos, calls + [call])
  {
    match call
    case Write(packet) =>
      if packet.stream in m.writers {
        WriteRuns(m, packet);
        WriteCarries(m, WritePacket(m, packet).0, infos, calls, packet);
      } else {
        OtherCarries(m, m, infos, calls, call);
      }
    case NewLink(next) =>
      FinishRuns(m);
      LinkRuns(m, next, FinishLink(m));
      NewLinkCarries(m, FinishLink(m), BeginLink(m, next), infos, calls, next);
    case SetTarget(target) =>
      TargetHolds(m, target);
      OtherCarries(m, m.(pageTarget := target), infos, calls, call);
  }

  lemma TargetHolds(m: Mux, target: Option<nat>)
    requires Running(m)
    ensures Running(m.(pageTarget := target))
  {
    StillOnCourse(m, m.(pageTarget := target), LinksOf(m), StreamsOf(m));
  }

  // ----- the finished file -----

  /** Every stream of every link, in the order they were declared. */
  function AllContents(infos: seq<StreamInfo>, calls: seq<Call>): seq<Content>
  {
    PastContents(infos, calls) + LinkContents(InfosAt(infos, calls), calls)
  }

  function AllWriters(d: Mux): seq<StreamWriter> { d.past + WritersOf(d.writers, d.order) }

  /** The muxer after `calls` and the trailer. */
  function Final(infos: seq<StreamInfo>, calls: seq<Call>): Mux
    requires |infos| < TWO32
  {
    WriteTrailer(After(infos, calls))
  }

  lemma TrailerFinishes(m: Mux)
    requires Running(m)
    ensures var d := FinishLink(m);
            WriteTrailer(m) == d.(trailerWritten := true) && Finished(m, d) && WholeOnWire(d)
            && (forall k :: 0 <= k < |d.past| ==> Kept(d.wire, d.used, d.past[k])) && InOrderOnly(m) && SameLink(m, d)
  {
    FinishRuns(m);
    OrderIsDeclared(m);
    LinkKept(m, FinishLink(m));
    PastStaysKept(m, FinishLink(m));
  }

  /** The finished wire is in order, every page tidy, every stream ended, links and streams as counted. */
  ghost predicate Tidy(wire: seq<Page>, links: nat, bos: nat)
  {
    Orderly(wire) && AllNeat(wire) && AllClosed(wire) && wire != [] && Tally(wire, links, bos)
  }

  lemma FinishedIsTidy(m: Mux, d: Mux)
    requires Finished(m, d)
    ensures Tidy(d.wire, LinksOf(m), StreamsOf(m))
  {}

  lemma Declared(m: Mux, infos: seq<StreamInfo>, calls: seq<Call>)
    requires Carries(m, infos, calls)
    ensures StreamsOf(m) == |AllContents(infos, calls)| && LinksOf(m) == NewLinks(calls) + 1
  {}

  // ----- streams and serials -----

  lemma AllHave(m: Mux, d: Mux, infos: seq<StreamInfo>, calls: seq<Call>)
    requires Carries(m, infos, calls) && LinkDone(m, d) && m.order == Indices(m.infos)
    ensures |AllWriters(d)| == |AllContents(infos, calls)|
    ensures forall k :: 0 <= k < |AllWriters(d)| ==> Has(AllWriters(d)[k], AllContents(infos, calls)[k])
  {
    WriterHas(m, d, infos, calls);
    HasConcat(d.past, PastContents(infos, calls), WritersOf(d.writers, d.order), LinkContents(m.infos, calls));
  }

  /** All the streams so far lie whole on the wire. */
  lemma AllOnWire(d: Mux)
    requires WholeOnWire(d) && forall k :: 0 <= k < |d.order| ==> d.order[k] in d.writers
    requires forall k :: 0 <= k < |d.past| ==> Kept(d.wire, d.used, d.past[k])
    ensures forall k :: 0 <= k < |AllWriters(d)| ==> Kept(d.wire, d.used, AllWriters(d)[k])
  {
    CurrentKept(d, d.order);
    AllKept(d.wire, d.used, d.past, WritersOf(d.writers, d.order));
  }

  lemma EndCarries(m: Mux, d: Mux, infos: seq<StreamInfo>, calls: seq<Call>)
    requires Running(m) && Carries(m, infos, calls) && d == FinishLink(m)
    ensures WriteTrailer(m) == d.(trailerWritten := true) && |AllWriters(d)| == |AllContents(infos, calls)|
    ensures forall k :: 0 <= k < |AllWriters(d)| ==> Kept(d.wire, d.used, AllWriters(d)[k])
    ensures forall k :: 0 <= k < |AllWriters(d)| ==> Has(AllWriters(d)[k], AllContents(infos, calls)[k])
  {
    TrailerFinishes(m);
    AllHave(m, d, infos, calls);
    AllOnWire(d);
  }

  /** Each declared stream lies whole on the wire under a serial of its own, carrying its headers and its packets. */
  lemma StreamsOnWire(infos: seq<StreamInfo>, calls: seq<Call>, d: Mux)
    requires WellUsed(infos, calls) && |infos| < TWO32 && d == FinishLink(After(infos, calls))
    ensures Final(infos, calls) == d.(trailerWritten := true) && |AllWriters(d)| == |AllContents(infos, calls)|
    ensures forall k :: 0 <= k < |AllWriters(d)| ==>
              Kept(d.wire, d.used, AllWriters(d)[k]) && Has(AllWriters(d)[k], AllContents(infos, calls)[k])
  {
    RunHolds(infos, calls);
    EndCarries(After(infos, calls), d, infos, calls);
  }
}
