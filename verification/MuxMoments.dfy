/**
 When pages leave the muxer: at the latest presentation time their stream has reached, counted in frames
 at the stream's rate or in ticks of its time base, and in that order across streams.
 */
module MuxMoments {
  import opened Bytes
  import opened Pages
  import opened Paging
  import opened Muxing
  import opened MuxWire
  import opened MuxSteps
  import opened MuxTheorems
  import opened MuxHistory
  import opened MuxBirth
  import opened MuxClock
  import opened PageMarks
  import G = MuxGranules
  import S = MuxSchedule
  import RoundTrip
  import Theora

  // ----- presentation times -----

  /** Frame `f`, counted from 0, has been shown once `f + 1` frames have; there is no time for a count past 63 bits. */
  function FrameEnd(th: TheoraState, f: i64): real
  {
    if f == Theora.I64_MAX || th.frn == 0 then 0.0 else (f + 1) as real * th.frd as real / th.frn as real
  }

  /** Content packet `k`: the end of its frame, or its time in ticks; none before time zero. */
  function Presented(s: StreamInfo, given: seq<MuxPacket>, k: nat): real
    requires k < |given|
  {
    if CountsFrames(s) then FrameEnd(s.theora.value, FramesOf(s.theora.value.gran, given)[k].number)
    else if given[k].pts.None? || given[k].pts.value < 0 then 0.0
    else given[k].pts.value as real * s.tick
  }

  /** Header pages are at time zero; where frames count from zero, at the end of the first. */
  function Origin(s: StreamInfo): real
  {
    if !CountsFrames(s) || s.theora.value.gran.countFromOne || s.theora.value.gran.shift >= 63 then 0.0
    else FrameEnd(s.theora.value, 0)
  }

  /** The last packet between `from` and `to` to bring a granule. */
  function LastTimed(marks: seq<Option<i64>>, from: nat, to: nat): (r: Option<nat>)
    ensures r.Some? ==> from <= r.value < to <= |marks| && marks[r.value].Some?
  {
    if to <= from || to > |marks| then None
    else if marks[to - 1].Some? then Some(to - 1)
    else LastTimed(marks, from, to - 1)
  }

  /** The time the packets ending on a page give it; time zero if none brings one. */
  function PageMoment(s: StreamInfo, given: seq<MuxPacket>, from: nat, to: nat): real
  {
    var k := LastTimed(MarksOf(s, given), from, to);
    if k.None? then 0.0
    else if k.value < |s.headers| then Origin(s)
    else Presented(s, given, k.value - |s.headers|)
  }

  /** The time page `n` gives its stream. */
  function MomentAt(s: StreamInfo, given: seq<MuxPacket>, q: seq<Page>, n: nat): real
    requires n < |q|
  {
    PageMoment(s, given, Done(q[..n]), Done(q[..n + 1]))
  }

  function Moments(s: StreamInfo, given: seq<MuxPacket>, q: seq<Page>): nat -> real
  {
    (n: nat) => if n < |q| then MomentAt(s, given, q, n) else 0.0
  }

  /** The latest of the times of pages 1 to `n - 1`, page 0 being the BOS page. */
  function Peak(n: nat, at: nat -> real): real { if n <= 1 then 0.0 else MaxReal(Peak(n - 1, at), at(n - 1)) }

  /** The latest time the stream has reached with the first `n` of its pages. */
  function Reached(s: StreamInfo, given: seq<MuxPacket>, q: seq<Page>, n: nat): real { Peak(n, Moments(s, given, q)) }

  // ----- granules tell these times -----

  function ClockFor(s: StreamInfo): Clock
  {
    if CountsFrames(s) then Frames(s.theora.value.gran, s.theora.value.frn, s.theora.value.frd) else Ticks(s.tick)
  }

  lemma {:induction false} FramesPrefix(g: Theora.Granule, given: seq<MuxPacket>, n: nat)
    requires n <= |given|
    ensures FramesOf(g, given[..n]) == FramesOf(g, given)[..n]
    decreases |given|
  {
    if n < |given| {
      var m := |given| - 1;
      FramesPrefix(g, given[..m], n);
      assert given[..m][..n] == given[..n];
    } else {
      assert given[..n] == given;
    }
  }

  lemma {:induction false} MarkIndex(s: StreamInfo, given: seq<MuxPacket>, k: nat, i: nat)
    requires k < |given| && i == |s.headers| + k
    ensures MarksOf(s, given)[i] == MarkOf(s, given[..k + 1])
    decreases |given|
  {
    var m := |given| - 1;
    if k < m {
      MarkIndex(s, given[..m], k, i);
      assert given[..m][..k + 1] == given[..k + 1];
    } else {
      assert given[..k + 1] == given;
    }
  }

  lemma {:induction false} HeaderMark(s: StreamInfo, given: seq<MuxPacket>, i: nat)
    requires i < |s.headers|
    ensures MarksOf(s, given)[i] == Some(0)
    decreases |given|
  {
    if given != [] {
      HeaderMark(s, given[..|given| - 1], i);
    }
  }

  lemma {:induction false} MarkIsLastTimed(marks: seq<Option<i64>>, from: nat, to: nat)
    requires to <= |marks|
    ensures var k := LastTimed(marks, from, to); MarkIn(marks, from, to) == if k.Some? then marks[k.value].value else -1
  {
    if to > from && marks[to - 1].None? {
      MarkIsLastTimed(marks, from, to - 1);
    }
  }

  /** `t` is what granule `g` says, if it says anything. */
  predicate Tells(c: Clock, g: i64, t: real) { if g < 0 then t == 0.0 else GranuleTime(c, g) == t }

  lemma ElapsedIsEnd(th: TheoraState, f: i64, n: int)
    requires n == f + 1 && f != Theora.I64_MAX
    ensures Elapsed(n, th.frn, th.frd) == FrameEnd(th, f)
  {}

  lemma CountTells(th: TheoraState, f: i64, g: i64)
    requires g >= 0 && Theora.FrameCount(th.gran, g) == if f == Theora.I64_MAX then None else Some(f + 1)
    ensures GranuleTime(Frames(th.gran, th.frn, th.frd), g) == FrameEnd(th, f)
  {
    if f != Theora.I64_MAX {
      ElapsedIsEnd(th, f, f + 1);
    }
  }

  lemma PackedCount(g: Theora.Granule, f: i64, kf: i64, x: int)
    requires Theora.Pack(g, f, kf) == Some(x) && !Theora.CountOverflows(g, kf)
    ensures 0 <= x < TWO63 && Theora.FrameCount(g, x) == if f == Theora.I64_MAX then None else Some(f + 1)
  {
    Theora.UnpackOfPack(g, f, kf);
  }

  /** The pair that overflows its field leaves a granule that tells nothing. */
  lemma OverflowTells(g: Theora.Granule, f: i64, kf: i64, x: int)
    requires Theora.Pack(g, f, kf) == Some(x) && Theora.CountOverflows(g, kf)
    ensures x == -TWO63 && f == Theora.I64_MAX
  {
    Theora.CountOverflow(g, f, kf);
    Theora.RefusalMeans(g, f, kf);
  }

  /** A packed granule tells the end of its frame. */
  lemma FrameTells(s: StreamInfo, f: i64, kf: i64, g: i64)
    requires CountsFrames(s) && Theora.Pack(s.theora.value.gran, f, kf) == Some(g)
    ensures Tells(ClockFor(s), g, FrameEnd(s.theora.value, f))
  {
    var gran := s.theora.value.gran;
    if Theora.CountOverflows(gran, kf) {
      OverflowTells(gran, f, kf, g);
    } else {
      PackedCount(gran, f, kf, g);
      CountTells(s.theora.value, f, g);
    }
  }

  lemma {:induction false} ZeroBits(n: nat)
    ensures Theora.High(0, n) == 0 && Theora.Low(0, n) == 0
  {
    if n > 0 {
      ZeroBits(n - 1);
    }
  }

  /** So does the granule 0 of the header pages. */
  lemma ZeroTells(s: StreamInfo)
    ensures Tells(ClockFor(s), 0, Origin(s))
  {
    if CountsFrames(s) {
      ZeroBits(s.theora.value.gran.shift);
      if Origin(s) != 0.0 {
        CountTells(s.theora.value, 0, 0);
      }
    }
  }

  lemma PacketTells(s: StreamInfo, given: seq<MuxPacket>, k: nat, g: i64)
    requires k < |given| && MarkOf(s, given[..k + 1]) == Some(g)
    ensures Tells(ClockFor(s), g, Presented(s, given, k))
  {
    if CountsFrames(s) {
      var gran := s.theora.value.gran;
      var frames := FramesOf(gran, given[..k + 1]);
      FramesPrefix(gran, given, k + 1);
      assert frames[k] == FramesOf(gran, given)[k];
      FrameTells(s, frames[k].number, Theora.Running(frames[..k + 1]), g);
    }
  }

  lemma MomentTells(s: StreamInfo, given: seq<MuxPacket>, from: nat, to: nat)
    requires to <= |MarksOf(s, given)|
    ensures Tells(ClockFor(s), MarkIn(MarksOf(s, given), from, to), PageMoment(s, given, from, to))
  {
    var marks := MarksOf(s, given);
    var k := LastTimed(marks, from, to);
    MarkIsLastTimed(marks, from, to);
    if k.Some? {
      if k.value < |s.headers| {
        HeaderMark(s, given, k.value);
        ZeroTells(s);
      } else {
        MarkIndex(s, given, k.value - |s.headers|, k.value);
        PacketTells(s, given, k.value - |s.headers|, marks[k.value].value);
      }
    }
  }

  // ----- the newest time is the time reached -----

  /** Pages with segments carry what they should. */
  predicate FullDue(q: seq<Page>, marks: seq<Option<i64>>)
  {
    forall n :: 0 <= n < |q| && q[n].lacing != [] ==> CarriesDue(q, marks, n)
  }

  lemma NewestPositive(c: Clock, q: seq<Page>)
    ensures Newest(c, 0.0, q) >= 0.0
  {}

  lemma {:induction false} NothingTimed(marks: seq<Option<i64>>, from: nat)
    ensures LastTimed(marks, from, from) == None
  {}

  /** `t` is what page `p` says, if it says anything. */
  predicate Says(c: Clock, p: Page, t: real) { if p.lacing == [] then t == 0.0 else Tells(c, p.granule, t) }

  lemma OnePageMore(c: Clock, q: seq<Page>, n: nat, t: real, before: real)
    requires 0 < n < |q| && before == Newest(c, 0.0, q[1..n]) && Says(c, q[n], t)
    ensures Newest(c, 0.0, q[1..n + 1]) == MaxReal(before, t)
  {
    assert q[1..n + 1] == q[1..n] + [q[n]];
    NewestSnoc(c, 0.0, q[1..n], q[n]);
    NewestPositive(c, q[1..n]);
  }

  lemma {:induction false} NewestIsPeak(c: Clock, q: seq<Page>, n: nat, at: nat -> real)
    requires 1 <= n <= |q| && forall k: nat :: 1 <= k < |q| ==> Says(c, q[k], at(k))
    ensures Newest(c, 0.0, q[1..n]) == Peak(n, at)
    decreases n
  {
    if n > 1 {
      var k := n - 1;
      NewestIsPeak(c, q, k, at);
      OnePageMore(c, q, k, at(k), Peak(k, at));
    }
  }

  lemma PageSays(s: StreamInfo, given: seq<MuxPacket>, q: seq<Page>, k: nat)
    requires FullDue(q, MarksOf(s, given)) && k < |q|
    ensures Says(ClockFor(s), q[k], MomentAt(s, given, q, k))
  {
    if q[k].lacing == [] {
      assert q[..k] + [q[k]] == q[..k + 1];
      DoneSnoc(q[..k], q[k]);
      NothingTimed(MarksOf(s, given), Done(q[..k]));
    } else {
      assert CarriesDue(q, MarksOf(s, given), k);
      MomentTells(s, given, Done(q[..k]), Done(q[..k + 1]));
    }
  }

  lemma NewestIsReached(s: StreamInfo, given: seq<MuxPacket>, q: seq<Page>, n: nat)
    requires FullDue(q, MarksOf(s, given)) && 1 <= n <= |q|
    ensures Newest(ClockFor(s), 0.0, q[1..n]) == Reached(s, given, q, n)
  {
    var at := Moments(s, given, q);
    forall k: nat | 1 <= k < |q|
      ensures Says(ClockFor(s), q[k], at(k))
    {
      PageSays(s, given, q, k);
    }
    NewestIsPeak(ClockFor(s), q, n, at);
  }

  // ----- clocks from a link's BOS pages on -----

  ghost predicate Ticking(b: Mux, m: Mux)
  {
    m.writers.Keys == b.writers.Keys && forall i :: i in m.writers ==> Clocked(b.writers[i], m.writers[i])
  }

  ghost function AllTicking(b: Mux): Invariant { (m: Mux) => Ticking(b, m) }

  lemma TickingPop(b: Mux)
    ensures KeptByPop(AllTicking(b)) && KeptByRelease(AllTicking(b))
  {
    forall m: Mux, i: u32 | Ticking(b, m) && i in m.writers && m.writers[i].queue != []
      ensures Ticking(b, Pop(m, i))
    {
      ClockedPop(b.writers[i], m.writers[i]);
    }
    forall m: Mux | Ticking(b, m)
      ensures AllTicking(b)(Release(m))
    {
      ReleaseKeeps(AllTicking(b), m);
    }
  }

  lemma TickingCut(b: Mux)
    ensures KeptByCut(AllTicking(b))
  {
    forall m: Mux, i: u32 | Ticking(b, m) && i in m.writers
      ensures Ticking(b, With(m, i, CutAndQueue(m.writers[i])))
    {
      ClockedCut(b.writers[i], m.writers[i]);
    }
  }

  lemma TickingUpdate(b: Mux)
    ensures KeptByUpdate(AllTicking(b)) && KeptByFlag(AllTicking(b)) && KeptByReset(AllTicking(b))
  {
    forall m: Mux, i: u32, w: StreamWriter | Ticking(b, m) && i in m.writers && SamePages(m.writers[i], w)
      ensures Ticking(b, With(m, i, w))
    {}
    forall m: Mux, f: bool {:trigger m.(contentStarted := f)} | Ticking(b, m)
      ensures AllTicking(b)(m.(contentStarted := f))
    {}
    forall m: Mux | Ticking(b, m)
      ensures AllTicking(b)(m.(released := []))
    {}
  }

  lemma TickingEndures(b: Mux)
    ensures Enduring(AllTicking(b))
  {
    TickingPop(b);
    TickingCut(b);
    TickingUpdate(b);
  }

  lemma BornOf(b: Mux, infos: seq<StreamInfo>, i: u32) returns (s: StreamInfo)
    requires AllNewborn(b, infos) && i in b.writers
    ensures s in infos && s.index == i && Newborn(b.writers[i], s)
  {
    s :| s in infos && s.index == i;
  }

  lemma BornClocked(w: StreamWriter, s: StreamInfo)
    requires Newborn(w, s)
    ensures Clocked(w, w)
  {
    StartClocked(w);
  }

  lemma BornTicking(infos: seq<StreamInfo>, calls: seq<Call>, b: Mux)
    requires WellUsed(infos, calls) && |infos| < TWO32 && b == Birth(infos, calls)
    ensures AllTicking(b)(b)
  {
    BornNew(infos, calls);
    forall i | i in b.writers
      ensures Clocked(b.writers[i], b.writers[i])
    {
      var s := BornOf(b, InfosAt(infos, calls), i);
      BornClocked(b.writers[i], s);
    }
  }

  /** Since the BOS pages every clock is right, and so is the time of every page released. */
  lemma OnTimeSinceBirth(infos: seq<StreamInfo>, calls: seq<Call>, b: Mux, m: Mux)
    requires WellUsed(infos, calls) && |infos| < TWO32 && b == Birth(infos, calls) && m == Muxing.After(infos, calls)
    ensures OnTime(b, m) && OnTime(b, FinishLink(m))
  {
    BornTicking(infos, calls, b);
    TickingEndures(b);
    StartKeeps(AllTicking(b), infos, calls);
    StartsEmpty(infos, calls);
    TimelyStable(b);
    TimelyPop(b);
    TimelyClose(b);
    TimelyTarget(b);
    SinceLinkStart(Timely(b), infos, calls);
    RunHolds(infos, calls);
    UntilLinkEnd(Timely(b), m);
  }

  // ----- one stream of a run -----

  /** Page `n` of the stream left, or will leave, at the time the stream had reached with it. */
  predicate LeftAt(w: StreamWriter, s: StreamInfo, given: seq<MuxPacket>, p: Pending, n: nat)
  {
    n < |w.cut| && p.page == w.cut[n] && p.time == Reached(s, given, w.cut, n + 1)
  }

  /** The stream as it was born. */
  lemma BornClock(w0: StreamWriter, s: StreamInfo)
    requires Newborn(w0, s)
    ensures |w0.cut| == 1 && w0.newestTime == 0.0 && ClockOf(w0) == ClockFor(s)
  {}

  lemma TimeSinceBirth(w0: StreamWriter, cut: seq<Page>, c: Clock, n: nat)
    requires |w0.cut| == 1 <= n <= |cut| && w0.newestTime == 0.0 && ClockOf(w0) == c
    ensures TimeAt(w0, cut, n) == Newest(c, 0.0, cut[1..n])
  {}

  lemma TimedIsReached(w0: StreamWriter, w: StreamWriter, s: StreamInfo, given: seq<MuxPacket>, p: Pending, n: nat)
    requires Newborn(w0, s) && FullDue(w.cut, MarksOf(s, given)) && |w0.cut| <= n < |w.cut| && Timed(w0, w.cut, p, n)
    ensures LeftAt(w, s, given, p, n)
  {
    BornClock(w0, s);
    TimeSinceBirth(w0, w.cut, ClockFor(s), n + 1);
    NewestIsReached(s, given, w.cut, n + 1);
  }

  lemma RunningDue(infos: seq<StreamInfo>, calls: seq<Call>, m: Mux, s: StreamInfo)
    requires WellUsed(infos, calls) && |infos| < TWO32 && G.AllUncounted(infos, calls)
    requires m == Muxing.After(infos, calls) && s in m.infos
    ensures s.index in m.writers && FullDue(m.writers[s.index].cut, MarksOf(s, G.Written(calls, s.index)))
  {
    G.RunGranuled(infos, calls);
    var w, marks := m.writers[s.index], MarksOf(s, G.Written(calls, s.index));
    forall n | 0 <= n < |w.cut| && w.cut[n].lacing != []
      ensures CarriesDue(w.cut, marks, n)
    {
      G.FullCarriesDue(w.cut, marks, n);
    }
  }

  lemma FinishedDue(infos: seq<StreamInfo>, calls: seq<Call>, m: Mux, d: Mux, s: StreamInfo)
    requires WellUsed(infos, calls) && |infos| < TWO32 && G.AllUncounted(infos, calls)
    requires m == Muxing.After(infos, calls) && d == FinishLink(m) && s in m.infos
    ensures s.index in d.writers && FullDue(d.writers[s.index].cut, MarksOf(s, G.Written(calls, s.index)))
  {
    G.StreamCarriesFed(infos, calls, m, d, s);
  }

  /** At some moment of the current link, or once it is finished. */
  predicate Moment(m: Mux, e: Mux) { e == m || e == FinishLink(m) }

  lemma MomentDue(infos: seq<StreamInfo>, calls: seq<Call>, m: Mux, e: Mux, s: StreamInfo)
    requires WellUsed(infos, calls) && |infos| < TWO32 && G.AllUncounted(infos, calls)
    requires m == Muxing.After(infos, calls) && Moment(m, e) && s in m.infos
    ensures s.index in e.writers && FullDue(e.writers[s.index].cut, MarksOf(s, G.Written(calls, s.index)))
  {
    RunningDue(infos, calls, m, s);
    FinishedDue(infos, calls, m, FinishLink(m), s);
  }

  lemma MomentOnTime(infos: seq<StreamInfo>, calls: seq<Call>, m: Mux, e: Mux, b: Mux)
    requires WellUsed(infos, calls) && |infos| < TWO32
    requires m == Muxing.After(infos, calls) && Moment(m, e) && b == Birth(infos, calls)
    ensures OnTime(b, e) && AllNewborn(b, m.infos) && m.infos == InfosAt(infos, calls)
  {
    OnTimeSinceBirth(infos, calls, b, m);
    BornNew(infos, calls);
    RunHolds(infos, calls);
  }

  lemma SentByOne(b: Mux, e: Mux, p: Pending) returns (i: u32, n: nat)
    requires OnTime(b, e) && p in e.released
    ensures i in e.writers && i in b.writers
    ensures |b.writers[i].cut| <= n < |e.writers[i].cut| && Timed(b.writers[i], e.writers[i].cut, p, n)
  {
    i :| i in e.writers && Sent(b.writers[i], e.writers[i], p);
    n :| |b.writers[i].cut| <= n && n + |e.writers[i].queue| < |e.writers[i].cut|
         && Timed(b.writers[i], e.writers[i].cut, p, n);
  }

  /**
   Every page of the current link released so far left at the latest presentation time its stream had
   reached: the end of a frame at the stream's rate, or a time in ticks, of a packet ending on that page or
   an earlier one.
   */
  lemma EveryPageLeavesInTime(infos: seq<StreamInfo>, calls: seq<Call>, m: Mux, e: Mux, p: Pending)
    returns (s: StreamInfo, n: nat)
    requires WellUsed(infos, calls) && |infos| < TWO32 && G.AllUncounted(infos, calls)
    requires m == Muxing.After(infos, calls) && Moment(m, e) && p in e.released
    ensures s in m.infos && s.index in e.writers
    ensures LeftAt(e.writers[s.index], s, G.Written(calls, s.index), p, n)
  {
    var b := Birth(infos, calls);
    MomentOnTime(infos, calls, m, e, b);
    var i: u32;
    i, n := SentByOne(b, e, p);
    s := BornOf(b, m.infos, i);
    MomentDue(infos, calls, m, e, s);
    TimedIsReached(b.writers[i], e.writers[i], s, G.Written(calls, i), p, n);
  }

  // ----- the order across streams -----

  /**
   The order of release over frames, rates and times alone: of two pages released, of whatever streams, the
   stream of the later one has reached at least the presentation time that of the earlier one had.
   */
  lemma ReleaseOrder(infos: seq<StreamInfo>, calls: seq<Call>, m: Mux, e: Mux, a: nat, b: nat)
    returns (x: StreamInfo, i: nat, y: StreamInfo, j: nat)
    requires WellUsed(infos, calls) && |infos| < TWO32 && G.AllUncounted(infos, calls)
    requires m == Muxing.After(infos, calls) && Moment(m, e) && a < b < |e.released|
    ensures x in m.infos && x.index in e.writers && y in m.infos && y.index in e.writers
    ensures i < |e.writers[x.index].cut| && e.released[a].page == e.writers[x.index].cut[i]
    ensures j < |e.writers[y.index].cut| && e.released[b].page == e.writers[y.index].cut[j]
    ensures Reached(x, G.Written(calls, x.index), e.writers[x.index].cut, i + 1)
         <= Reached(y, G.Written(calls, y.index), e.writers[y.index].cut, j + 1)
  {
    x, i := EveryPageLeavesInTime(infos, calls, m, e, e.released[a]);
    y, j := EveryPageLeavesInTime(infos, calls, m, e, e.released[b]);
    RoundTrip.EveryRunIsOrdered(infos, calls, m, FinishLink(m), LinkStart(infos, calls).wire);
    assert S.Ascending(e.released);
  }

  /** Content packet `k` is the last one to end on page `n` and bring a granule. */
  predicate LastOn(s: StreamInfo, given: seq<MuxPacket>, q: seq<Page>, n: nat, k: nat)
    requires n < |q|
  {
    k < |given| && LastTimed(MarksOf(s, given), Done(q[..n]), Done(q[..n + 1])) == Some(|s.headers| + k)
  }

  lemma {:induction false} PeakCovers(n: nat, at: nat -> real, k: nat)
    requires 1 <= k < n
    ensures at(k) <= Peak(n, at)
  {
    if k < n - 1 {
      PeakCovers(n - 1, at, k);
    }
  }

  lemma {:induction false} PeakWithin(n: nat, at: nat -> real, t: real)
    requires t >= 0.0 && forall k: nat :: 1 <= k < n ==> at(k) <= t
    ensures Peak(n, at) <= t
  {
    if n > 1 {
      PeakWithin(n - 1, at, t);
    }
  }

  lemma ReachedCovers(s: StreamInfo, given: seq<MuxPacket>, q: seq<Page>, n: nat, k: nat)
    requires 1 <= k < n <= |q|
    ensures MomentAt(s, given, q, k) <= Reached(s, given, q, n)
  {
    PeakCovers(n, Moments(s, given, q), k);
  }

  lemma ReachedWithin(s: StreamInfo, given: seq<MuxPacket>, q: seq<Page>, n: nat, t: real)
    requires t >= 0.0 && n <= |q| && forall k :: 1 <= k < n ==> MomentAt(s, given, q, k) <= t
    ensures Reached(s, given, q, n) <= t
  {
    PeakWithin(n, Moments(s, given, q), t);
  }

  lemma Cleared(a: real, n: real, b: real)
    requires n > 0.0
    ensures a / n <= b <==> a <= b * n
    ensures b <= a / n <==> b * n <= a
  {
    assert a == a / n * n;
  }

  /** Comparing the end of a frame is comparing whole products. */
  lemma EndAgainst(th: TheoraState, f: i64, t: real)
    requires th.frn > 0 && f != Theora.I64_MAX
    ensures FrameEnd(th, f) <= t <==> (f + 1) as real * th.frd as real <= t * th.frn as real
    ensures t <= FrameEnd(th, f) <==> t * th.frn as real <= (f + 1) as real * th.frd as real
  {
    Cleared((f + 1) as real * th.frd as real, th.frn as real, t);
  }

  lemma TicksGrow(p: i64, top: i64, tick: real)
    requires 0 <= top && p <= top && tick >= 0.0
    ensures (if p < 0 then 0.0 else p as real * tick) <= top as real * tick && top as real * tick >= 0.0
  {
    if p >= 0 {
      assert (top - p) as real * tick >= 0.0;
    }
  }

  /** None of the first `m` pages of a stream of ticks has a packet later than `top`. */
  ghost predicate TicksUpTo(s: StreamInfo, given: seq<MuxPacket>, q: seq<Page>, m: nat, top: i64)
    requires m <= |q|
  {
    forall n, k: nat :: 1 <= n < m && LastOn(s, given, q, n, k) && given[k].pts.Some? ==> given[k].pts.value <= top
  }

  lemma TickWithin(s: StreamInfo, given: seq<MuxPacket>, q: seq<Page>, m: nat, n: nat, top: i64, high: real)
    requires !CountsFrames(s) && s.tick >= 0.0 && top >= 0 && 1 <= n < m <= |q| && TicksUpTo(s, given, q, m, top)
    requires high == top as real * s.tick
    ensures MomentAt(s, given, q, n) <= high && high >= 0.0
  {
    TicksGrow(0, top, s.tick);
    var at := LastTimed(MarksOf(s, given), Done(q[..n]), Done(q[..n + 1]));
    if at.Some? && at.value >= |s.headers| {
      var k := at.value - |s.headers|;
      MomentOf(s, given, q, n, k);
      assert LastOn(s, given, q, n, k);
      if given[k].pts.Some? {
        TicksGrow(given[k].pts.value, top, s.tick);
      }
    }
  }

  lemma TicksReach(s: StreamInfo, given: seq<MuxPacket>, q: seq<Page>, m: nat, top: i64, high: real)
    requires !CountsFrames(s) && s.tick >= 0.0 && top >= 0 && m <= |q| && TicksUpTo(s, given, q, m, top)
    requires high == top as real * s.tick
    ensures Reached(s, given, q, m) <= high
  {
    TicksGrow(0, top, s.tick);
    forall n | 1 <= n < m
      ensures MomentAt(s, given, q, n) <= high
    {
      TickWithin(s, given, q, m, n, top, high);
    }
    ReachedWithin(s, given, q, m, high);
  }

  /** The last packet to end on page `i` of a stream of frames is frame `f`. */
  ghost predicate ShowsFrame(s: StreamInfo, given: seq<MuxPacket>, q: seq<Page>, i: nat, f: i64)
    requires i < |q| && CountsFrames(s)
  {
    exists k: nat :: LastOn(s, given, q, i, k) && FramesOf(s.theora.value.gran, given)[k].number == f
  }

  lemma MomentOf(s: StreamInfo, given: seq<MuxPacket>, q: seq<Page>, i: nat, k: nat)
    requires i < |q| && LastOn(s, given, q, i, k)
    ensures MomentAt(s, given, q, i) == Presented(s, given, k)
  {}

  /** What a packet last on a page presents, its stream has reached. */
  lemma PacketReaches(s: StreamInfo, given: seq<MuxPacket>, q: seq<Page>, n: nat, i: nat, k: nat)
    requires 1 <= i < n <= |q| && LastOn(s, given, q, i, k)
    ensures Presented(s, given, k) <= Reached(s, given, q, n)
  {
    MomentOf(s, given, q, i, k);
    ReachedCovers(s, given, q, n, i);
  }

  lemma FrameReaches(s: StreamInfo, given: seq<MuxPacket>, q: seq<Page>, n: nat, i: nat, f: i64)
    requires CountsFrames(s) && 1 <= i < n <= |q| && ShowsFrame(s, given, q, i, f)
    ensures FrameEnd(s.theora.value, f) <= Reached(s, given, q, n)
  {
    var k: nat :| LastOn(s, given, q, i, k) && FramesOf(s.theora.value.gran, given)[k].number == f;
    PacketReaches(s, given, q, n, i, k);
  }

  /** A bound on what two streams have reached, one behind the other. */
  lemma Chained(low: real, from: real, to: real, high: real)
    requires low <= from <= to <= high
    ensures low <= high
  {}

  /**
   A page whose last packet is frame `f`, released ahead of a page of a stream of ticks: by then that stream
   has a packet at or after the end of the frame.
   */
  lemma FramesWaitForTicks(x: StreamInfo, gx: seq<MuxPacket>, qx: seq<Page>, i: nat, f: i64, y: StreamInfo,
          gy: seq<MuxPacket>, qy: seq<Page>, j: nat, top: i64, high: real)
    requires i < |qx| && j < |qy| && Reached(x, gx, qx, i + 1) <= Reached(y, gy, qy, j + 1)
    requires CountsFrames(x) && 1 <= i && ShowsFrame(x, gx, qx, i, f)
    requires !CountsFrames(y) && y.tick >= 0.0 && top >= 0 && TicksUpTo(y, gy, qy, j + 1, top)
    requires high == top as real * y.tick
    ensures FrameEnd(x.theora.value, f) <= high
  {
    FrameReaches(x, gx, qx, i + 1, i, f);
    TicksReach(y, gy, qy, j + 1, top, high);
    Chained(FrameEnd(x.theora.value, f), Reached(x, gx, qx, i + 1), Reached(y, gy, qy, j + 1), high);
  }

  /** None of the first `m` pages of a stream of frames shows one past `top`. */
  ghost predicate FramesUpTo(s: StreamInfo, given: seq<MuxPacket>, q: seq<Page>, m: nat, top: i64)
    requires CountsFrames(s) && m <= |q|
  {
    forall n: nat, f: i64 :: 1 <= n < m && ShowsFrame(s, given, q, n, f) ==> f <= top
  }

  lemma FramesGrow(th: TheoraState, f: i64, top: i64)
    requires 0 <= top < Theora.I64_MAX && f <= top
    ensures FrameEnd(th, f) <= FrameEnd(th, top) && FrameEnd(th, top) >= 0.0
  {
    if th.frn > 0 {
      FramesGrowBy((f + 1) as real, (top + 1) as real, th.frd as real, th.frn as real);
      FramesGrowBy(0.0, (top + 1) as real, th.frd as real, th.frn as real);
    }
  }

  lemma FramesGrowBy(a: real, b: real, c: real, n: real)
    requires a <= b && c >= 0.0 && n > 0.0
    ensures a * c / n <= b * c / n
  {
    assert a * c <= b * c;
  }

  lemma FrameWithin(s: StreamInfo, given: seq<MuxPacket>, q: seq<Page>, m: nat, n: nat, top: i64, high: real)
    requires CountsFrames(s) && 0 <= top < Theora.I64_MAX && 1 <= n < m <= |q| && FramesUpTo(s, given, q, m, top)
    requires high == FrameEnd(s.theora.value, top)
    ensures MomentAt(s, given, q, n) <= high
  {
    var th := s.theora.value;
    FramesGrow(th, 0, top);
    var at := LastTimed(MarksOf(s, given), Done(q[..n]), Done(q[..n + 1]));
    if at.Some? && at.value >= |s.headers| {
      var k := at.value - |s.headers|;
      var f := FramesOf(th.gran, given)[k].number;
      MomentOf(s, given, q, n, k);
      assert LastOn(s, given, q, n, k) && ShowsFrame(s, given, q, n, f);
      FramesGrow(th, f, top);
    }
  }

  lemma FramesReach(s: StreamInfo, given: seq<MuxPacket>, q: seq<Page>, m: nat, top: i64, high: real)
    requires CountsFrames(s) && 0 <= top < Theora.I64_MAX && m <= |q| && FramesUpTo(s, given, q, m, top)
    requires high == FrameEnd(s.theora.value, top)
    ensures Reached(s, given, q, m) <= high
  {
    FramesGrow(s.theora.value, 0, top);
    forall n | 1 <= n < m
      ensures MomentAt(s, given, q, n) <= high
    {
      FrameWithin(s, given, q, m, n, top, high);
    }
    ReachedWithin(s, given, q, m, high);
  }

  /** And the other way round: a packet of any stream, last on a page released ahead of a page of frames. */
  lemma PacketsWaitForFrames(x: StreamInfo, gx: seq<MuxPacket>, qx: seq<Page>, i: nat, k: nat, y: StreamInfo,
          gy: seq<MuxPacket>, qy: seq<Page>, j: nat, top: i64)
    requires i < |qx| && j < |qy| && Reached(x, gx, qx, i + 1) <= Reached(y, gy, qy, j + 1)
    requires 1 <= i && LastOn(x, gx, qx, i, k)
    requires CountsFrames(y) && 0 <= top < Theora.I64_MAX && FramesUpTo(y, gy, qy, j + 1, top)
    ensures Presented(x, gx, k) <= FrameEnd(y.theora.value, top)
  {
    var high := FrameEnd(y.theora.value, top);
    PacketReaches(x, gx, qx, i + 1, i, k);
    FramesReach(y, gy, qy, j + 1, top, high);
    Chained(Presented(x, gx, k), Reached(x, gx, qx, i + 1), Reached(y, gy, qy, j + 1), high);
  }
}
