/**
 The granule a page should carry, read off the packets that end on it: that of the last one to bring
 one. And what each packet brings, read off the calls that wrote it.
 */
module PageMarks {
  import opened Bytes
  import opened Pages
  import opened Segments
  import opened Paging
  import opened Muxing
  import Theora

  // ----- what a packet brings -----

  /** The stream's granules are packed from frame numbers; otherwise they are the caller's times. */
  predicate CountsFrames(s: StreamInfo) { s.isTheora && s.theora.Some? }

  /** The frame number a packet without a time gets: one after the last frame that could be stamped. */
  function Following(g: Theora.Granule, frames: seq<Theora.Frame>): i64
  {
    if frames == [] then 0
    else
      var last := |frames| - 1;
      if Theora.Stamp(g, frames, last).Some? then WrapI64(frames[last].number + 1) else Following(g, frames[..last])
  }

  /** The frames of the packets `given`, each at its own time or after the frame before. */
  function FramesOf(g: Theora.Granule, given: seq<MuxPacket>): (r: seq<Theora.Frame>)
    ensures |r| == |given|
  {
    if given == [] then []
    else
      var before, last := FramesOf(g, given[..|given| - 1]), given[|given| - 1];
      before + [Theora.Frame(if last.pts.Some? then last.pts.value else Following(g, before), last.keyframe)]
  }

  function Fitting64(x: Option<int>): Option<i64>
  {
    if x.Some? && -TWO63 <= x.value < TWO63 then Some(x.value) else None
  }

  /** What the last of the packets `given` brings: its packed frame number, or its time; or nothing. */
  function MarkOf(s: StreamInfo, given: seq<MuxPacket>): Option<i64>
    requires given != []
  {
    if CountsFrames(s) then
      Fitting64(Theora.Stamp(s.theora.value.gran, FramesOf(s.theora.value.gran, given), |given| - 1))
    else given[|given| - 1].pts
  }

  /** Packet by packet, header packets first, which bring 0. */
  function MarksOf(s: StreamInfo, given: seq<MuxPacket>): (r: seq<Option<i64>>)
    ensures |r| == |s.headers| + |given|
  {
    if given == [] then seq(|s.headers|, _ => Some(0))
    else MarksOf(s, given[..|given| - 1]) + [MarkOf(s, given)]
  }

  // ----- what a page carries -----

  /** The last granule brought by packets `from` to `to`, or -1. */
  function MarkIn(marks: seq<Option<i64>>, from: nat, to: nat): i64
    requires to <= |marks|
  {
    if to <= from then -1
    else if marks[to - 1].Some? then marks[to - 1].value
    else MarkIn(marks, from, to - 1)
  }

  /** Each page carries the last granule of the packets that end on it. */
  predicate Marked(q: seq<Page>, marks: seq<Option<i64>>)
  {
    if q == [] then true
    else
      var front := q[..|q| - 1];
      Marked(front, marks) && Done(q) <= |marks| && q[|q| - 1].granule == MarkIn(marks, Done(front), Done(q))
  }

  lemma {:induction false} MarkInLater(marks: seq<Option<i64>>, t: Option<i64>, from: nat, to: nat)
    requires to <= |marks|
    ensures MarkIn(marks + [t], from, to) == MarkIn(marks, from, to)
  {
    if to > from && marks[to - 1].None? {
      MarkInLater(marks, t, from, to - 1);
    }
  }

  lemma {:induction false} MarkedLater(q: seq<Page>, marks: seq<Option<i64>>, t: Option<i64>)
    requires Marked(q, marks)
    ensures Marked(q, marks + [t])
  {
    if q != [] {
      var front := q[..|q| - 1];
      MarkedLater(front, marks, t);
      MarkInLater(marks, t, Done(front), Done(q));
    }
  }

  lemma MarkInSnoc(marks: seq<Option<i64>>, t: Option<i64>, from: nat, n: nat)
    requires from < n == |marks| + 1
    ensures MarkIn(marks + [t], from, n) == if t.Some? then t.value else MarkIn(marks, from, |marks|)
  {
    UnSnoc(marks, t);
    MarkInLater(marks, t, from, |marks|);
  }

  lemma MarkedSnoc(q: seq<Page>, p: Page, marks: seq<Option<i64>>, n: nat)
    requires Marked(q, marks) && n == Done(q + [p]) <= |marks| && p.granule == MarkIn(marks, Done(q), n)
    ensures Marked(q + [p], marks)
  {
    UnSnoc(q, p);
  }

  /** A full page on which no packet ends, and which carries nothing. */
  predicate Blank(p: Page) { CompletedCount(p.lacing) == 0 && p.granule == -1 }

  predicate AllBlank(q: seq<Page>) { forall k :: 0 <= k < |q| ==> Blank(q[k]) }

  lemma MarkedBlank(q: seq<Page>, p: Page, marks: seq<Option<i64>>)
    requires Marked(q, marks) && Done(q) <= |marks| && Blank(p)
    ensures Marked(q + [p], marks) && Done(q + [p]) == Done(q)
  {
    DoneSnoc(q, p);
    MarkedSnoc(q, p, marks, Done(q));
  }

  lemma {:induction false} MarkedBare(q: seq<Page>, more: seq<Page>, marks: seq<Option<i64>>)
    requires Marked(q, marks) && Done(q) <= |marks| && AllBlank(more)
    ensures Marked(q + more, marks) && Done(q + more) == Done(q)
    decreases |more|
  {
    if more == [] {
      PlusNil(q);
    } else {
      var front, p := more[..|more| - 1], more[|more| - 1];
      MarkedBare(q, front, marks);
      SplitLast(more);
      Assoc(q, front, [p]);
      MarkedBlank(q + front, p, marks);
    }
  }

  /** What page `n` carries, by itself. */
  lemma {:induction false} MarkAt(q: seq<Page>, marks: seq<Option<i64>>, n: nat)
    requires Marked(q, marks) && n < |q|
    ensures Done(q[..n]) <= Done(q[..n + 1]) <= |marks|
    ensures q[n].granule == MarkIn(marks, Done(q[..n]), Done(q[..n + 1]))
    decreases |q|
  {
    var m := |q| - 1;
    if n < m {
      MarkAt(q[..m], marks, n);
      assert q[..m][..n] == q[..n] && q[..m][..n + 1] == q[..n + 1];
    } else {
      assert q[..n + 1] == q;
    }
  }

  /** The last granule on any page, 0 if there is none. */
  function LastKnown(q: seq<Page>): i64
  {
    if q == [] then 0
    else if q[|q| - 1].granule >= 0 then q[|q| - 1].granule
    else LastKnown(q[..|q| - 1])
  }

  /**
   A whole stream: each page carries the last granule of the packets that end on it; one put in only to
   end the stream, the last granule there was.
   */
  predicate AllMarked(q: seq<Page>, marks: seq<Option<i64>>)
  {
    Done(q) == |marks| && forall n :: 0 <= n < |q| ==> CarriesDue(q, marks, n)
  }

  predicate CarriesDue(q: seq<Page>, marks: seq<Option<i64>>, n: nat)
    requires n < |q|
  {
    && Done(q[..n]) <= Done(q[..n + 1]) <= |marks|
    && q[n].granule == if q[n].lacing == [] then LastKnown(q[..n]) else MarkIn(marks, Done(q[..n]), Done(q[..n + 1]))
  }

  // ----- the muxer's counters are those of the frames -----

  /** A packer that has counted no frame. */
  predicate Uncounted(s: StreamInfo)
  {
    s.theora.Some? ==> s.theora.value.nextFrame == 0 && s.theora.value.lastKf == 0
  }

  /** The counters after the packets `given`. */
  predicate Counts(w: StreamWriter, s: StreamInfo, given: seq<MuxPacket>)
  {
    if CountsFrames(s) then
      var th, frames := s.theora.value, FramesOf(s.theora.value.gran, given);
      w.theora == Some(TheoraState(th.gran, Following(th.gran, frames), Theora.Running(frames), th.frn, th.frd))
    else w.theora.None?
  }

  lemma CountsNone(w: StreamWriter, s: StreamInfo)
    requires Uncounted(s) && w.theora == NewWriter(s, 0).theora
    ensures Counts(w, s, [])
  {}

  lemma FramesSnoc(g: Theora.Granule, given: seq<MuxPacket>, packet: MuxPacket, frames: seq<Theora.Frame>, f: i64)
    requires frames == FramesOf(g, given) && f == if packet.pts.Some? then packet.pts.value else Following(g, frames)
    ensures FramesOf(g, given + [packet]) == frames + [Theora.Frame(f, packet.keyframe)]
  {
    UnSnoc(given, packet);
  }

  lemma RunningSnoc(frames: seq<Theora.Frame>, f: Theora.Frame, all: seq<Theora.Frame>)
    requires all == frames + [f]
    ensures Theora.Running(all) == if f.keyframe then f.number else Theora.Running(frames)
  {
    UnSnoc(frames, f);
  }

  lemma StampSnoc(g: Theora.Granule, frames: seq<Theora.Frame>, f: Theora.Frame, all: seq<Theora.Frame>, n: nat)
    requires all == frames + [f] && n == |frames|
    ensures Theora.Stamp(g, all, n) == Theora.Pack(g, f.number, Theora.Running(all))
  {
    assert all[n] == f && all[..n + 1] == all;
  }

  lemma FollowingSnoc(g: Theora.Granule, frames: seq<Theora.Frame>, f: Theora.Frame, all: seq<Theora.Frame>,
          stamp: Option<int>)
    requires all == frames + [f] && stamp == Theora.Stamp(g, all, |all| - 1)
    ensures Following(g, all) == if stamp.Some? then WrapI64(f.number + 1) else Following(g, frames)
  {
    UnSnoc(frames, f);
  }

  lemma FrameCounted(th: TheoraState, frames: seq<Theora.Frame>, packet: MuxPacket,
          all: seq<Theora.Frame>, f: i64, kf: i64, stamp: Option<int>)
    requires th == TheoraState(th.gran, Following(th.gran, frames), Theora.Running(frames), th.frn, th.frd)
    requires f == FrameOf(th, packet) && all == frames + [Theora.Frame(f, packet.keyframe)]
    requires kf == Anchored(th, packet).lastKf && stamp == Theora.Pack(th.gran, f, kf)
    ensures kf == Theora.Running(all) && stamp == Theora.Stamp(th.gran, all, |all| - 1)
    ensures Following(th.gran, all) == if stamp.Some? then WrapI64(f + 1) else th.nextFrame
  {
    RunningSnoc(frames, Theora.Frame(f, packet.keyframe), all);
    StampSnoc(th.gran, frames, Theora.Frame(f, packet.keyframe), all, |frames|);
    FollowingSnoc(th.gran, frames, Theora.Frame(f, packet.keyframe), all, stamp);
  }

  /** The muxer's stamp on a frame, and its counters after it. */
  lemma StampIs(w: StreamWriter, packet: MuxPacket, th: TheoraState, f: i64, kf: i64, stamp: Option<int>)
    requires w.theora == Some(th) && f == FrameOf(th, packet) && kf == Anchored(th, packet).lastKf
    requires stamp == Theora.Pack(th.gran, f, kf)
    ensures StampFor(w, packet)
         == if Fitting64(stamp).Some? then Give(Fitting64(stamp).value) else Refuse
    ensures Fitting64(stamp).Some? <==> stamp.Some?
    ensures Counted(w, packet).theora
         == Some(TheoraState(th.gran, if stamp.Some? then WrapI64(f + 1) else th.nextFrame, kf, th.frn, th.frd))
  {
    Theora.RefusalMeans(th.gran, f, kf);
  }

  /** What the muxer makes of a packet is what the packet brings. */
  lemma CountsOn(w: StreamWriter, s: StreamInfo, given: seq<MuxPacket>, packet: MuxPacket)
    requires Counts(w, s, given)
    ensures Counts(Counted(w, packet), s, given + [packet])
    ensures MarkOf(s, given + [packet])
         == match StampFor(w, packet) case Give(g) => Some(g) case Carry => None case Refuse => None
  {
    UnSnoc(given, packet);
    if CountsFrames(s) {
      var th, frames := w.theora.value, FramesOf(s.theora.value.gran, given);
      var f, kf, all := FrameOf(th, packet), Anchored(th, packet).lastKf, FramesOf(th.gran, given + [packet]);
      FramesSnoc(th.gran, given, packet, frames, f);
      FrameCounted(th, frames, packet, all, f, kf, Theora.Pack(th.gran, f, kf));
      StampIs(w, packet, th, f, kf, Theora.Pack(th.gran, f, kf));
    }
  }
}
