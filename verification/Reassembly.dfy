/**
 Damage-tolerant reassembly of one logical bitstream: what one page does to the packet under
 way, to the delivered packets and to the two damage marks. `Demux` runs one per serial.
 */
module Reassembly {
  import opened Bytes
  import opened Pages
  import opened Segments

  // ----- inside one page -----

  /** Between packets, inside one whose head is held, or inside one whose head is lost. */
  datatype Mode = Between | Inside | Orphan

  /** Packets completed on the page so far, and the bytes held of the one under way. */
  datatype Hold = Hold(packets: seq<Packet>, pending: Packet, mode: Mode)

  function TakeOne(h: Hold, s: Segment): Hold
  {
    if |s| < 255 then Hold(if h.mode == Orphan then h.packets else h.packets + [h.pending + s], [], Between)
    else if h.mode == Orphan then h
    else Hold(h.packets, h.pending + s, Inside)
  }

  function Take(h: Hold, segs: seq<Segment>): Hold
  {
    if segs == [] then h else TakeOne(Take(h, segs[..|segs| - 1]), segs[|segs| - 1])
  }

  lemma TakeSnoc(h: Hold, segs: seq<Segment>, s: Segment)
    ensures Take(h, segs + [s]) == TakeOne(Take(h, segs), s)
  {
    UnSnoc(segs, s);
  }

  /** Packets already out never influence the rest of the page. */
  lemma {:induction false} TakeFrame(h: Hold, done: seq<Packet>, segs: seq<Segment>)
    ensures Take(h.(packets := done + h.packets), segs)
         == Take(h, segs).(packets := done + Take(h, segs).packets)
  {
    if segs != [] {
      var front, s := segs[..|segs| - 1], segs[|segs| - 1];
      TakeFrame(h, done, front);
      var f := Take(h, front);
      Assoc(done, f.packets, [f.pending + s]);
    }
  }

  // ----- page by page -----

  /** Reassembly state of one registered stream. */
  datatype Stream = Stream(pending: Packet, pendingValid: bool, lastSeq: Option<u32>, bosProcessed: bool)

  const REGISTERED := Stream([], false, None, false)

  /** What a page did besides changing the state. */
  datatype Effect = Effect(packets: seq<Packet>, hole: bool, framingError: bool, duplicate: bool, refused: bool)

  const NOTHING := Effect([], false, false, false, false)

  predicate Hole(st: Stream, page: Page)
  {
    !IsFirst(page) && st.lastSeq.Some? && page.seqNo != NextU32(st.lastSeq.value)
  }

  function DropPartial(st: Stream): Stream { st.(pending := [], pendingValid := false) }

  /** How the page's first segment finds the packet under way. */
  function Entry(st: Stream, continued: bool): Hold
  {
    if !continued then Hold([], [], Between)
    else if st.pendingValid then Hold([], st.pending, Inside)
    else Hold([], [], Orphan)
  }

  /** The page's `continued` flag against the partial packet held. */
  predicate Mismatch(st: Stream, continued: bool)
  {
    continued != (st.pending != [] && st.pendingValid)
  }

  /** Take in a page whose stream is registered, its BOS bookkeeping done. */
  function Absorb(st: Stream, page: Page): (Stream, Effect)
  {
    var hole := Hole(st, page);
    var st1 := if hole then DropPartial(st) else st;
    var framing := !hole && !IsFirst(page) && Mismatch(st1, IsContinued(page));
    var segs := PageSegs(page);
    var h := Take(Entry(st1, IsContinued(page)), segs);
    var st2 := if segs == [] then st1 else st1.(pending := h.pending, pendingValid := h.mode == Inside);
    (st2.(lastSeq := Some(page.seqNo)), NOTHING.(packets := h.packets, hole := hole, framingError := framing))
  }

  /**
   One page of a serial, registered or not. A BOS page registers an unknown serial, and restarts
   one whose BOS was seen before; other pages of an unknown serial are skipped. A BOS page
   without a segment cannot be registered.
   */
  function Process(known: Option<Stream>, page: Page): (Option<Stream>, Effect)
  {
    if known.None? then
      if !IsFirst(page) then (None, NOTHING)
      else if PageSegs(page) == [] then (None, NOTHING.(refused := true))
      else
        var (st, e) := Absorb(REGISTERED.(bosProcessed := true), page);
        (Some(st), e)
    else
      var duplicate := IsFirst(page) && known.value.bosProcessed;
      var st0 := if duplicate then REGISTERED else known.value;
      var (st, e) := Absorb(if IsFirst(page) then st0.(bosProcessed := true) else st0, page);
      (Some(st), e.(duplicate := duplicate))
  }

  function Count(b: bool): nat { if b then 1 else 0 }

  /** State, delivered packets and damage counts after a run of pages of one serial. */
  datatype Run = Run(known: Option<Stream>, packets: seq<Packet>, holes: nat, framingErrors: nat, duplicates: nat)

  const IDLE := Run(None, [], 0, 0, 0)

  function Advance(r: Run, page: Page): Run
  {
    var (known, e) := Process(r.known, page);
    Run(known, r.packets + e.packets, r.holes + Count(e.hole), r.framingErrors + Count(e.framingError),
        r.duplicates + Count(e.duplicate))
  }

  function RunFrom(r: Run, q: seq<Page>): Run
  {
    if q == [] then r else Advance(RunFrom(r, q[..|q| - 1]), q[|q| - 1])
  }

  function RunOf(q: seq<Page>): Run { RunFrom(IDLE, q) }

  lemma RunSnoc(r: Run, q: seq<Page>, page: Page)
    ensures RunFrom(r, q + [page]) == Advance(RunFrom(r, q), page)
  {
    UnSnoc(q, page);
  }
}
