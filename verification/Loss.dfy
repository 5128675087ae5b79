/**
 Page loss, exactly: of a well-formed stream from which any non-BOS pages are missing, the
 reassembly delivers the packets all of whose pages arrived, and its damage counters say how
 many gaps and how many orphaned continuations it met.
 */
module Loss {
  import opened Bytes
  import opened Pages
  import opened Segments
  import opened Framing
  import opened Reassembly

  // ----- which pages a packet lies on -----

  datatype Tracked = Tracked(bytes: Packet, first: nat, last: nat)

  /** `Assembly` with page numbers: `first` is where the packet under way began. */
  datatype Track = Track(done: seq<Tracked>, pending: Packet, open: bool, first: nat)

  const UNTRACKED := Track([], [], false, 0)

  function TrackOne(t: Track, s: Segment, n: nat): Track
  {
    var first := if t.open then t.first else n;
    if |s| < 255 then Track(t.done + [Tracked(t.pending + s, first, n)], [], false, first)
    else Track(t.done, t.pending + s, true, first)
  }

  function TrackSegs(t: Track, segs: seq<Segment>, n: nat): Track
  {
    if segs == [] then t else TrackOne(TrackSegs(t, segs[..|segs| - 1], n), segs[|segs| - 1], n)
  }

  /** The packets of the pages `q`, each with the pages it begins and ends on. */
  function TrackPages(q: seq<Page>): Track
  {
    if q == [] then UNTRACKED
    else TrackSegs(TrackPages(q[..|q| - 1]), PageSegs(q[|q| - 1]), |q| - 1)
  }

  function BytesOf(ts: seq<Tracked>): seq<Packet>
  {
    if ts == [] then [] else BytesOf(ts[..|ts| - 1]) + [ts[|ts| - 1].bytes]
  }

  function Untracked(t: Track): Assembly { Assembly(BytesOf(t.done), t.pending, t.open) }

  lemma TrackOneIsFeed(t: Track, s: Segment, n: nat)
    ensures Untracked(TrackOne(t, s, n)) == FeedOne(Untracked(t), s)
  {
    if |s| < 255 {
      UnSnoc(t.done, Tracked(t.pending + s, if t.open then t.first else n, n));
    }
  }

  lemma {:induction false} TrackSegsIsFeed(t: Track, segs: seq<Segment>, n: nat)
    ensures Untracked(TrackSegs(t, segs, n)) == Feed(Untracked(t), segs)
  {
    if segs != [] {
      TrackSegsIsFeed(t, segs[..|segs| - 1], n);
      TrackOneIsFeed(TrackSegs(t, segs[..|segs| - 1], n), segs[|segs| - 1], n);
    }
  }

  /** Page numbers aside, tracking is plain reassembly. */
  lemma {:induction false} TrackIsFeed(q: seq<Page>)
    ensures Untracked(TrackPages(q)) == Feed(FRESH, AllSegs(q))
  {
    if q != [] {
      var front, p := q[..|q| - 1], q[|q| - 1];
      TrackIsFeed(front);
      TrackSegsIsFeed(TrackPages(front), PageSegs(p), |front|);
      FeedConcat(FRESH, AllSegs(front), PageSegs(p));
    }
  }

  // ----- what survives -----

  predicate AllKept(keep: seq<bool>, from: nat, to: nat) { forall k :: from <= k < to ==> k < |keep| && keep[k] }

  /** The packets none of whose pages is missing. */
  function Survivors(ts: seq<Tracked>, keep: seq<bool>): seq<Packet>
  {
    if ts == [] then []
    else
      var t := ts[|ts| - 1];
      Survivors(ts[..|ts| - 1], keep) + if AllKept(keep, t.first, t.last + 1) then [t.bytes] else []
  }

  lemma SurvivorsSnoc(ts: seq<Tracked>, t: Tracked, keep: seq<bool>)
    ensures Survivors(ts + [t], keep)
        == Survivors(ts, keep) + if AllKept(keep, t.first, t.last + 1) then [t.bytes] else []
  {
    UnSnoc(ts, t);
  }

  predicate EndBefore(ts: seq<Tracked>, n: nat) { forall i :: 0 <= i < |ts| ==> ts[i].last < n }

  /** A later page decides nothing about packets that ended before it. */
  lemma {:induction false} SurvivorsLater(ts: seq<Tracked>, keep: seq<bool>, b: bool)
    requires EndBefore(ts, |keep|)
    ensures Survivors(ts, keep + [b]) == Survivors(ts, keep)
  {
    if ts != [] {
      var front, t := ts[..|ts| - 1], ts[|ts| - 1];
      assert EndBefore(front, |keep|);
      SurvivorsLater(front, keep, b);
      KeptLater(keep, b, t.first, t.last + 1);
    }
  }

  lemma KeptLater(keep: seq<bool>, b: bool, from: nat, to: nat)
    requires to <= |keep|
    ensures AllKept(keep + [b], from, to) == AllKept(keep, from, to)
  {
    forall k | from <= k < to
      ensures (keep + [b])[k] == keep[k]
    {}
  }

  /** The pages that arrive. */
  function Received(q: seq<Page>, keep: seq<bool>): seq<Page>
    requires |keep| == |q|
  {
    if q == [] then []
    else Received(q[..|q| - 1], keep[..|q| - 1]) + if keep[|q| - 1] then [q[|q| - 1]] else []
  }

  /** How many runs of missing pages a received page follows. */
  function Gaps(keep: seq<bool>): nat
  {
    if |keep| < 2 then 0
    else Gaps(keep[..|keep| - 1]) + Count(keep[|keep| - 1] && !keep[|keep| - 2])
  }

  /**
   Received pages, right after another received page, that go on with a packet some earlier
   page of which is missing.
   */
  function Orphans(q: seq<Page>, keep: seq<bool>): nat
    requires |keep| == |q|
  {
    if |q| < 2 then 0
    else
      var n := |q| - 1;
      var t := TrackPages(q[..n]);
      Orphans(q[..n], keep[..n]) + Count(keep[n] && keep[n - 1] && t.open && !AllKept(keep, t.first, n))
  }

  // ----- page numbers stay in range -----

  predicate InRange(t: Track, n: nat)
  {
    && EndBefore(t.done, n)
    && (t.open ==> t.first < n && t.pending != [])
    && (!t.open ==> t.pending == [])
  }

  lemma {:induction false} SegsInRange(t: Track, segs: seq<Segment>, n: nat)
    requires InRange(t, n + 1)
    ensures InRange(TrackSegs(t, segs, n), n + 1)
  {
    if segs != [] {
      SegsInRange(t, segs[..|segs| - 1], n);
    }
  }

  lemma {:induction false} PagesInRange(q: seq<Page>)
    ensures InRange(TrackPages(q), |q|)
  {
    if q != [] {
      PagesInRange(q[..|q| - 1]);
      SegsInRange(TrackPages(q[..|q| - 1]), PageSegs(q[|q| - 1]), |q| - 1);
    }
  }

  // ----- one page of a damaged stream -----

  /** What the reassembly holds inside page `n`, against the packets tracked so far. */
  predicate Matches(t: Track, h: Hold, base: seq<Packet>, keep: seq<bool>, n: nat)
  {
    && Survivors(t.done, keep) == base + h.packets
    && (h.mode == Between <==> !t.open)
    && (h.mode == Inside <==> t.open && AllKept(keep, t.first, n + 1))
    && (h.mode == Inside ==> h.pending == t.pending)
    && (h.mode == Between ==> h.pending == [] && t.pending == [])
  }

  lemma MatchesOne(t: Track, h: Hold, base: seq<Packet>, keep: seq<bool>, n: nat, s: Segment)
    requires Matches(t, h, base, keep, n) && AllKept(keep, n, n + 1)
    ensures Matches(TrackOne(t, s, n), TakeOne(h, s), base, keep, n)
  {
    if |s| < 255 {
      var done := Tracked(t.pending + s, if t.open then t.first else n, n);
      SurvivorsSnoc(t.done, done, keep);
      Assoc(base, h.packets, [done.bytes]);
      PlusNil(base + h.packets);
    }
  }

  lemma {:induction false} MatchesSegs(t: Track, h: Hold, base: seq<Packet>, keep: seq<bool>, n: nat,
          segs: seq<Segment>)
    requires Matches(t, h, base, keep, n) && AllKept(keep, n, n + 1)
    ensures Matches(TrackSegs(t, segs, n), Take(h, segs), base, keep, n)
  {
    if segs != [] {
      var front := segs[..|segs| - 1];
      MatchesSegs(t, h, base, keep, n, front);
      MatchesOne(TrackSegs(t, front, n), Take(h, front), base, keep, n, segs[|segs| - 1]);
    }
  }

  /** Packets ending on a missing page do not survive. */
  lemma {:induction false} MissingPage(t: Track, keep: seq<bool>, n: nat, segs: seq<Segment>)
    requires n < |keep| && !keep[n] && InRange(t, n + 1)
    ensures Survivors(TrackSegs(t, segs, n).done, keep) == Survivors(t.done, keep)
  {
    if segs != [] {
      var front, s := segs[..|segs| - 1], segs[|segs| - 1];
      MissingPage(t, keep, n, front);
      SegsInRange(t, front, n);
      var u := TrackSegs(t, front, n);
      if |s| < 255 {
        var done := Tracked(u.pending + s, if u.open then u.first else n, n);
        assert done.first <= n && !AllKept(keep, done.first, n + 1);
        SurvivorsSnoc(u.done, done, keep);
        PlusNil(Survivors(u.done, keep));
      }
    }
  }

  // ----- a whole run -----

  /** Pages numbered from 0, the first alone marked BOS and not empty. */
  predicate Numbered(q: seq<Page>)
  {
    && |q| <= TWO32
    && (forall i :: 0 <= i < |q| ==> q[i].seqNo == i && (IsFirst(q[i]) <==> i == 0))
    && (q != [] ==> PageSegs(q[0]) != [])
  }

  lemma NumberedFront(q: seq<Page>, p: Page)
    requires Numbered(q + [p])
    ensures Numbered(q) && p.seqNo == |q| && (IsFirst(p) <==> q == []) && (q == [] ==> PageSegs(p) != [])
  {
    var r := q + [p];
    assert r[|q|] == p;
    forall i | 0 <= i < |q|
      ensures q[i].seqNo == i && (IsFirst(q[i]) <==> i == 0)
    {
      assert r[i] == q[i];
    }
    assert q != [] ==> r[0] == q[0];
  }

  function LastKept(keep: seq<bool>): nat
    requires keep != [] && keep[0]
    ensures LastKept(keep) < |keep|
    ensures LastKept(keep) == |keep| - 1 <==> keep[|keep| - 1]
  {
    if keep[|keep| - 1] then |keep| - 1 else LastKept(keep[..|keep| - 1])
  }

  /** The partial packet held is the one under way, and only if none of its pages is missing. */
  predicate Agrees(st: Stream, t: Track, keep: seq<bool>)
  {
    && (st.pendingValid <==> t.open && AllKept(keep, t.first, |keep|))
    && (st.pendingValid ==> st.pending == t.pending)
  }

  /** The state after the pages of `q` that `keep` lets through. */
  predicate InStep(r: Run, q: seq<Page>, keep: seq<bool>)
    requires |keep| == |q|
  {
    && r.packets == Survivors(TrackPages(q).done, keep)
    && r.holes == Gaps(keep) && r.framingErrors == Orphans(q, keep) && r.duplicates == 0
    && (q == [] ==> r == IDLE)
    && (q != [] ==> keep[0] && r.known.Some? && r.known.value.bosProcessed)
    && (q != [] ==> r.known.value.lastSeq == Some(LastKept(keep)))
    && (q != [] && keep[|q| - 1] ==> Agrees(r.known.value, TrackPages(q), keep))
  }

  /** Whatever came before, the page's first segment finds the packet under way or nothing. */
  lemma EntryMatches(st: Stream, t: Track, base: seq<Packet>, keep: seq<bool>, page: Page)
    requires Agrees(st, t, keep) && InRange(t, |keep|) && base == Survivors(t.done, keep)
    requires IsContinued(page) == t.open
    ensures Matches(t, Entry(st, IsContinued(page)), base, keep + [true], |keep|)
  {
    SurvivorsLater(t.done, keep, true);
    PlusNil(base);
    KeptLater(keep, true, t.first, |keep|);
    assert (keep + [true])[|keep|];
    assert AllKept(keep + [true], t.first, |keep| + 1) <==> AllKept(keep + [true], t.first, |keep|);
  }

  lemma AbsorbKept(st: Stream, t: Track, base: seq<Packet>, keep: seq<bool>, page: Page)
    requires Agrees(if Hole(st, page) then DropPartial(st) else st, t, keep)
    requires InRange(t, |keep|) && base == Survivors(t.done, keep) && IsContinued(page) == t.open
    ensures var t' := TrackSegs(t, PageSegs(page), |keep|);
            var (st', e) := Absorb(st, page);
            && base + e.packets == Survivors(t'.done, keep + [true])
            && Agrees(st', t', keep + [true]) && st'.lastSeq == Some(page.seqNo) && st'.bosProcessed == st.bosProcessed
            && e.hole == Hole(st, page) && !e.duplicate
            && e.framingError == (!e.hole && !IsFirst(page) && t.open && !AllKept(keep, t.first, |keep|))
  {
    var st1 := if Hole(st, page) then DropPartial(st) else st;
    EntryMatches(st1, t, base, keep, page);
    MatchesSegs(t, Entry(st1, IsContinued(page)), base, keep + [true], |keep|, PageSegs(page));
  }

  lemma AfterGap(st: Stream, t: Track, keep: seq<bool>)
    requires keep != [] && !keep[|keep| - 1] && InRange(t, |keep|)
    ensures Agrees(DropPartial(st), t, keep)
  {
    assert t.open ==> !AllKept(keep, t.first, |keep|);
  }

  lemma CountsSnoc(q: seq<Page>, p: Page, keep: seq<bool>, b: bool)
    requires |keep| == |q|
    ensures Received(q + [p], keep + [b]) == Received(q, keep) + if b then [p] else []
    ensures q != [] ==> Gaps(keep + [b]) == Gaps(keep) + Count(b && !keep[|q| - 1])
    ensures q != [] ==> var t := TrackPages(q);
                        Orphans(q + [p], keep + [b])
                        == Orphans(q, keep) + Count(b && keep[|q| - 1] && t.open && !AllKept(keep, t.first, |q|))
    ensures q == [] ==> Gaps(keep + [b]) == 0 && Orphans(q + [p], keep + [b]) == 0
  {
    UnSnoc(q, p);
    UnSnoc(keep, b);
    if q != [] {
      KeptLater(keep, b, TrackPages(q).first, |q|);
    }
  }

  lemma LastKeptSnoc(keep: seq<bool>, b: bool)
    requires if keep == [] then b else keep[0]
    ensures (keep + [b])[0] && LastKept(keep + [b]) == if b then |keep| else LastKept(keep)
  {
    UnSnoc(keep, b);
  }

  lemma FirstPage(p: Page)
    requires Numbered([p]) && !IsContinued(p)
    ensures InStep(Advance(IDLE, p), [p], [true])
  {
    NumberedFront([], p);
    assert [] + [p] == [p] && [] + [true] == [true];
    CountsSnoc([], p, [], true);
    LastKeptSnoc([], true);
    AbsorbKept(REGISTERED.(bosProcessed := true), UNTRACKED, [], [], p);
    assert [p][..0] == [];
  }

  lemma AdvanceKnown(r: Run, p: Page)
    requires r.known.Some? && !IsFirst(p)
    ensures var (st, e) := Absorb(r.known.value, p);
            Advance(r, p) == Run(Some(st), r.packets + e.packets, r.holes + Count(e.hole),
                                 r.framingErrors + Count(e.framingError), r.duplicates)
  {
    assert !Absorb(r.known.value, p).1.duplicate;
  }

  lemma HoleMeansGap(st: Stream, keep: seq<bool>, p: Page)
    requires keep != [] && keep[0] && |keep| < TWO32 && st.lastSeq == Some(LastKept(keep))
    requires p.seqNo == |keep| && !IsFirst(p)
    ensures Hole(st, p) <==> !keep[|keep| - 1]
  {}

  /** Once a gap has dropped the partial packet, what is held agrees with what arrived. */
  lemma AfterHole(st: Stream, t: Track, keep: seq<bool>, p: Page)
    requires keep != [] && keep[0] && |keep| < TWO32 && st.lastSeq == Some(LastKept(keep))
    requires p.seqNo == |keep| && !IsFirst(p) && InRange(t, |keep|)
    requires keep[|keep| - 1] ==> Agrees(st, t, keep)
    ensures Hole(st, p) <==> !keep[|keep| - 1]
    ensures Agrees(if Hole(st, p) then DropPartial(st) else st, t, keep)
  {
    HoleMeansGap(st, keep, p);
    if !keep[|keep| - 1] {
      AfterGap(st, t, keep);
    }
  }

  lemma TrackSnoc(q: seq<Page>, p: Page)
    ensures TrackPages(q + [p]) == TrackSegs(TrackPages(q), PageSegs(p), |q|)
  {
    UnSnoc(q, p);
  }

  lemma NextFacts(q: seq<Page>, p: Page)
    requires q != [] && Numbered(q + [p])
    ensures p.seqNo == |q| && |q| < TWO32 && !IsFirst(p) && InRange(TrackPages(q), |q|)
  {
    NumberedFront(q, p);
    PagesInRange(q);
  }

  lemma ReadyFor(st: Stream, q: seq<Page>, keep: seq<bool>, p: Page)
    requires |keep| == |q| && q != [] && keep[0] && Numbered(q + [p])
    requires st.lastSeq == Some(LastKept(keep)) && (keep[|q| - 1] ==> Agrees(st, TrackPages(q), keep))
    ensures Hole(st, p) == !keep[|q| - 1] && p.seqNo == |q| && !IsFirst(p) && InRange(TrackPages(q), |q|)
    ensures Agrees(if Hole(st, p) then DropPartial(st) else st, TrackPages(q), keep)
  {
    NextFacts(q, p);
    AfterHole(st, TrackPages(q), keep, p);
  }

  /** What taking in the next page does, in terms of the pages that came through before it. */
  lemma KeptPage(st: Stream, q: seq<Page>, keep: seq<bool>, p: Page)
    requires |keep| == |q| && q != [] && keep[0] && Numbered(q + [p]) && IsContinued(p) == TrackPages(q).open
    requires st.lastSeq == Some(LastKept(keep)) && (keep[|q| - 1] ==> Agrees(st, TrackPages(q), keep))
    ensures var t := TrackPages(q);
            var (st', e) := Absorb(st, p);
            && Survivors(t.done, keep) + e.packets == Survivors(TrackPages(q + [p]).done, keep + [true])
            && Agrees(st', TrackPages(q + [p]), keep + [true])
            && st'.lastSeq == Some(|q|) && st'.bosProcessed == st.bosProcessed
            && e.hole == !keep[|q| - 1]
            && e.framingError == (keep[|q| - 1] && t.open && !AllKept(keep, t.first, |q|))
  {
    ReadyFor(st, q, keep, p);
    TrackSnoc(q, p);
    AbsorbKept(st, TrackPages(q), Survivors(TrackPages(q).done, keep), keep, p);
  }

  lemma NextKept(r: Run, q: seq<Page>, keep: seq<bool>, p: Page)
    requires |keep| == |q| && q != [] && InStep(r, q, keep)
    requires Numbered(q + [p]) && IsContinued(p) == TrackPages(q).open
    ensures InStep(Advance(r, p), q + [p], keep + [true])
  {
    NumberedFront(q, p);
    CountsSnoc(q, p, keep, true);
    LastKeptSnoc(keep, true);
    KeptPage(r.known.value, q, keep, p);
    AdvanceKnown(r, p);
  }

  lemma NextDropped(r: Run, q: seq<Page>, keep: seq<bool>, p: Page)
    requires |keep| == |q| && q != [] && InStep(r, q, keep)
    ensures InStep(r, q + [p], keep + [false])
  {
    var t := TrackPages(q);
    PagesInRange(q);
    UnSnoc(q, p);
    CountsSnoc(q, p, keep, false);
    LastKeptSnoc(keep, false);
    SurvivorsLater(t.done, keep, false);
    MissingPage(t, keep + [false], |q|, PageSegs(p));
  }

  lemma LossStep(q: seq<Page>, keep: seq<bool>, p: Page, b: bool)
    requires |keep| == |q| && Numbered(q + [p]) && IsContinued(p) == TrackPages(q).open
    requires InStep(RunOf(Received(q, keep)), q, keep) && (q == [] ==> b)
    ensures InStep(RunOf(Received(q + [p], keep + [b])), q + [p], keep + [b])
  {
    CountsSnoc(q, p, keep, b);
    RunSnoc(IDLE, Received(q, keep), p);
    PlusNil(Received(q, keep));
    if q == [] {
      assert q + [p] == [p] && keep + [b] == [true];
      FirstPage(p);
    } else if b {
      NextKept(RunOf(Received(q, keep)), q, keep, p);
    } else {
      NextDropped(RunOf(Received(q, keep)), q, keep, p);
    }
  }

  lemma {:induction false} LossInStep(q: seq<Page>, keep: seq<bool>)
    requires |keep| == |q| && Numbered(q) && Contiguous(q) && (q != [] ==> keep[0])
    ensures InStep(RunOf(Received(q, keep)), q, keep)
  {
    if q != [] {
      var front, p := q[..|q| - 1], q[|q| - 1];
      var kept, b := keep[..|q| - 1], keep[|q| - 1];
      SplitLast(q);
      SplitLast(keep);
      NumberedFront(front, p);
      TrackIsFeed(front);
      LossInStep(front, kept);
      LossStep(front, kept, p, b);
    }
  }

  /**
   Drop any pages but the first: exactly the packets every page of which arrived are delivered,
   in order and byte for byte; `holes` counts the gaps a received page follows; framing errors
   count the orphaned continuations met without a gap in front.
   */
  lemma LossExactness(q: seq<Page>, keep: seq<bool>)
    requires |keep| == |q| && Numbered(q) && Contiguous(q) && (q != [] ==> keep[0])
    ensures var r := RunOf(Received(q, keep));
            && r.packets == Survivors(TrackPages(q).done, keep)
            && r.holes == Gaps(keep) && r.framingErrors == Orphans(q, keep) && r.duplicates == 0
    ensures BytesOf(TrackPages(q).done) == Feed(FRESH, AllSegs(q)).packets
  {
    LossInStep(q, keep);
    TrackIsFeed(q);
  }
}
