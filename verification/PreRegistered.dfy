/**
 Streams registered before any of their pages is taken in. Their first BOS page does not start
 afresh: a partial packet held at that moment may go on over it. This is the one way in which
 unrelated pages are joined, and here is exactly when it happens.
 */
module PreRegistered {
  import opened Bytes
  import opened Pages
  import opened Segments
  import opened Reassembly
  import opened Splice

  const PRE_REGISTERED := Run(Some(REGISTERED), [], 0, 0, 0)

  /** A head held and a head lost never come out the same, unless no packet ends on the page. */
  lemma {:induction false} HeldOrLost(pending: Packet, segs: seq<Segment>)
    ensures var held, lost := Take(Hold([], pending, Inside), segs), Take(Hold([], [], Orphan), segs);
            if ShortCount(segs) == 0 then
              && held.mode == Inside && held.packets == [] && |held.pending| >= |pending|
              && lost == Hold([], [], Orphan)
            else
              && held.mode == lost.mode != Orphan && held.pending == lost.pending
              && |held.packets| == |lost.packets| + 1 && held.packets[1..] == lost.packets
  {
    if segs != [] {
      HeldOrLost(pending, segs[..|segs| - 1]);
    }
  }

  /**
   A BOS page whose stream is registered but has not shown its BOS yet forgets the partial packet
   held exactly when it has a segment and does not claim to continue a packet.
   */
  lemma BosStartsAfresh(st: Stream, p: Page)
    requires !st.bosProcessed && IsFirst(p) && Settled(st)
    ensures Process(Some(st), p) == Process(Forget(Some(st), p), p)
       <==> !(st.pendingValid && (IsContinued(p) || PageSegs(p) == []))
    ensures PageSegs(p) != [] && !(st.pendingValid && IsContinued(p)) ==> Process(Some(st), p) == Process(None, p)
  {
    if st.pendingValid && IsContinued(p) {
      HeldOrLost(st.pending, PageSegs(p));
    }
  }

  lemma OneBosPage(p: Page)
    requires IsFirst(p) && PageSegs(p) != []
    ensures Advance(PRE_REGISTERED, p) == AdvanceAfresh(PRE_REGISTERED, p) == Advance(IDLE, p)
    ensures Advance(IDLE, p).known.Some? && Advance(IDLE, p).known.value.bosProcessed
  {
    BosStartsAfresh(REGISTERED, p);
  }

  /** Registered ahead or not, a stream that opens with its BOS page runs the same. */
  lemma {:induction false} PreRegisteredRun(q: seq<Page>)
    requires q != [] && IsFirst(q[0]) && PageSegs(q[0]) != []
    ensures RunFrom(PRE_REGISTERED, q) == RunOf(q) && RunOf(q).known.Some? && RunOf(q).known.value.bosProcessed
  {
    var front, p := q[..|q| - 1], q[|q| - 1];
    if front == [] {
      OneBosPage(p);
      assert RunFrom(PRE_REGISTERED, front) == PRE_REGISTERED && RunOf(front) == IDLE;
    } else {
      PreRegisteredRun(front);
    }
  }

  lemma {:induction false} OpenedAfresh(q: seq<Page>)
    requires q != [] && IsFirst(q[0]) && PageSegs(q[0]) != []
    ensures AfreshFrom(PRE_REGISTERED, q) == RunOf(q)
  {
    var front, p := q[..|q| - 1], q[|q| - 1];
    if front == [] {
      OneBosPage(p);
      assert AfreshFrom(PRE_REGISTERED, front) == PRE_REGISTERED && RunOf(front) == IDLE;
    } else {
      OpenedAfresh(front);
      OwnBosAfresh(q);
      OwnBosAfresh(front);
    }
  }

  /** So such a stream delivers every whole packet its pages hold, and nothing else. */
  lemma OpenedIsExact(q: seq<Page>, l: Layout) returns (spans: seq<Span>)
    requires q != [] && IsFirst(q[0]) && PageSegs(q[0]) != [] && l == LayoutOf(q)
    ensures AllGenuine(l, RunOf(q).packets, spans) && InOrder(spans, |l.segs|)
    ensures forall span :: Whole(l, span) <==> span in spans
  {
    OpenedAfresh(q);
    spans := AfreshIsExact(PRE_REGISTERED, q, l);
  }

  // ----- when pages are spliced -----

  predicate FirstBos(q: seq<Page>, b: nat)
  {
    b < |q| && IsFirst(q[b]) && NoBos(q[..b])
  }

  predicate NoBos(q: seq<Page>) { forall k :: 0 <= k < |q| ==> !IsFirst(q[k]) }

  /** The pages end inside a packet whose beginning is among them. */
  ghost predicate Unfinished(l: Layout) { exists y :: Reaches(l, y, |l.segs|) }

  /** Page `p` lets a partial packet go on: it claims to continue one, or has no segment. */
  predicate GoesOn(p: Page) { PageSegs(p) == [] || IsContinued(p) }

  predicate Ends(p: Page) { ShortCount(PageSegs(p)) > 0 }

  /** Page `k`, the BOS page `b` or a later one, takes on what was held before page `b`. */
  predicate Onto(q: seq<Page>, b: nat, k: nat)
    requires b <= k < |q|
  {
    GoesOn(q[k]) && (k > b ==> !IsFirst(q[k]) && q[k].seqNo == NextU32(q[k - 1].seqNo))
  }

  predicate CarriesOn(q: seq<Page>, b: nat, k: nat)
  {
    b <= k < |q| && Onto(q, b, k) && !Ends(q[k])
  }

  /** Every page from `b` up to `e` takes it on without ending it. */
  predicate CarriedTo(q: seq<Page>, b: nat, e: nat) { forall k :: b <= k < e ==> CarriesOn(q, b, k) }

  /** Page `e` completes what was held before the BOS page `b`. */
  predicate Resumes(q: seq<Page>, b: nat, e: nat)
  {
    b <= e < |q| && CarriedTo(q, b, e) && Onto(q, b, e) && Ends(q[e])
  }

  ghost predicate Resumed(q: seq<Page>, b: nat) { exists e: nat :: Resumes(q, b, e) }

  /** The first BOS page, page `b`, finds a packet unfinished, and the pages from it on complete that packet. */
  ghost predicate SplicedBy(q: seq<Page>, b: nat)
  {
    FirstBos(q, b) && Unfinished(LayoutOf(q[..b])) && Resumed(q, b)
  }

  ghost predicate Spliced(q: seq<Page>) { exists b: nat :: SplicedBy(q, b) }

  // ----- the run against the one that starts afresh -----

  /** The two runs hold and have delivered the same. */
  predicate Same(r: Run, a: Run) { r.known == a.known && r.packets == a.packets }

  /** The run still holds what the other has forgotten. */
  predicate Ahead(r: Run, a: Run, seqNo: u32)
  {
    && r.known.Some? && r.known.value.pendingValid && r.known.value.bosProcessed && r.known.value.lastSeq == Some(seqNo)
    && a.known == Some(DropPartial(r.known.value)) && r.packets == a.packets
  }

  /** The run has delivered one packet more. */
  predicate OneMore(r: Run, a: Run) { r.known == a.known && |r.packets| == |a.packets| + 1 }

  predicate Seen(r: Run) { r.known.Some? && r.known.value.bosProcessed && Settled(r.known.value) }

  lemma {:induction false} TakeSettles(h: Hold, segs: seq<Segment>)
    requires h.mode == Inside || h.pending == []
    ensures var h' := Take(h, segs); h'.mode == Inside || h'.pending == []
  {
    if segs != [] {
      TakeSettles(h, segs[..|segs| - 1]);
    }
  }

  lemma AbsorbSettles(st: Stream, p: Page)
    requires Settled(st)
    ensures Settled(Absorb(st, p).0)
  {
    TakeSettles(Entry(Intact(st, p), IsContinued(p)), PageSegs(p));
  }

  lemma SameStays(r: Run, a: Run, p: Page)
    requires Same(r, a) && Seen(r)
    ensures Same(Advance(r, p), AdvanceAfresh(a, p)) && Seen(Advance(r, p))
  {
    AbsorbSettles(Entered(r.known, p).value, p);
  }

  lemma OneMoreStays(r: Run, a: Run, p: Page)
    requires OneMore(r, a) && Seen(r)
    ensures OneMore(Advance(r, p), AdvanceAfresh(a, p)) && Seen(Advance(r, p))
  {
    AbsorbSettles(Entered(r.known, p).value, p);
  }

  /** What becomes of a packet held against one forgotten. */
  lemma HeldOver(st: Stream, p: Page)
    requires st.pendingValid && st.bosProcessed && !Hole(st, p)
    ensures var (st', e) := Absorb(st, p);
            var (lost, f) := Absorb(DropPartial(st), p);
            if !GoesOn(p) then st' == lost && e.packets == f.packets && Settled(st')
            else if Ends(p) then st' == lost && |e.packets| == |f.packets| + 1 && Settled(st')
            else st'.pendingValid && lost == DropPartial(st') && e.packets == f.packets
  {
    HeldOrLost(st.pending, PageSegs(p));
    AbsorbSettles(st, p);
  }

  lemma AheadStep(r: Run, a: Run, seqNo: u32, p: Page)
    requires Ahead(r, a, seqNo)
    ensures var r', a' := Advance(r, p), AdvanceAfresh(a, p);
            if !(GoesOn(p) && !IsFirst(p) && p.seqNo == NextU32(seqNo)) then Same(r', a') && Seen(r')
            else if Ends(p) then OneMore(r', a') && Seen(r')
            else Ahead(r', a', p.seqNo)
  {
    var st := r.known.value;
    if IsFirst(p) {
      AbsorbSettles(Entered(r.known, p).value, p);
    } else if Hole(st, p) {
      AbsorbSettles(DropPartial(st), p);
    } else {
      HeldOver(st, p);
    }
  }

  /** The first BOS page. */
  lemma BosStep(r: Run, p: Page)
    requires r.known.Some? && !r.known.value.bosProcessed && Settled(r.known.value) && IsFirst(p)
    ensures var r', a' := Advance(r, p), AdvanceAfresh(r, p);
            if !(r.known.value.pendingValid && GoesOn(p)) then Same(r', a') && Seen(r')
            else if Ends(p) then OneMore(r', a') && Seen(r')
            else Ahead(r', a', p.seqNo)
  {
    var st := r.known.value.(bosProcessed := true);
    AbsorbSettles(st, p);
    if st.pendingValid {
      HeldOver(st, p);
    }
  }

  // ----- over a whole run -----

  /** Registered, its BOS still to come, nothing held or out. */
  predicate Awaiting(r: Run) { Idle(r) && r.known.Some? && !r.known.value.bosProcessed }

  lemma {:induction false} BeforeBos(r0: Run, q: seq<Page>)
    requires Awaiting(r0) && NoBos(q)
    ensures var r := RunFrom(r0, q);
            r == AfreshFrom(r0, q) && r.known.Some? && !r.known.value.bosProcessed && Settled(r.known.value)
  {
    if q != [] {
      var front, p := q[..|q| - 1], q[|q| - 1];
      BeforeBos(r0, front);
      AbsorbSettles(RunFrom(r0, front).known.value, p);
    }
  }

  /** A partial packet is held if and only if the pages end inside one. */
  lemma HeldMeans(r0: Run, q: seq<Page>, l: Layout)
    requires Awaiting(r0) && NoBos(q) && l == LayoutOf(q)
    ensures var r := RunFrom(r0, q); r.known.Some? && (r.known.value.pendingValid <==> Unfinished(l))
  {
    BeforeBos(r0, q);
    AfreshTraced(r0, q, true);
    var t := TrailFrom(r0, q);
    var r := RunFrom(r0, q);
    assert Accounted(l, r.packets, r.known.value, t) && Exact(l, r.known.value, t);
  }

  lemma CarriedPrefix(front: seq<Page>, p: Page, q: seq<Page>, b: nat, e: nat)
    requires q == front + [p] && b <= e <= |front|
    ensures CarriedTo(q, b, e) == CarriedTo(front, b, e)
  {
    forall k | b <= k < e
      ensures CarriesOn(q, b, k) == CarriesOn(front, b, k)
    {
      assert q[k] == front[k] && (k > b ==> q[k - 1] == front[k - 1]);
    }
  }

  lemma AllOneMore(on: nat -> bool, b: nat, n: nat, m: nat)
    requires b <= n && m == n + 1
    ensures (forall k: nat :: b <= k < m ==> on(k)) <==> (forall k: nat :: b <= k < n ==> on(k)) && on(n)
  {}

  lemma CarriedMeans(q: seq<Page>, b: nat, e: nat, on: nat -> bool)
    requires forall k: nat :: on(k) == CarriesOn(q, b, k)
    ensures CarriedTo(q, b, e) <==> forall k: nat :: b <= k < e ==> on(k)
  {}

  lemma CarriedOneMore(q: seq<Page>, b: nat, n: nat)
    requires b <= n && |q| == n + 1
    ensures CarriedTo(q, b, |q|) <==> CarriedTo(q, b, n) && CarriesOn(q, b, n)
  {
    var on := (k: nat) => CarriesOn(q, b, k);
    CarriedMeans(q, b, |q|, on);
    CarriedMeans(q, b, n, on);
    AllOneMore(on, b, n, |q|);
  }

  lemma ResumesPrefix(front: seq<Page>, p: Page, q: seq<Page>, b: nat, e: nat)
    requires q == front + [p] && b <= e < |front|
    ensures Resumes(q, b, e) == Resumes(front, b, e)
  {
    CarriedPrefix(front, p, q, b, e);
    assert q[e] == front[e] && Onto(q, b, e) == Onto(front, b, e);
  }

  lemma ResumesSame(front: seq<Page>, p: Page, q: seq<Page>, b: nat, e: nat)
    requires q == front + [p] && e < |front|
    ensures Resumes(q, b, e) == Resumes(front, b, e)
  {
    if b <= e {
      ResumesPrefix(front, p, q, b, e);
    }
  }

  lemma ResumedMeans(q: seq<Page>, b: nat, at: nat -> bool)
    requires forall e: nat :: at(e) == Resumes(q, b, e)
    ensures Resumed(q, b) <==> exists e: nat :: at(e)
  {
    if Resumed(q, b) {
      var e: nat :| Resumes(q, b, e);
      assert at(e);
    }
    if exists e: nat :: at(e) {
      var e: nat :| at(e);
      assert Resumes(q, b, e);
    }
  }

  lemma SomeOneMore(before: nat -> bool, after: nat -> bool, n: nat)
    requires forall e: nat :: e < n ==> after(e) == before(e)
    requires forall e: nat :: e >= n ==> !before(e)
    requires forall e: nat :: e > n ==> !after(e)
    ensures (exists e: nat :: after(e)) <==> (exists e: nat :: before(e)) || after(n)
  {
    if exists e: nat :: before(e) {
      var e: nat :| before(e);
      assert after(e);
    }
    if exists e: nat :: after(e) {
      var e: nat :| after(e);
      assert e < n ==> before(e);
    }
  }

  lemma ResumedSnoc(front: seq<Page>, p: Page, q: seq<Page>, b: nat, n: nat)
    requires q == front + [p] && b < |front| == n
    ensures Resumed(q, b) <==> Resumed(front, b) || (CarriedTo(front, b, n) && Onto(q, b, n) && Ends(p))
  {
    var before, after := (e: nat) => Resumes(front, b, e), (e: nat) => Resumes(q, b, e);
    forall e: nat | e < n
      ensures after(e) == before(e)
    {
      ResumesSame(front, p, q, b, e);
    }
    ResumedMeans(front, b, before);
    ResumedMeans(q, b, after);
    SomeOneMore(before, after, n);
    CarriedPrefix(front, p, q, b, n);
    assert q[n] == p;
  }

  /** A packet still carried has not ended yet. */
  lemma CarriedNotResumed(q: seq<Page>, b: nat)
    requires b < |q| && CarriedTo(q, b, |q|)
    ensures !Resumed(q, b)
  {
    forall e: nat | b <= e < |q|
      ensures !Resumes(q, b, e)
    {
      assert CarriesOn(q, b, e);
    }
  }

  /** Where the two runs stand once the first BOS page is in: one still ahead, one packet more, or the same. */
  predicate Standing(r: Run, a: Run, seqNo: u32, carrying: bool, done: bool)
  {
    if carrying then Ahead(r, a, seqNo) else if done then OneMore(r, a) && Seen(r) else Same(r, a) && Seen(r)
  }

  lemma StandingStep(r: Run, a: Run, seqNo: u32, p: Page, carrying: bool, done: bool, onto: bool, ends: bool)
    requires Standing(r, a, seqNo, carrying, done) && !(carrying && done)
    requires onto == (GoesOn(p) && !IsFirst(p) && p.seqNo == NextU32(seqNo)) && ends == Ends(p)
    ensures Standing(Advance(r, p), AdvanceAfresh(a, p), p.seqNo, carrying && onto && !ends,
                     done || (carrying && onto && ends))
  {
    if carrying {
      AheadStep(r, a, seqNo, p);
    } else if done {
      OneMoreStays(r, a, p);
    } else {
      SameStays(r, a, p);
    }
  }

  lemma AtBos(q: seq<Page>, b: nat)
    requires |q| == b + 1
    ensures CarriedTo(q, b, |q|) <==> GoesOn(q[b]) && !Ends(q[b])
    ensures Resumed(q, b) <==> GoesOn(q[b]) && Ends(q[b])
  {
    assert CarriedTo(q, b, b) && Onto(q, b, b) == GoesOn(q[b]);
    CarriedOneMore(q, b, b);
    assert Resumes(q, b, b) <==> GoesOn(q[b]) && Ends(q[b]);
  }

  lemma AfterBos(front: seq<Page>, p: Page, q: seq<Page>, b: nat, n: nat, r: Run, a: Run, held: bool)
    requires q == front + [p] && b < |front| == n
    requires Standing(r, a, front[n - 1].seqNo, held && CarriedTo(front, b, n), held && Resumed(front, b))
    ensures Standing(Advance(r, p), AdvanceAfresh(a, p), p.seqNo, held && CarriedTo(q, b, |q|), held && Resumed(q, b))
  {
    var carrying, done, onto := CarriedTo(front, b, n), Resumed(front, b), Onto(q, b, n);
    assert q[n] == p && q[n - 1] == front[n - 1];
    CarriedPrefix(front, p, q, b, n);
    CarriedOneMore(q, b, n);
    ResumedSnoc(front, p, q, b, n);
    if carrying {
      CarriedNotResumed(front, b);
    }
    StandingStep(r, a, front[n - 1].seqNo, p, held && carrying, held && done, onto, Ends(p));
  }

  /** Where the runs stand after `q`, which shows its first BOS page at `b`. */
  ghost predicate Stands(r0: Run, q: seq<Page>, b: nat, held: bool)
  {
    && b < |q|
    && Standing(RunFrom(r0, q), AfreshFrom(r0, q), q[|q| - 1].seqNo, held && CarriedTo(q, b, |q|),
                held && Resumed(q, b))
  }

  lemma OnlyBos(r0: Run, front: seq<Page>, p: Page, q: seq<Page>, b: nat, held: bool)
    requires Awaiting(r0) && NoBos(front) && IsFirst(p) && held == Unfinished(LayoutOf(front))
    requires q == front + [p] && b == |front|
    ensures Stands(r0, q, b, held)
  {
    RunSnoc(r0, front, p);
    AfreshSnoc(r0, front, p);
    BeforeBos(r0, front);
    HeldMeans(r0, front, LayoutOf(front));
    BosStep(RunFrom(r0, front), p);
    AtBos(q, b);
  }

  lemma NextStanding(r0: Run, front: seq<Page>, p: Page, q: seq<Page>, b: nat, held: bool)
    requires q == front + [p] && Stands(r0, front, b, held)
    ensures Stands(r0, q, b, held)
  {
    RunSnoc(r0, front, p);
    AfreshSnoc(r0, front, p);
    AfterBos(front, p, q, b, |front|, RunFrom(r0, front), AfreshFrom(r0, front), held);
  }

  /** What holds after the first `m` pages and lasts from page to page holds after all. */
  lemma {:induction false} Onwards(inv: seq<Page> -> bool, q: seq<Page>, m: nat)
    requires m <= |q| && inv(q[..m])
    requires forall k: nat, j: nat :: m <= k < |q| && j == k + 1 && inv(q[..k]) ==> inv(q[..j])
    ensures inv(q)
    decreases |q| - m
  {
    if m == |q| {
      assert q[..m] == q;
    } else {
      Onwards(inv, q, m + 1);
    }
  }

  lemma OneFurther(r0: Run, q: seq<Page>, b: nat, held: bool, k: nat, j: nat)
    requires k < |q| && j == k + 1 && Stands(r0, q[..k], b, held)
    ensures Stands(r0, q[..j], b, held)
  {
    assert q[..k] + [q[k]] == q[..j];
    NextStanding(r0, q[..k], q[k], q[..j], b, held);
  }

  lemma FromBosOn(r0: Run, q: seq<Page>, b: nat, held: bool, n: nat)
    requires b < n <= |q| && Stands(r0, q[..n], b, held)
    ensures Stands(r0, q, b, held)
  {
    var inv := (f: seq<Page>) => Stands(r0, f, b, held);
    forall k: nat, j: nat | n <= k < |q| && j == k + 1 && inv(q[..k])
      ensures inv(q[..j])
    {
      OneFurther(r0, q, b, held, k, j);
    }
    Onwards(inv, q, n);
  }

  // ----- exactly when a delivered packet is not genuine -----

  function SpanSet(spans: seq<Span>): set<Span> { set span | span in spans }

  lemma {:induction false} SetAtMost(spans: seq<Span>)
    ensures |SpanSet(spans)| <= |spans|
  {
    if spans != [] {
      var front, last := spans[..|spans| - 1], spans[|spans| - 1];
      SetAtMost(front);
      assert SpanSet(spans) == SpanSet(front) + {last};
    }
  }

  lemma {:induction false} SetAtLeast(spans: seq<Span>)
    requires forall i, j :: 0 <= i < j < |spans| ==> spans[i] != spans[j]
    ensures |SpanSet(spans)| >= |spans|
  {
    if spans != [] {
      var front, last := spans[..|spans| - 1], spans[|spans| - 1];
      SetAtLeast(front);
      assert SpanSet(spans) == SpanSet(front) + {last} && last !in SpanSet(front);
    }
  }

  lemma {:induction false} SubsetAtMost(a: set<Span>, b: set<Span>)
    requires a <= b
    ensures |a| <= |b|
  {
    assert b == a + (b - a);
  }

  /** There are no more packets lying on whole spans in order than there are whole spans. */
  lemma AtMostWhole(l: Layout, spans: seq<Span>, whole: seq<Span>)
    requires (forall i :: 0 <= i < |spans| ==> Whole(l, spans[i])) && InOrder(spans, |l.segs|)
    requires forall span :: Whole(l, span) ==> span in whole
    ensures |spans| <= |whole|
  {
    forall i, j | 0 <= i < j < |spans|
      ensures spans[i] != spans[j]
    {
      assert Whole(l, spans[j]) && spans[i].to <= spans[j].from;
    }
    SetAtLeast(spans);
    SetAtMost(whole);
    SubsetAtMost(SpanSet(spans), SpanSet(whole));
  }

  /** Each packet is genuine, and no segment is used twice. */
  ghost predicate AllAreGenuine(l: Layout, packets: seq<Packet>)
  {
    exists spans :: AllGenuine(l, packets, spans) && InOrder(spans, |l.segs|)
  }

  lemma {:induction false} FirstOf(q: seq<Page>) returns (b: nat)
    requires !NoBos(q)
    ensures FirstBos(q, b)
  {
    var n := |q| - 1;
    if NoBos(q[..n]) {
      b := n;
    } else {
      b := FirstOf(q[..n]);
      assert q[..n][..b] == q[..b];
    }
  }

  lemma NoneBefore(q: seq<Page>, b: nat)
    requires b <= |q| && NoBos(q[..b])
    ensures forall k :: 0 <= k < b ==> !IsFirst(q[k])
  {
    forall k | 0 <= k < b
      ensures !IsFirst(q[k])
    {
      assert q[..b][k] == q[k];
    }
  }

  lemma SplicedAt(q: seq<Page>, b: nat, head: seq<Page>)
    requires FirstBos(q, b) && head == q[..b]
    ensures Spliced(q) <==> Unfinished(LayoutOf(head)) && Resumed(q, b)
  {
    if Spliced(q) {
      var b': nat :| SplicedBy(q, b');
      NoneBefore(q, b);
      NoneBefore(q, b');
      assert b' == b;
    }
    if Unfinished(LayoutOf(head)) && Resumed(q, b) {
      assert SplicedBy(q, b);
    }
  }

  /** The run against the one that starts afresh: the same packets, or one more when pages are spliced. */
  lemma SplicedMeans(r0: Run, q: seq<Page>)
    requires Awaiting(r0)
    ensures var packets, afresh := RunFrom(r0, q).packets, AfreshFrom(r0, q).packets;
            if Spliced(q) then |packets| == |afresh| + 1 else packets == afresh
  {
    if NoBos(q) {
      BeforeBos(r0, q);
    } else {
      var b := FirstOf(q);
      var head := q[..b];
      SplicedAt(q, b, head);
      assert head + [q[b]] == q[..b + 1];
      OnlyBos(r0, head, q[b], q[..b + 1], b, Unfinished(LayoutOf(head)));
      FromBosOn(r0, q, b, Unfinished(LayoutOf(head)), b + 1);
      if CarriedTo(q, b, |q|) {
        CarriedNotResumed(q, b);
      }
    }
  }

  /**
   On any pages whatsoever a stream registered ahead delivers genuine packets only, no segment used
   twice, if and only if its first BOS page does not come inside a packet that the pages from it on
   go on with and complete. It then delivers every whole packet there is.
   */
  lemma RegisteredIsExact(r0: Run, q: seq<Page>, l: Layout)
    requires Awaiting(r0) && l == LayoutOf(q)
    ensures AllAreGenuine(l, RunFrom(r0, q).packets) <==> !Spliced(q)
    ensures !Spliced(q) ==> forall span :: Whole(l, span) ==> DataAt(l, span) in RunFrom(r0, q).packets
  {
    var packets := RunFrom(r0, q).packets;
    var whole := AfreshIsExact(r0, q, l);
    SplicedMeans(r0, q);
    if AllAreGenuine(l, packets) {
      var spans :| AllGenuine(l, packets, spans) && InOrder(spans, |l.segs|);
      AtMostWhole(l, spans, whole);
    }
  }

  lemma BosAt(front: seq<Page>, p: Page, q: seq<Page>, b: nat)
    requires NoBos(front) && IsFirst(p) && front + [p] <= q && b == |front|
    ensures FirstBos(q, b) && q[..b] == front && q[b] == p
  {
    assert (front + [p])[b] == p;
    assert q[..b] == (front + [p])[..b] == front;
  }

  /** A page completing whatever is held, by an empty segment. */
  function Closing(p: Page): Page { Page(CONTINUED, 0, p.serial, NextU32(p.seqNo), [0], []) }

  lemma ClosingEnds(p: Page)
    ensures GoesOn(Closing(p)) && Ends(Closing(p)) && !IsFirst(Closing(p))
  {
    OneSeg([]);
    assert ShortCount([[]]) == ShortCount([]) + 1;
  }

  lemma ResumedGoesOn(q: seq<Page>, b: nat)
    requires b < |q| && Resumed(q, b)
    ensures GoesOn(q[b])
  {
    var e: nat :| Resumes(q, b, e);
    assert b < e ==> CarriesOn(q, b, b);
    assert Onto(q, b, b);
  }

  lemma Completed(q: seq<Page>, p: Page, b: nat)
    requires GoesOn(p) && b < |q| && q[b] == p && (Ends(p) || (b + 1 < |q| && q[b + 1] == Closing(p)))
    ensures Resumed(q, b)
  {
    if Ends(p) {
      assert Resumes(q, b, b);
    } else {
      ClosingEnds(p);
      assert CarriesOn(q, b, b);
      assert Resumes(q, b, b + 1);
    }
  }

  lemma SplicedArrives(front: seq<Page>, p: Page, q: seq<Page>)
    requires NoBos(front) && IsFirst(p) && front + [p] <= q && Spliced(q)
    ensures Unfinished(LayoutOf(front)) && GoesOn(p)
  {
    BosAt(front, p, q, |front|);
    SplicedAt(q, |front|, front);
    ResumedGoesOn(q, |front|);
  }

  lemma ArrivalSplices(front: seq<Page>, p: Page) returns (q: seq<Page>)
    requires NoBos(front) && IsFirst(p) && Unfinished(LayoutOf(front)) && GoesOn(p)
    ensures front + [p] <= q && Spliced(q)
  {
    q := front + [p] + [Closing(p)];
    BosAt(front, p, q, |front|);
    Completed(q, p, |front|);
    SplicedAt(q, |front|, front);
  }

  /**
   Whether a first BOS page can be spliced over is settled as it arrives: some pages after it do so
   if and only if the ones before it end inside a packet, and it has no segment or claims to continue.
   */
  lemma ArrivalDecides(front: seq<Page>, p: Page)
    requires NoBos(front) && IsFirst(p)
    ensures (exists q :: front + [p] <= q && Spliced(q)) <==> Unfinished(LayoutOf(front)) && GoesOn(p)
  {
    if exists q :: front + [p] <= q && Spliced(q) {
      var q :| front + [p] <= q && Spliced(q);
      SplicedArrives(front, p, q);
    }
    if Unfinished(LayoutOf(front)) && GoesOn(p) {
      var q := ArrivalSplices(front, p);
    }
  }

  // ----- two inputs on which it happens -----

  /** Page 5: a full segment. Page 9, BOS: one claiming to continue, one without segments, before page 10. */
  const HEAD := Page(0, 0, 7, 5, [255], seq(255, _ => 1))
  const TAIL := Page(CONTINUED + FIRST_PAGE, 0, 7, 9, [1], [2])
  const EMPTY := Page(FIRST_PAGE, 0, 7, 9, [], [])
  const NEXT := Page(CONTINUED, 0, 7, 10, [1], [2])

  /** The stream once page 5 is in, and once the BOS page without segments is. */
  const HOLDING := Stream(HEAD.data, true, Some(5), false)
  const STILL_HOLDING := Stream(HEAD.data, true, Some(9), true)

  lemma TakeSingle(h: Hold, s: Segment)
    ensures Take(h, [s]) == TakeOne(h, s)
  {
    TakeSnoc(h, [], s);
    assert [] + [s] == [s];
  }

  lemma SmallPages()
    ensures PageSegs(HEAD) == [HEAD.data] && PageSegs(TAIL) == [[2]] && PageSegs(EMPTY) == [] && PageSegs(NEXT) == [[2]]
    ensures |HEAD.data| == 255
  {
    OneSeg(HEAD.data);
    OneSeg([2]);
  }

  lemma AfterHead()
    ensures Process(Some(REGISTERED), HEAD) == (Some(HOLDING), NOTHING) && Process(None, HEAD) == (None, NOTHING)
  {
    SmallPages();
    TakeSingle(Hold([], [], Between), HEAD.data);
    assert [] + HEAD.data == HEAD.data;
  }

  lemma AfterTail()
    ensures Process(Some(HOLDING), TAIL).1 == NOTHING.(packets := [HEAD.data + [2]])
    ensures Process(None, TAIL).1.packets == []
  {
    SmallPages();
    TakeSingle(Hold([], HEAD.data, Inside), [2]);
    TakeSingle(Hold([], [], Orphan), [2]);
  }

  lemma AfterNext()
    ensures Process(Some(HOLDING), EMPTY) == (Some(STILL_HOLDING), NOTHING)
    ensures Process(Some(STILL_HOLDING), NEXT).1 == NOTHING.(packets := [HEAD.data + [2]])
    ensures Process(None, EMPTY) == (None, NOTHING.(refused := true)) && Process(None, NEXT) == (None, NOTHING)
  {
    SmallPages();
    TakeSingle(Hold([], HEAD.data, Inside), [2]);
  }

  lemma OnePage(r: Run, q: seq<Page>, p: Page, q': seq<Page>, e: Effect)
    requires q + [p] == q' && RunFrom(r, q).packets == [] && Process(RunFrom(r, q).known, p).1 == e
    ensures var known := Process(RunFrom(r, q).known, p).0;
            RunFrom(r, q') == Run(known, e.packets, RunFrom(r, q).holes + Count(e.hole),
                                  RunFrom(r, q).framingErrors + Count(e.framingError),
                                  RunFrom(r, q).duplicates + Count(e.duplicate))
  {
    RunSnoc(r, q, p);
    PlusNil(e.packets);
  }

  lemma HeadIn(r: Run)
    requires r == PRE_REGISTERED || r == IDLE
    ensures RunFrom(r, [HEAD]) == r.(known := if r == IDLE then None else Some(HOLDING))
  {
    AfterHead();
    assert [] + [HEAD] == [HEAD];
    OnePage(r, [], HEAD, [HEAD], NOTHING);
  }

  /** Page 9, a BOS page, completes the packet that page 5 began; neither damage counter moves. */
  lemma PreRegisteredSplice()
    ensures var r := RunFrom(PRE_REGISTERED, [HEAD, TAIL]);
            r.packets == [HEAD.data + [2]] && r.holes == r.framingErrors == 0
    ensures TAIL.seqNo != NextU32(HEAD.seqNo) && IsFirst(TAIL)
    ensures RunOf([HEAD, TAIL]).packets == []
  {
    HeadIn(PRE_REGISTERED);
    HeadIn(IDLE);
    AfterTail();
    assert [HEAD] + [TAIL] == [HEAD, TAIL];
    OnePage(PRE_REGISTERED, [HEAD], TAIL, [HEAD, TAIL], NOTHING.(packets := [HEAD.data + [2]]));
    OnePage(IDLE, [HEAD], TAIL, [HEAD, TAIL], Process(None, TAIL).1);
  }

  lemma EmptyIn(r: Run)
    requires r == PRE_REGISTERED || r == IDLE
    ensures RunFrom(r, [HEAD, EMPTY]) == r.(known := if r == IDLE then None else Some(STILL_HOLDING))
  {
    HeadIn(r);
    AfterNext();
    assert [HEAD] + [EMPTY] == [HEAD, EMPTY];
    OnePage(r, [HEAD], EMPTY, [HEAD, EMPTY], if r == IDLE then NOTHING.(refused := true) else NOTHING);
  }

  /** The BOS page claims nothing, but without a segment it does not end what is held; page 10 completes it. */
  lemma EmptyBosSplice()
    ensures var r := RunFrom(PRE_REGISTERED, [HEAD, EMPTY, NEXT]);
            r.packets == [HEAD.data + [2]] && r.holes == r.framingErrors == 0
    ensures EMPTY.seqNo != NextU32(HEAD.seqNo) && IsFirst(EMPTY) && !IsContinued(EMPTY)
    ensures RunOf([HEAD, EMPTY, NEXT]).packets == []
  {
    EmptyIn(PRE_REGISTERED);
    EmptyIn(IDLE);
    AfterNext();
    assert [HEAD, EMPTY] + [NEXT] == [HEAD, EMPTY, NEXT];
    OnePage(PRE_REGISTERED, [HEAD, EMPTY], NEXT, [HEAD, EMPTY, NEXT], NOTHING.(packets := [HEAD.data + [2]]));
    OnePage(IDLE, [HEAD, EMPTY], NEXT, [HEAD, EMPTY, NEXT], NOTHING);
  }
}
