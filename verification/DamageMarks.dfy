/**
 What the damage counters of one stream count, read off its pages: the pages that leave a gap behind
 them, those whose `continued` flag is wrong about the packet under way, and the repeated BOS pages.
 */
module DamageMarks {
  import opened Bytes
  import opened Pages
  import opened Segments
  import opened Reassembly
  import opened Splice
  import opened PreRegistered

  // ----- counting -----

  ghost function Tally(n: nat, at: nat -> bool): nat
  {
    if n == 0 then 0 else Tally(n - 1, at) + Count(at(n - 1))
  }

  lemma {:induction false} TallyAgrees(n: nat, a: nat -> bool, b: nat -> bool)
    requires forall k: nat :: k < n ==> a(k) == b(k)
    ensures Tally(n, a) == Tally(n, b)
  {
    if n > 0 {
      TallyAgrees(n - 1, a, b);
    }
  }

  lemma TallyOneMore(n: nat, m: nat, before: nat -> bool, after: nat -> bool, last: bool)
    requires m == n + 1 && after(n) == last && forall k: nat :: k < n ==> after(k) == before(k)
    ensures Tally(m, after) == Tally(n, before) + Count(last)
  {
    TallyAgrees(n, after, before);
  }

  // ----- the marks -----

  /** Page `n` does not follow the page before it. */
  predicate HoleAt(q: seq<Page>, n: nat)
  {
    0 < n < |q| && !IsFirst(q[n]) && q[n].seqNo != NextU32(q[n - 1].seqNo)
  }

  /** Page `n` is a BOS page of a stream that had one. */
  predicate RepeatAt(q: seq<Page>, n: nat)
  {
    n < |q| && IsFirst(q[n]) && !NoBos(q[..n])
  }

  /**
   A packet is under way after `q`: its beginning and everything since are there - or, with a stream
   registered ahead, it has been carried over the first BOS page.
   */
  ghost predicate UnderWay(q: seq<Page>)
  {
    Unfinished(LayoutOf(q)) || exists b: nat :: CarriedFrom(q, b)
  }

  ghost predicate CarriedFrom(q: seq<Page>, b: nat)
  {
    FirstBos(q, b) && Unfinished(LayoutOf(q[..b])) && CarriedTo(q, b, |q|)
  }

  /** Page `n` says of the packet under way what is not so. */
  ghost predicate MismatchAt(q: seq<Page>, n: nat)
  {
    n < |q| && !IsFirst(q[n]) && !HoleAt(q, n) && IsContinued(q[n]) != UnderWay(q[..n])
  }

  ghost function Holes(q: seq<Page>): nat -> bool { (n: nat) => HoleAt(q, n) }

  ghost function Mismatches(q: seq<Page>): nat -> bool { (n: nat) => MismatchAt(q, n) }

  ghost function Repeats(q: seq<Page>): nat -> bool { (n: nat) => RepeatAt(q, n) }

  // ----- what is held is what is under way -----

  /** Bytes are held exactly when a packet is: its segments so far are full ones. */
  predicate Solid(st: Stream) { st.pendingValid <==> st.pending != [] }

  lemma {:induction false} TakeSolid(h: Hold, segs: seq<Segment>)
    requires h.mode == Inside <==> h.pending != []
    ensures var h' := Take(h, segs); h'.mode == Inside <==> h'.pending != []
  {
    if segs != [] {
      TakeSolid(h, segs[..|segs| - 1]);
    }
  }

  lemma AbsorbSolid(st: Stream, p: Page)
    requires Solid(st)
    ensures Solid(Absorb(st, p).0) && Absorb(st, p).0.lastSeq == Some(p.seqNo)
    ensures Absorb(st, p).0.bosProcessed == st.bosProcessed
  {
    TakeSolid(Entry(Intact(st, p), IsContinued(p)), PageSegs(p));
  }

  /** Registered ahead, no page taken in yet. */
  predicate Unseen(r: Run) { Awaiting(r) && r.known.value.lastSeq.None? }

  /** What the state of the stream says of its pages, the packet under way left out. */
  predicate Tells(st: Stream, q: seq<Page>)
  {
    && Solid(st) && st.lastSeq == (if q == [] then None else Some(q[|q| - 1].seqNo))
    && st.bosProcessed == !NoBos(q)
  }

  lemma NoBosSnoc(q: seq<Page>, p: Page)
    ensures NoBos(q + [p]) <==> NoBos(q) && !IsFirst(p)
  {
    if NoBos(q + [p]) {
      assert (q + [p])[|q|] == p;
      forall k | 0 <= k < |q|
        ensures !IsFirst(q[k])
      {
        assert (q + [p])[k] == q[k];
      }
    }
  }

  lemma TellsOn(st: Stream, q: seq<Page>, p: Page)
    requires Tells(st, q)
    ensures Process(Some(st), p).0.Some? && Tells(Process(Some(st), p).0.value, q + [p])
  {
    NoBosSnoc(q, p);
    AbsorbSolid(Entered(Some(st), p).value, p);
  }

  lemma {:induction false} RunTells(r0: Run, q: seq<Page>)
    requires Unseen(r0)
    ensures RunFrom(r0, q).known.Some? && Tells(RunFrom(r0, q).known.value, q)
  {
    if q != [] {
      var front, p := q[..|q| - 1], q[|q| - 1];
      RunTells(r0, front);
      SplitLast(q);
      TellsOn(RunFrom(r0, front).known.value, front, p);
    }
  }

  /** The run that starts afresh holds a packet exactly when the pages end inside one. */
  lemma AfreshHeld(r0: Run, q: seq<Page>)
    requires Awaiting(r0)
    ensures var a := AfreshFrom(r0, q); a.known.Some? && (a.known.value.pendingValid <==> Unfinished(LayoutOf(q)))
  {
    AfreshTraced(r0, q, true);
    var l, t, a := LayoutOf(q), TrailFrom(r0, q), AfreshFrom(r0, q);
    assert Accounted(l, a.packets, a.known.value, t) && Exact(l, a.known.value, t);
  }

  lemma CarriedIs(q: seq<Page>, b: nat)
    requires FirstBos(q, b)
    ensures (exists c: nat :: CarriedFrom(q, c)) <==> Unfinished(LayoutOf(q[..b])) && CarriedTo(q, b, |q|)
  {
    if exists c: nat :: CarriedFrom(q, c) {
      var c: nat :| CarriedFrom(q, c);
      NoneBefore(q, b);
      NoneBefore(q, c);
      assert b == c;
    }
    if Unfinished(LayoutOf(q[..b])) && CarriedTo(q, b, |q|) {
      assert CarriedFrom(q, b);
    }
  }

  lemma CarriedHeld(r0: Run, q: seq<Page>, b: nat, carried: bool)
    requires Awaiting(r0) && FirstBos(q, b) && carried == (Unfinished(LayoutOf(q[..b])) && CarriedTo(q, b, |q|))
    ensures var r, a := RunFrom(r0, q), AfreshFrom(r0, q);
            && r.known.Some? && a.known.Some?
            && r.known.value.pendingValid == (a.known.value.pendingValid || carried)
  {
    var head := q[..b];
    AfreshHeld(r0, q);
    assert head + [q[b]] == q[..b + 1];
    OnlyBos(r0, head, q[b], q[..b + 1], b, Unfinished(LayoutOf(head)));
    FromBosOn(r0, q, b, Unfinished(LayoutOf(head)), b + 1);
  }

  /** A packet is held exactly when one is under way. */
  lemma HeldIsUnderWay(r0: Run, q: seq<Page>)
    requires Awaiting(r0)
    ensures var r := RunFrom(r0, q); r.known.Some? && (r.known.value.pendingValid <==> UnderWay(q))
  {
    AfreshHeld(r0, q);
    if NoBos(q) {
      BeforeBos(r0, q);
      assert !exists b: nat :: CarriedFrom(q, b);
    } else {
      var b := FirstOf(q);
      CarriedIs(q, b);
      CarriedHeld(r0, q, b, Unfinished(LayoutOf(q[..b])) && CarriedTo(q, b, |q|));
    }
  }

  // ----- the counters -----

  lemma LastMarks(front: seq<Page>, p: Page, q: seq<Page>, n: nat)
    requires q == front + [p] && n == |front|
    ensures HoleAt(q, n) <==> front != [] && !IsFirst(p) && p.seqNo != NextU32(front[n - 1].seqNo)
    ensures RepeatAt(q, n) <==> IsFirst(p) && !NoBos(front)
    ensures MismatchAt(q, n) <==> !IsFirst(p) && !HoleAt(q, n) && IsContinued(p) != UnderWay(front)
  {
    assert q[n] == p && q[..n] == front;
  }

  lemma EarlierMarks(front: seq<Page>, p: Page, q: seq<Page>, k: nat)
    requires q == front + [p] && k < |front|
    ensures HoleAt(q, k) == HoleAt(front, k) && RepeatAt(q, k) == RepeatAt(front, k)
    ensures MismatchAt(q, k) == MismatchAt(front, k)
  {
    assert q[k] == front[k] && q[..k] == front[..k];
  }

  /** A page counts as its mark says. */
  lemma MarkCounts(r0: Run, front: seq<Page>, p: Page, q: seq<Page>, n: nat)
    requires Unseen(r0) && q == front + [p] && n == |front|
    ensures var e := Process(RunFrom(r0, front).known, p).1;
            e.hole == HoleAt(q, n) && e.framingError == MismatchAt(q, n) && e.duplicate == RepeatAt(q, n)
  {
    RunTells(r0, front);
    HeldIsUnderWay(r0, front);
    LastMarks(front, p, q, n);
  }

  ghost predicate Counted(r0: Run, r: Run, q: seq<Page>)
  {
    && r.holes == r0.holes + Tally(|q|, Holes(q))
    && r.framingErrors == r0.framingErrors + Tally(|q|, Mismatches(q))
    && r.duplicates == r0.duplicates + Tally(|q|, Repeats(q))
  }

  lemma CountedOn(r0: Run, r: Run, front: seq<Page>, p: Page, q: seq<Page>, n: nat)
    requires Unseen(r0) && q == front + [p] && n == |front| && Counted(r0, r, front) && r == RunFrom(r0, front)
    ensures Counted(r0, Advance(r, p), q)
  {
    MarkCounts(r0, front, p, q, n);
    forall k: nat | k < n
      ensures HoleAt(q, k) == HoleAt(front, k) && RepeatAt(q, k) == RepeatAt(front, k)
      ensures MismatchAt(q, k) == MismatchAt(front, k)
    {
      EarlierMarks(front, p, q, k);
    }
    TallyOneMore(n, |q|, Holes(front), Holes(q), HoleAt(q, n));
    TallyOneMore(n, |q|, Mismatches(front), Mismatches(q), MismatchAt(q, n));
    TallyOneMore(n, |q|, Repeats(front), Repeats(q), RepeatAt(q, n));
  }

  /**
   On any pages whatsoever the counters of a stream registered ahead are the pages not in sequence, the
   pages in sequence whose `continued` flag differs from whether a packet is under way, and the BOS
   pages after the first.
   */
  lemma {:induction false} MarksAreCounted(r0: Run, q: seq<Page>)
    requires Unseen(r0)
    ensures Counted(r0, RunFrom(r0, q), q)
  {
    if q != [] {
      var front, p := q[..|q| - 1], q[|q| - 1];
      MarksAreCounted(r0, front);
      SplitLast(q);
      CountedOn(r0, RunFrom(r0, front), front, p, q, |front|);
    }
  }

  // ----- streams registered by a page of their own -----

  /** A BOS page with a segment registers its stream. */
  predicate Registers(p: Page) { IsFirst(p) && PageSegs(p) != [] }

  /** The pages from the one on that registers the stream; those before it are skipped. */
  function Live(q: seq<Page>): seq<Page>
  {
    if q == [] then [] else if Registers(q[0]) then q else Live(q[1..])
  }

  lemma SkippedFirst(q: seq<Page>)
    requires q != [] && !Registers(q[0])
    ensures RunOf([q[0]]) == IDLE
  {
    assert [] + [q[0]] == [q[0]];
    RunSnoc(IDLE, [], q[0]);
    PlusNil(IDLE.packets);
  }

  lemma {:induction false} RunTail(q: seq<Page>)
    requires q != [] && RunOf([q[0]]) == IDLE
    ensures RunOf(q) == RunOf(q[1..])
  {
    if |q| == 1 {
      assert q == [q[0]];
    } else {
      var n := |q| - 1;
      RunTail(q[..n]);
      assert q[..n][1..] == q[1..][..n - 1] && q[1..][n - 1] == q[n];
    }
  }

  lemma {:induction false} LiveIsAll(q: seq<Page>)
    ensures RunOf(q) == RunOf(Live(q)) && (Live(q) != [] ==> Registers(Live(q)[0]))
  {
    if q != [] && !Registers(q[0]) {
      SkippedFirst(q);
      RunTail(q);
      LiveIsAll(q[1..]);
    }
  }

  lemma NothingBefore(l: Layout)
    requires l == LayoutOf([])
    ensures !Unfinished(l)
  {}

  /** Nothing is carried over a BOS page that opens the stream. */
  lemma OpenedUnderWay(q: seq<Page>)
    requires q != [] && IsFirst(q[0])
    ensures UnderWay(q) <==> Unfinished(LayoutOf(q))
  {
    NothingBefore(LayoutOf([]));
    assert q[..0] == [];
    assert FirstBos(q, 0);
    CarriedIs(q, 0);
  }

  /** The same counters of any pages of one serial: what comes before the stream is registered counts for nothing. */
  lemma OwnMarksAreCounted(q: seq<Page>)
    ensures Counted(IDLE, RunOf(q), Live(q))
    ensures forall n :: 0 < n <= |Live(q)| ==> (UnderWay(Live(q)[..n]) <==> Unfinished(LayoutOf(Live(q)[..n])))
  {
    var live := Live(q);
    LiveIsAll(q);
    if live != [] {
      PreRegisteredRun(live);
      MarksAreCounted(PRE_REGISTERED, live);
    }
    forall n | 0 < n <= |live|
      ensures UnderWay(live[..n]) <==> Unfinished(LayoutOf(live[..n]))
    {
      OpenedUnderWay(live[..n]);
    }
  }
}
