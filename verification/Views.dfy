/** The validator, the strict assembler and the tolerant reassembly agree on one stream. */
module Views {
  import opened Bytes
  import opened Pages
  import opened Segments
  import opened Grammar
  import opened Framing
  import Paging
  import R = Reassembly

  // ----- validator against assembler -----

  /** A page without segments that claims to continue a packet. */
  predicate NilContinued(p: Page) { PageSegs(p) == [] && IsContinued(p) }

  predicate NoNilContinued(q: seq<Page>) { forall i :: 0 <= i < |q| ==> !NilContinued(q[i]) }

  predicate MidPacket(q: seq<Page>) { Feed(FRESH, AllSegs(q)).open }

  lemma NoNilSnoc(q: seq<Page>, p: Page)
    ensures NoNilContinued(q + [p]) <==> NoNilContinued(q) && !NilContinued(p)
  {
    var r := q + [p];
    assert r[|q|] == p;
    if NoNilContinued(r) {
      forall i | 0 <= i < |q|
        ensures !NilContinued(q[i])
      {
        assert r[i] == q[i];
      }
    }
  }

  lemma SegsOfWellFormed(p: Page)
    requires WellFormed(p)
    ensures |PageSegs(p)| == |p.lacing|
    ensures p.lacing != [] ==> |PageSegs(p)[|p.lacing| - 1]| == p.lacing[|p.lacing| - 1]
  {}

  lemma MidPacketSnoc(q: seq<Page>, p: Page)
    requires WellFormed(p)
    ensures MidPacket(q + [p]) == if p.lacing == [] then MidPacket(q) else EndsOpen(p.lacing)
  {
    AllSegsSnoc(q, p);
    SegsOfWellFormed(p);
    if p.lacing == [] {
      PlusNil(AllSegs(q));
    } else {
      FeedCounts(FRESH, AllSegs(q) + PageSegs(p));
      ConcatFront(AllSegs(q), PageSegs(p));
    }
  }

  lemma ContiguousSnoc(q: seq<Page>, p: Page)
    ensures Contiguous(q + [p]) <==> Contiguous(q) && IsContinued(p) == MidPacket(q)
  {
    UnSnoc(q, p);
  }

  /** The grammar and the assembler see one stream alike until a segment-less page continues a packet. */
  lemma {:induction false} SeenAlike(q: seq<Page>)
    requires Unbroken(q) && AllWellFormed(q)
    ensures NoNilContinued(q) ==> Contiguous(q) && MidPacket(q) == Paging.LeftOpen(q)
    ensures Contiguous(q) && !NoNilContinued(q) ==> MidPacket(q) && !Paging.LeftOpen(q)
  {
    if q != [] {
      var front, p := q[..|q| - 1], q[|q| - 1];
      assert q == front + [p];
      SeenAlike(front);
      NoNilSnoc(front, p);
      ContiguousSnoc(front, p);
      MidPacketSnoc(front, p);
      SegsOfWellFormed(p);
      assert Continues(front, p);
    }
  }

  /**
   A stream of the grammar is accepted by the assembler, which then ends outside a packet,
   exactly when none of its segment-less pages is marked as a continuation.
   */
  lemma CleanIsAssembled(q: seq<Page>)
    requires Stream(q) && OneSerial(q) && AllWellFormed(q)
    ensures Assemble(q).1.Good? && !Assemble(q).0.midPacket <==> NoNilContinued(q)
  {
    StreamIsClosed(q);
    PrefixIsOpenStream(q);
    PrefixIsUnbroken(q);
    SeenAlike(q);
    AssembleMeaning(q);
    assert PageRule(q, |q| - 1);
  }

  const OPEN_BOS := Page(FIRST_PAGE, -1, 7, 0, [255], seq(255, _ => 1))
  const NIL_EOS := Page(CONTINUED + LAST_PAGE, -1, 7, 1, [], [])

  lemma OpenBosSegs()
    ensures WellFormed(OPEN_BOS) && PageSegs(OPEN_BOS) == [OPEN_BOS.data] && |OPEN_BOS.data| == 255
    ensures WellFormed(NIL_EOS) && PageSegs(NIL_EOS) == []
  {
    OneSeg(OPEN_BOS.data);
  }

  lemma OpenBosFed()
    ensures Feed(FRESH, AllSegs([OPEN_BOS])) == Assembly([], OPEN_BOS.data, true)
    ensures AllSegs([OPEN_BOS, NIL_EOS]) == AllSegs([OPEN_BOS])
  {
    OpenBosSegs();
    AllSegsSnoc([], OPEN_BOS);
    AllSegsSnoc([OPEN_BOS], NIL_EOS);
    FeedSnoc(FRESH, [], OPEN_BOS.data);
    assert [OPEN_BOS] + [NIL_EOS] == [OPEN_BOS, NIL_EOS] && [] + [OPEN_BOS] == [OPEN_BOS];
    assert [] + [OPEN_BOS.data] == [OPEN_BOS.data] && [] + OPEN_BOS.data == OPEN_BOS.data;
    PlusNil(AllSegs([OPEN_BOS]));
  }

  lemma OpenInTheGrammar(q: seq<Page>)
    requires q == [OPEN_BOS, NIL_EOS]
    ensures Stream(q) && AllWellFormed(q) && OneSerial(q) && !NoNilContinued(q)
  {
    OpenBosSegs();
    assert q[..1] == [OPEN_BOS] && q[..0] == [];
    assert NilContinued(q[1]);
  }

  lemma OpenIsContiguous(q: seq<Page>)
    requires q == [OPEN_BOS, NIL_EOS]
    ensures Contiguous(q)
  {
    OpenBosFed();
    assert [OPEN_BOS] + [NIL_EOS] == q && [] + [OPEN_BOS] == [OPEN_BOS];
    ContiguousSnoc([OPEN_BOS], NIL_EOS);
    ContiguousSnoc([], OPEN_BOS);
  }

  /** A stream the grammar takes and the assembler leaves in mid-packet: its only packet never ends. */
  lemma CleanInMidPacket(q: seq<Page>)
    requires q == [OPEN_BOS, NIL_EOS]
    ensures Stream(q) && AllWellFormed(q) && OneSerial(q) && !NoNilContinued(q)
    ensures Assemble(q).1 == Good([]) && Assemble(q).0.midPacket
  {
    OpenInTheGrammar(q);
    OpenIsContiguous(q);
    OpenBosFed();
    AssembleMeaning(q);
  }

  // ----- assembler against tolerant reassembly -----

  /** A single BOS page first, not empty, and every number the one after the last; numbers wrap. */
  predicate Consecutive(q: seq<Page>)
  {
    && (q != [] ==> IsFirst(q[0]) && PageSegs(q[0]) != [])
    && forall i :: 0 < i < |q| ==> !IsFirst(q[i]) && q[i].seqNo == NextU32(q[i - 1].seqNo)
  }

  /** The page that may come after `q`: the BOS page, not empty, or one with the next number. */
  predicate ComesNext(q: seq<Page>, p: Page)
  {
    if q == [] then IsFirst(p) && PageSegs(p) != [] else !IsFirst(p) && p.seqNo == NextU32(q[|q| - 1].seqNo)
  }

  lemma ConsecutiveFront(q: seq<Page>, p: Page)
    requires Consecutive(q + [p])
    ensures Consecutive(q) && ComesNext(q, p)
  {
    var r := q + [p];
    assert r[|q|] == p;
    forall i | 0 <= i < |q|
      ensures r[i] == q[i]
    {}
  }

  /** What the tolerant reassembly holds is what the strict one does, `done` packets earlier. */
  predicate Alike(h: R.Hold, a: Assembly, done: seq<Packet>)
  {
    && a.packets == done + h.packets && h.pending == a.pending
    && h.mode == (if a.open then R.Inside else R.Between) && (a.open <==> a.pending != [])
  }

  lemma AlikeOne(h: R.Hold, a: Assembly, done: seq<Packet>, s: Segment)
    requires Alike(h, a, done)
    ensures Alike(R.TakeOne(h, s), FeedOne(a, s), done)
  {
    Assoc(done, h.packets, [h.pending + s]);
  }

  lemma {:induction false} AlikeSegs(h: R.Hold, a: Assembly, done: seq<Packet>, segs: seq<Segment>)
    requires Alike(h, a, done)
    ensures Alike(R.Take(h, segs), Feed(a, segs), done)
  {
    if segs != [] {
      var front := segs[..|segs| - 1];
      AlikeSegs(h, a, done, front);
      AlikeOne(R.Take(h, front), Feed(a, front), done, segs[|segs| - 1]);
    }
  }

  /** Between pages: the stream's state and deliveries against the strict assembly of the same pages. */
  predicate Tolerates(r: R.Run, q: seq<Page>)
  {
    && r.holes == r.framingErrors == r.duplicates == 0
    && r.packets == Feed(FRESH, AllSegs(q)).packets
    && if q == [] then r.known == None
       else r.known.Some? && Held(r.known.value, Feed(FRESH, AllSegs(q)), q[|q| - 1].seqNo)
  }

  predicate Held(st: R.Stream, a: Assembly, seqNo: u32)
  {
    && st.lastSeq == Some(seqNo) && st.bosProcessed
    && st.pending == a.pending && st.pendingValid == a.open && (a.open <==> a.pending != [])
  }

  /** A page in sequence, its flag as the partial packet asks. */
  lemma AbsorbAlike(st: R.Stream, a: Assembly, p: Page)
    requires st.pending == a.pending && st.pendingValid == a.open && (a.open <==> a.pending != []) && st.bosProcessed
    requires IsContinued(p) == a.open && !R.Hole(st, p)
    ensures var (st', e) := R.Absorb(st, p);
            var a' := Feed(a, PageSegs(p));
            && Held(st', a', p.seqNo) && a'.packets == a.packets + e.packets && !e.hole && !e.framingError
            && !e.duplicate
  {
    PlusNil(a.packets);
    AlikeSegs(R.Entry(st, a.open), a, a.packets, PageSegs(p));
  }

  lemma NextTolerated(r: R.Run, q: seq<Page>, p: Page)
    requires Tolerates(r, q) && Consecutive(q + [p]) && IsContinued(p) == MidPacket(q)
    ensures Tolerates(R.Advance(r, p), q + [p])
  {
    var a := Feed(FRESH, AllSegs(q));
    ConsecutiveFront(q, p);
    AllSegsSnoc(q, p);
    FeedConcat(FRESH, AllSegs(q), PageSegs(p));
    UnSnoc(q, p);
    if q == [] {
      AbsorbAlike(R.REGISTERED.(bosProcessed := true), a, p);
    } else {
      AbsorbAlike(r.known.value, a, p);
    }
  }

  lemma {:induction false} WholeRun(q: seq<Page>)
    requires Consecutive(q) && Contiguous(q)
    ensures Tolerates(R.RunOf(q), q)
  {
    if q != [] {
      var front, p := q[..|q| - 1], q[|q| - 1];
      SplitLast(q);
      ConsecutiveFront(front, p);
      ContiguousSnoc(front, p);
      WholeRun(front);
      NextTolerated(R.RunOf(front), front, p);
    }
  }

  lemma ConsecutivePrefix(q: seq<Page>, n: nat)
    requires Consecutive(q) && n <= |q|
    ensures Consecutive(q[..n])
  {}

  lemma {:induction false} GoodPrefix(q: seq<Page>, n: nat)
    requires n <= |q| && Assemble(q).1.Good?
    ensures Assemble(q[..n]).1.Good?
  {
    if n < |q| {
      GoodPrefix(q[..|q| - 1], n);
      assert q[..|q| - 1][..n] == q[..n];
    } else {
      assert q[..n] == q;
    }
  }

  /**
   On whatever the assembler accepts, numbered in sequence from any number on with a single BOS
   first, the tolerant reassembly completes the same packets page by page and counts no damage.
   */
  lemma AssembledIsTolerated(q: seq<Page>, n: nat)
    requires Consecutive(q) && Assemble(q).1.Good? && n <= |q|
    ensures var r := R.RunOf(q[..n]);
            && Assemble(q[..n]).1 == Good(r.packets)
            && r.holes == r.framingErrors == r.duplicates == 0
  {
    GoodPrefix(q, n);
    ConsecutivePrefix(q, n);
    AssembleMeaning(q[..n]);
    WholeRun(q[..n]);
  }

  lemma ConsecutiveSnoc(q: seq<Page>, p: Page)
    requires Consecutive(q)
    requires ComesNext(q, p)
    ensures Consecutive(q + [p])
  {
    var r := q + [p];
    forall i | 0 < i < |r|
      ensures !IsFirst(r[i]) && r[i].seqNo == NextU32(r[i - 1].seqNo)
    {
      assert r[i - 1] == q[i - 1];
    }
  }

  /** An unbroken run of pages, its first page not empty, is numbered in sequence. */
  lemma {:induction false} UnbrokenIsConsecutive(q: seq<Page>)
    requires Unbroken(q) && (q != [] ==> PageSegs(q[0]) != [])
    ensures Consecutive(q)
  {
    if q != [] {
      var front, p := q[..|q| - 1], q[|q| - 1];
      SplitLast(q);
      UnbrokenIsConsecutive(front);
      ConsecutiveSnoc(front, p);
    }
  }

  /** All three: a clean stream without such pages, its first page not empty. */
  lemma ThreeViews(q: seq<Page>)
    requires Stream(q) && OneSerial(q) && AllWellFormed(q) && NoNilContinued(q) && q[0].lacing != []
    ensures var r := R.RunOf(q);
            && Assemble(q).1 == Good(r.packets) && !Assemble(q).0.midPacket
            && r.holes == r.framingErrors == r.duplicates == 0
  {
    CleanIsAssembled(q);
    SegsOfWellFormed(q[0]);
    StreamIsClosed(q);
    PrefixIsOpenStream(q);
    PrefixIsUnbroken(q);
    UnbrokenIsConsecutive(q);
    AssembleMeaning(q);
    WholeRun(q);
  }
}
