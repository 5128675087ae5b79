/** The page a writer is filling, and what holds of every page it has cut so far. */
module Paging {
  import opened Bytes
  import opened Pages
  import opened Segments
  import opened Grammar

  /** The page under construction; granule -1 until a packet completes on it. */
  datatype Builder = Builder(lacing: seq<byte>, data: seq<byte>, granule: i64, continued: bool)

  const EMPTY := Builder([], [], -1, false)

  function Flags(continued: bool, first: bool, last: bool): (r: byte)
    ensures HasContinued(r) == continued && HasFirst(r) == first && HasLast(r) == last && r < 8
  {
    (if continued then CONTINUED else 0) + (if first then FIRST_PAGE else 0) + (if last then LAST_PAGE else 0)
  }

  /** The page cut from `b` after `n` earlier pages of the stream. */
  function CutFrom(b: Builder, serial: u32, n: nat): Page
  {
    Page(Flags(b.continued, n == 0, false), b.granule, serial, n % TWO32, b.lacing, b.data)
  }

  // ----- which stamp a page carries -----

  /** How many packets end on the pages `q`. */
  function Done(q: seq<Page>): nat
  {
    if q == [] then 0 else Done(q[..|q| - 1]) + CompletedCount(q[|q| - 1].lacing)
  }

  lemma DoneSnoc(q: seq<Page>, p: Page)
    ensures Done(q + [p]) == Done(q) + CompletedCount(p.lacing)
  {
    UnSnoc(q, p);
  }

  /** The stamp of the last of the first `n` packets if it ends here, else -1. */
  function StampOf(lacing: seq<byte>, n: nat, stamps: seq<i64>): i64
  {
    if Completes(lacing) && 0 < n <= |stamps| then stamps[n - 1] else -1
  }

  predicate LeftOpen(q: seq<Page>) { q != [] && EndsOpen(q[|q| - 1].lacing) }

  /** `p` is the page a writer of `serial` cuts after `q`. */
  predicate CutPage(q: seq<Page>, p: Page, serial: u32, stamps: seq<i64>)
  {
    var n := Done(q) + CompletedCount(p.lacing);
    && WellFormed(p) && p.lacing != [] && n <= |stamps|
    && p == CutFrom(Builder(p.lacing, p.data, StampOf(p.lacing, n, stamps), LeftOpen(q)), serial, |q|)
  }

  /** All of `q` was cut in order by a writer of `serial`. */
  predicate CutPages(q: seq<Page>, serial: u32, stamps: seq<i64>)
  {
    q == [] || (CutPages(q[..|q| - 1], serial, stamps) && CutPage(q[..|q| - 1], q[|q| - 1], serial, stamps))
  }

  lemma CutSnoc(q: seq<Page>, p: Page, serial: u32, stamps: seq<i64>)
    ensures CutPages(q + [p], serial, stamps) <==> CutPages(q, serial, stamps) && CutPage(q, p, serial, stamps)
  {
    UnSnoc(q, p);
  }

  /** A later stamp changes no page already cut. */
  lemma {:induction false} CutLater(q: seq<Page>, serial: u32, stamps: seq<i64>, g: i64)
    requires CutPages(q, serial, stamps)
    ensures CutPages(q, serial, stamps + [g])
  {
    if q != [] {
      CutLater(q[..|q| - 1], serial, stamps, g);
    }
  }

  lemma {:induction false} CutBasics(q: seq<Page>, serial: u32, stamps: seq<i64>)
    requires CutPages(q, serial, stamps)
    ensures AllWellFormed(q) && Done(q) <= |stamps|
    ensures forall i :: 0 <= i < |q| ==> q[i].serial == serial && !IsLast(q[i]) && q[i].lacing != []
  {
    if q != [] {
      var front := q[..|q| - 1];
      CutBasics(front, serial, stamps);
      forall i | 0 <= i < |q|
        ensures q[i].serial == serial && !IsLast(q[i]) && q[i].lacing != [] && WellFormed(q[i])
      {
        assert i < |front| ==> front[i] == q[i];
      }
    }
  }

  // ----- stamps in order make pages in order -----

  /** No stamp is negative and none goes back. */
  predicate InOrder(stamps: seq<i64>)
  {
    && (forall i :: 0 <= i < |stamps| ==> 0 <= stamps[i])
    && (forall i, j :: 0 <= i < j < |stamps| ==> stamps[i] <= stamps[j])
  }

  function LastStamp(n: nat, stamps: seq<i64>): Option<i64>
  {
    if 0 < n <= |stamps| then Some(stamps[n - 1]) else None
  }

  lemma CutContinues(q: seq<Page>, p: Page, serial: u32, stamps: seq<i64>)
    requires CutPage(q, p, serial, stamps)
    requires q != [] ==> q[|q| - 1].seqNo == (|q| - 1) % TWO32 && !IsLast(q[|q| - 1])
    ensures Continues(q, p) && p.seqNo == |q| % TWO32 && !IsLast(p)
  {
    if q != [] {
      ModStep(|q| - 1);
    }
  }

  lemma CutGranule(q: seq<Page>, p: Page, serial: u32, stamps: seq<i64>)
    requires CutPage(q, p, serial, stamps) && InOrder(stamps)
    requires LastGranule(q) == LastStamp(Done(q), stamps)
    ensures GranuleRule(q, p)
    ensures LastGranule(q + [p]) == LastStamp(Done(q + [p]), stamps)
  {
    UnSnoc(q, p);
  }

  lemma CutFollows(q: seq<Page>, p: Page, serial: u32, stamps: seq<i64>)
    requires CutPage(q, p, serial, stamps) && InOrder(stamps)
    requires LastGranule(q) == LastStamp(Done(q), stamps)
    requires q != [] ==> q[|q| - 1].seqNo == (|q| - 1) % TWO32 && !IsLast(q[|q| - 1])
    ensures MayFollow(q, p)
    ensures LastGranule(q + [p]) == LastStamp(Done(q + [p]), stamps)
    ensures p.seqNo == |q| % TWO32 && !IsLast(p)
  {
    CutContinues(q, p, serial, stamps);
    CutGranule(q, p, serial, stamps);
  }

  /** The pages a writer cuts from stamps in order are a stream prefix of the grammar. */
  lemma {:induction false} CutIsPrefix(q: seq<Page>, serial: u32, stamps: seq<i64>)
    requires CutPages(q, serial, stamps) && InOrder(stamps)
    ensures Prefix(q) && LastGranule(q) == LastStamp(Done(q), stamps)
    ensures q != [] ==> q[|q| - 1].seqNo == (|q| - 1) % TWO32 && !IsLast(q[|q| - 1])
  {
    if q != [] {
      var front, p := q[..|q| - 1], q[|q| - 1];
      CutIsPrefix(front, serial, stamps);
      CutFollows(front, p, serial, stamps);
      SplitLast(q);
    }
  }

  /** Whatever the stamps, the pages a writer cuts follow each other without a break. */
  lemma {:induction false} CutIsUnbroken(q: seq<Page>, serial: u32, stamps: seq<i64>)
    requires CutPages(q, serial, stamps)
    ensures Unbroken(q)
    ensures q != [] ==> q[|q| - 1].seqNo == (|q| - 1) % TWO32 && !IsLast(q[|q| - 1])
  {
    if q != [] {
      var front, p := q[..|q| - 1], q[|q| - 1];
      CutIsUnbroken(front, serial, stamps);
      CutContinues(front, p, serial, stamps);
    }
  }

  /** A page cut before any packet ends on it carries no granule. */
  lemma {:induction false} CutIsBare(q: seq<Page>, serial: u32, stamps: seq<i64>)
    requires CutPages(q, serial, stamps)
    ensures Bare(q)
  {
    if q != [] {
      var front, p := q[..|q| - 1], q[|q| - 1];
      assert q == front + [p];
      CutIsBare(front, serial, stamps);
      BareSnoc(front, p);
    }
  }

  // ----- the invariant of filling and cutting -----

  /**
   The pages cut and the page being filled hold exactly the segments `segs`, the packets they
   complete are stamped `stamps`, and every page carries the stamp of the last packet ending on it.
   */
  predicate Framed(q: seq<Page>, serial: u32, b: Builder, segs: seq<Segment>, stamps: seq<i64>)
  {
    && CutPages(q, serial, stamps)
    && |b.lacing| <= 255 && |b.data| == Sum(b.lacing)
    && segs == AllSegs(q) + Segs(b.lacing, b.data)
    && Done(q) + CompletedCount(b.lacing) == |stamps|
    && b.granule == StampOf(b.lacing, |stamps|, stamps)
    && b.continued == LeftOpen(q)
  }

  lemma StartsFramed(serial: u32)
    ensures Framed([], serial, EMPTY, [], [])
  {}

  /** The builder a writer goes on with once `b` is cut. */
  function Next(b: Builder): Builder { EMPTY.(continued := EndsOpen(b.lacing)) }

  lemma CutFromIsCut(q: seq<Page>, p: Page, serial: u32, b: Builder, segs: seq<Segment>, stamps: seq<i64>)
    requires Framed(q, serial, b, segs, stamps) && b.lacing != [] && p == CutFrom(b, serial, |q|)
    ensures CutPage(q, p, serial, stamps)
  {}

  lemma CutFromCuts(q: seq<Page>, p: Page, serial: u32, b: Builder, segs: seq<Segment>, stamps: seq<i64>)
    requires Framed(q, serial, b, segs, stamps) && b.lacing != [] && p == CutFrom(b, serial, |q|)
    ensures CutPages(q + [p], serial, stamps) && Done(q + [p]) == |stamps|
  {
    CutFromIsCut(q, p, serial, b, segs, stamps);
    CutSnoc(q, p, serial, stamps);
    DoneSnoc(q, p);
  }

  lemma CutFromSegs(q: seq<Page>, p: Page, b: Builder, segs: seq<Segment>)
    requires WellFormed(p) && p.lacing == b.lacing && p.data == b.data && segs == AllSegs(q) + Segs(b.lacing, b.data)
    ensures AllSegs(q + [p]) == segs && LeftOpen(q + [p]) == EndsOpen(b.lacing)
  {
    AllSegsSnoc(q, p);
    UnSnoc(q, p);
  }

  /** With nothing yet on the next page, all segments and stamps lie on the pages cut. */
  lemma EmptyFramed(q: seq<Page>, serial: u32, b: Builder, segs: seq<Segment>, stamps: seq<i64>)
    requires CutPages(q, serial, stamps) && Done(q) == |stamps| && AllSegs(q) == segs
    requires b == EMPTY.(continued := LeftOpen(q))
    ensures Framed(q, serial, b, segs, stamps)
  {
    PlusNil(segs);
  }

  lemma CutFramed(q: seq<Page>, serial: u32, b: Builder, segs: seq<Segment>, stamps: seq<i64>)
    requires Framed(q, serial, b, segs, stamps) && b.lacing != []
    ensures Framed(q + [CutFrom(b, serial, |q|)], serial, Next(b), segs, stamps)
  {
    var p := CutFrom(b, serial, |q|);
    CutFromCuts(q, p, serial, b, segs, stamps);
    CutFromSegs(q, p, b, segs);
    EmptyFramed(q + [p], serial, Next(b), segs, stamps);
  }

  lemma {:induction false} CountConcat(a: seq<byte>, b: seq<byte>)
    ensures CompletedCount(a + b) == CompletedCount(a) + CompletedCount(b)
  {
    if b == [] {
      assert a + b == a;
    } else {
      ConcatFront(a, b);
      CountConcat(a, b[..|b| - 1]);
    }
  }

  function Append(b: Builder, lacing: seq<byte>, data: seq<byte>): Builder
  {
    b.(lacing := b.lacing + lacing, data := b.data + data)
  }

  lemma AppendSegs(q: seq<Page>, b: Builder, lacing: seq<byte>, data: seq<byte>, segs: seq<Segment>)
    requires |b.data| == Sum(b.lacing) && |data| == Sum(lacing)
    requires segs == AllSegs(q) + Segs(b.lacing, b.data)
    ensures var b' := Append(b, lacing, data);
            |b'.data| == Sum(b'.lacing) && segs + Segs(lacing, data) == AllSegs(q) + Segs(b'.lacing, b'.data)
  {
    SegsConcat(b.lacing, b.data, lacing, data);
    Assoc(AllSegs(q), Segs(b.lacing, b.data), Segs(lacing, data));
  }

  /** Segments that end no packet leave the stamp alone. */
  lemma AppendOpen(q: seq<Page>, serial: u32, b: Builder, segs: seq<Segment>, stamps: seq<i64>, lacing: seq<byte>,
          data: seq<byte>)
    requires Framed(q, serial, b, segs, stamps)
    requires |b.lacing| + |lacing| <= 255 && |data| == Sum(lacing) && CompletedCount(lacing) == 0
    ensures Framed(q, serial, Append(b, lacing, data), segs + Segs(lacing, data), stamps)
  {
    AppendSegs(q, b, lacing, data, segs);
    CountConcat(b.lacing, lacing);
  }

  lemma EndStamp(lacing: seq<byte>, stamps: seq<i64>, g: i64, n: nat)
    requires Completes(lacing) && n == |stamps| + 1
    ensures StampOf(lacing, n, stamps + [g]) == g
  {}

  /** Segments that end one packet put its stamp on the page. */
  lemma AppendEnd(q: seq<Page>, serial: u32, b: Builder, segs: seq<Segment>, stamps: seq<i64>, lacing: seq<byte>,
          data: seq<byte>, g: i64)
    requires Framed(q, serial, b, segs, stamps)
    requires |b.lacing| + |lacing| <= 255 && |data| == Sum(lacing) && CompletedCount(lacing) == 1
    ensures Framed(q, serial, Append(b, lacing, data).(granule := g), segs + Segs(lacing, data), stamps + [g])
  {
    AppendSegs(q, b, lacing, data, segs);
    CountConcat(b.lacing, lacing);
    CutLater(q, serial, stamps, g);
    EndStamp(b.lacing + lacing, stamps, g, |stamps + [g]|);
  }

  // ----- between packets -----

  /** With no packet under way, neither the page being filled nor the last one cut is left open. */
  lemma BetweenPackets(q: seq<Page>, serial: u32, b: Builder, segs: seq<Segment>, stamps: seq<i64>)
    requires Framed(q, serial, b, segs, stamps) && !Feed(FRESH, segs).open
    ensures !EndsOpen(b.lacing) && (b.lacing == [] ==> !LeftOpen(q))
  {
    FeedCounts(FRESH, segs);
    if b.lacing != [] {
      ConcatFront(AllSegs(q), Segs(b.lacing, b.data));
    } else if q != [] {
      var front, p := q[..|q| - 1], q[|q| - 1];
      assert CutPage(front, p, serial, stamps);
      PlusNil(AllSegs(q));
      ConcatFront(AllSegs(front), PageSegs(p));
    }
  }

  // ----- closing a stream -----

  /** `q` with the EOS flag on its last page. */
  function WithEos(q: seq<Page>): seq<Page>
  {
    if q == [] then [] else q[..|q| - 1] + [MarkLast(q[|q| - 1])]
  }

  lemma WithEosSegs(q: seq<Page>)
    ensures AllSegs(WithEos(q)) == AllSegs(q) && |WithEos(q)| == |q|
    ensures AllWellFormed(q) ==> AllWellFormed(WithEos(q))
  {
    if q != [] {
      AllSegsSnoc(q[..|q| - 1], MarkLast(q[|q| - 1]));
    }
  }

  lemma WithEosCloses(q: seq<Page>)
    requires Prefix(q) && q != [] && !LeftOpen(q)
    ensures Prefix(WithEos(q)) && Closed(WithEos(q))
  {
    var front, p := q[..|q| - 1], q[|q| - 1];
    assert MayFollow(front, MarkLast(p));
    PrefixSnoc(front, MarkLast(p));
  }

  lemma WithEosUnbroken(q: seq<Page>)
    requires Unbroken(q) && q != [] && !LeftOpen(q)
    ensures Unbroken(WithEos(q)) && Closed(WithEos(q))
  {
    var front, p := q[..|q| - 1], q[|q| - 1];
    assert Continues(front, MarkLast(p));
    UnbrokenSnoc(front, MarkLast(p));
  }
}
