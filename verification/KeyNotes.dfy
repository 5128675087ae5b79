/**
 The keyframe time a page is noted with while it is filled: the first one of the packets that end on
 it. And where packets begin: on the page they end on, unless they are too long for one page.
 */
module KeyNotes {
  import opened Bytes
  import opened Pages
  import opened Segments
  import opened Paging

  /** The note on the page being filled, and on each page cut. */
  datatype Notes = Notes(field: Option<i64>, pages: seq<Option<i64>>)

  const NO_NOTES := Notes(None, [])

  /** A page is cut: it takes the note with it. */
  function Cut(k: Notes): Notes { Notes(None, k.pages + [k.field]) }

  function CutMany(k: Notes, n: nat): Notes { if n == 0 then k else Cut(CutMany(k, n - 1)) }

  /** A packet has ended: its time is noted unless one is already. */
  function Note(k: Notes, time: Option<i64>): Notes { if k.field.None? then k.(field := time) else k }

  // ----- the first of some times -----

  function First(times: seq<Option<i64>>): Option<i64>
  {
    if times == [] then None
    else
      var earlier := First(times[..|times| - 1]);
      if earlier.Some? then earlier else times[|times| - 1]
  }

  lemma FirstSnoc(times: seq<Option<i64>>, t: Option<i64>)
    ensures First(times + [t]) == if First(times).Some? then First(times) else t
  {
    UnSnoc(times, t);
  }

  lemma {:induction false} FirstMeans(times: seq<Option<i64>>) returns (j: nat)
    requires First(times).Some?
    ensures j < |times| && times[j] == First(times) && forall i :: 0 <= i < j ==> times[i].None?
  {
    var n := |times| - 1;
    if First(times[..n]).Some? {
      j := FirstMeans(times[..n]);
    } else {
      j := n;
      NoneFirst(times[..n]);
    }
  }

  lemma {:induction false} FirstOfNone(times: seq<Option<i64>>)
    requires forall k :: 0 <= k < |times| ==> times[k] == None
    ensures First(times) == None
  {
    if times != [] {
      FirstOfNone(times[..|times| - 1]);
    }
  }

  lemma {:induction false} FirstIs(times: seq<Option<i64>>, j: nat)
    requires j < |times| && times[j].Some? && forall i :: 0 <= i < j ==> times[i].None?
    ensures First(times) == times[j]
  {
    var n := |times| - 1;
    if j < n {
      FirstIs(times[..n], j);
    } else {
      FirstOfNone(times[..n]);
    }
  }

  lemma {:induction false} NoneFirst(times: seq<Option<i64>>)
    requires First(times).None?
    ensures forall i :: 0 <= i < |times| ==> times[i].None?
  {
    if times != [] {
      NoneFirst(times[..|times| - 1]);
    }
  }

  // ----- the notes are the first times -----

  lemma {:induction false} DonePrefix(q: seq<Page>, n: nat)
    requires n <= |q|
    ensures Done(q[..n]) <= Done(q)
  {
    if n < |q| {
      DonePrefix(q[..|q| - 1], n);
      assert q[..|q| - 1][..n] == q[..n];
    } else {
      assert q[..n] == q;
    }
  }

  lemma DoneOrder(q: seq<Page>, a: nat, b: nat)
    requires a <= b <= |q|
    ensures Done(q[..a]) <= Done(q[..b])
  {
    DonePrefix(q[..b], a);
    assert q[..b][..a] == q[..a];
  }

  /** Each page has the first time of the packets that end on it; `times` goes packet by packet. */
  predicate PagesNoted(q: seq<Page>, pages: seq<Option<i64>>, times: seq<Option<i64>>)
  {
    if q == [] then pages == []
    else
      var front := q[..|q| - 1];
      && pages != [] && PagesNoted(front, pages[..|pages| - 1], times)
      && Done(front) <= Done(q) <= |times| && pages[|pages| - 1] == First(times[Done(front)..Done(q)])
  }

  /** So has the page being filled. */
  predicate Noted(q: seq<Page>, k: Notes, times: seq<Option<i64>>)
  {
    PagesNoted(q, k.pages, times) && Done(q) <= |times| && k.field == First(times[Done(q)..])
  }

  lemma SliceOfSnoc<T>(a: seq<T>, x: T, from: nat, to: nat)
    requires from <= to <= |a|
    ensures (a + [x])[from..to] == a[from..to] && (a + [x])[from..] == a[from..] + [x]
  {}

  lemma {:induction false} PagesNotedLater(q: seq<Page>, pages: seq<Option<i64>>, times: seq<Option<i64>>,
          t: Option<i64>)
    requires PagesNoted(q, pages, times)
    ensures PagesNoted(q, pages, times + [t])
  {
    if q != [] {
      var front := q[..|q| - 1];
      PagesNotedLater(front, pages[..|pages| - 1], times, t);
      SliceOfSnoc(times, t, Done(front), Done(q));
    }
  }

  /** One more packet has ended on the page being filled. */
  lemma NotedPacket(q: seq<Page>, k: Notes, times: seq<Option<i64>>, t: Option<i64>)
    requires Noted(q, k, times)
    ensures Noted(q, Note(k, t), times + [t])
  {
    PagesNotedLater(q, k.pages, times, t);
    SliceOfSnoc(times, t, Done(q), |times|);
    FirstSnoc(times[Done(q)..], t);
  }

  /** A page is cut on which all packets end that have not ended before. */
  lemma NotedCut(q: seq<Page>, p: Page, k: Notes, times: seq<Option<i64>>)
    requires Noted(q, k, times) && Done(q + [p]) == |times|
    ensures Noted(q + [p], Cut(k), times)
  {
    UnSnoc(q, p);
    UnSnoc(k.pages, k.field);
    assert times[Done(q)..|times|] == times[Done(q)..];
    assert times[|times|..] == [];
  }

  /** All packets end on the pages up to each of `more`. */
  predicate AllDone(q: seq<Page>, more: seq<Page>, n: nat)
  {
    forall j :: 0 < j <= |more| ==> Done(q + more[..j]) == n
  }

  lemma AllDoneFront(q: seq<Page>, more: seq<Page>, n: nat)
    requires AllDone(q, more, n) && more != []
    ensures AllDone(q, more[..|more| - 1], n) && Done(q + more) == n
  {
    var m := |more| - 1;
    assert more[..|more|] == more;
    forall j | 0 < j <= m
      ensures more[..m][..j] == more[..j]
    {}
  }

  lemma {:induction false} NotedCuts(q: seq<Page>, more: seq<Page>, k: Notes, times: seq<Option<i64>>)
    requires Noted(q, k, times) && AllDone(q, more, |times|)
    ensures Noted(q + more, CutMany(k, |more|), times)
    decreases |more|
  {
    if more == [] {
      PlusNil(q);
    } else {
      var front, p := more[..|more| - 1], more[|more| - 1];
      AllDoneFront(q, more, |times|);
      NotedCuts(q, front, k, times);
      assert q + more == (q + front) + [p];
      NotedCut(q + front, p, CutMany(k, |front|), times);
    }
  }

  /** The note on page `n`, by itself. */
  lemma {:induction false} NoteOf(q: seq<Page>, pages: seq<Option<i64>>, times: seq<Option<i64>>, n: nat)
    requires PagesNoted(q, pages, times) && n < |q|
    ensures |pages| == |q| && Done(q[..n]) <= Done(q[..n + 1]) <= |times|
    ensures pages[n] == First(times[Done(q[..n])..Done(q[..n + 1])])
    decreases |q|
  {
    var m := |q| - 1;
    if n < m {
      NoteOf(q[..m], pages[..|pages| - 1], times, n);
      assert q[..m][..n] == q[..n] && q[..m][..n + 1] == q[..n + 1];
    } else {
      assert q[..n + 1] == q;
      PagesMatch(q[..m], pages[..|pages| - 1], times);
    }
  }

  lemma {:induction false} PagesMatch(q: seq<Page>, pages: seq<Option<i64>>, times: seq<Option<i64>>)
    requires PagesNoted(q, pages, times)
    ensures |pages| == |q|
  {
    if q != [] {
      PagesMatch(q[..|q| - 1], pages[..|pages| - 1], times);
    }
  }

  // ----- where packets begin -----

  /** Packet `j` ends on page `n`, or on the page being filled after all of `q`. */
  predicate EndsOn(q: seq<Page>, j: nat, n: nat)
    requires n <= |q|
  {
    Done(q[..n]) <= j && (n < |q| ==> j < Done(q[..n + 1]))
  }

  /** Packet `j` begins on page `n` or a later one: none of its segments is on an earlier page. */
  predicate BeginsFrom(q: seq<Page>, packets: seq<Packet>, j: nat, n: nat)
    requires n <= |q| && j <= |packets|
  {
    |AllSegs(q[..n])| <= |AllPacketSegs(packets[..j])|
  }

  /** The longest packet that fits one page has a byte less. */
  const TOO_LONG := 255 * 255

  predicate BeginsRight(q: seq<Page>, packets: seq<Packet>, j: nat)
    requires j < |packets|
  {
    forall n :: 0 <= n <= |q| && EndsOn(q, j, n) ==> (BeginsFrom(q, packets, j, n) <==> |packets[j]| < TOO_LONG)
  }

  /** From packet `h` on, packets begin on the page they end on exactly if they fit one. */
  predicate AllBegin(q: seq<Page>, packets: seq<Packet>, h: nat)
  {
    forall j :: h <= j < |packets| ==> BeginsRight(q, packets, j)
  }

  lemma BeginCut(q: seq<Page>, p: Page, packets: seq<Packet>, j: nat)
    requires j < |packets| && BeginsRight(q, packets, j) && Done(q + [p]) == |packets|
    ensures BeginsRight(q + [p], packets, j)
  {
    var r := q + [p];
    assert r[..|r|] == r;
    forall n | 0 <= n <= |r| && EndsOn(r, j, n)
      ensures BeginsFrom(r, packets, j, n) <==> |packets[j]| < TOO_LONG
    {
      if n <= |q| {
        assert r[..n] == q[..n];
        if n < |q| {
          assert r[..n + 1] == q[..n + 1];
        }
        assert EndsOn(q, j, n);
      }
    }
  }

  lemma {:induction false} BeginCuts(q: seq<Page>, more: seq<Page>, packets: seq<Packet>, h: nat)
    requires AllBegin(q, packets, h) && AllDone(q, more, |packets|)
    ensures AllBegin(q + more, packets, h)
    decreases |more|
  {
    if more == [] {
      PlusNil(q);
    } else {
      var front, p := more[..|more| - 1], more[|more| - 1];
      AllDoneFront(q, more, |packets|);
      BeginCuts(q, front, packets, h);
      assert q + more == (q + front) + [p];
      forall j | h <= j < |packets|
        ensures BeginsRight(q + more, packets, j)
      {
        BeginCut(q + front, p, packets, j);
      }
    }
  }

  lemma BeginNew(q: seq<Page>, packets: seq<Packet>, data: Packet)
    requires Done(q) <= |packets| && (|AllSegs(q)| <= |AllPacketSegs(packets)| <==> |data| < TOO_LONG)
    ensures BeginsRight(q, packets + [data], |packets|)
  {
    var all, j := packets + [data], |packets|;
    assert all[..j] == packets && all[j] == data && q[..|q|] == q;
    forall n | 0 <= n <= |q| && EndsOn(q, j, n)
      ensures BeginsFrom(q, all, j, n) <==> |data| < TOO_LONG
    {
      if n < |q| {
        DoneOrder(q, n + 1, |q|);
      }
    }
  }

  /** One more packet, still on the page being filled. */
  lemma BeginPacket(q: seq<Page>, packets: seq<Packet>, data: Packet, h: nat)
    requires AllBegin(q, packets, h) && Done(q) <= |packets|
    requires |AllSegs(q)| <= |AllPacketSegs(packets)| <==> |data| < TOO_LONG
    ensures AllBegin(q, packets + [data], h)
  {
    var all := packets + [data];
    forall j | h <= j < |all|
      ensures BeginsRight(q, all, j)
    {
      if j < |packets| {
        assert BeginsRight(q, packets, j) && all[..j] == packets[..j] && all[j] == packets[j];
        forall n | 0 <= n <= |q| && EndsOn(q, j, n)
          ensures BeginsFrom(q, all, j, n) == BeginsFrom(q, packets, j, n)
        {}
      } else {
        BeginNew(q, packets, data);
      }
    }
  }

  // ----- the last page gets EOS -----

  lemma MarkedDone(q: seq<Page>)
    ensures |WithEos(q)| == |q| && Done(WithEos(q)) == Done(q)
    ensures forall n :: 0 <= n < |q| ==> WithEos(q)[..n] == q[..n]
  {
    if q != [] {
      DoneSnoc(q[..|q| - 1], q[|q| - 1]);
      DoneSnoc(q[..|q| - 1], MarkLast(q[|q| - 1]));
      SplitLast(q);
    }
  }

  lemma MarkedNoted(q: seq<Page>, k: Notes, times: seq<Option<i64>>)
    requires Noted(q, k, times)
    ensures Noted(WithEos(q), k, times)
  {
    MarkedDone(q);
    if q != [] {
      assert WithEos(q)[..|q| - 1] == q[..|q| - 1];
    }
  }

  lemma MarkedEnds(q: seq<Page>, packets: seq<Packet>, j: nat, n: nat)
    requires j < |packets| && n <= |q|
    ensures |WithEos(q)| == |q|
    ensures EndsOn(WithEos(q), j, n) == EndsOn(q, j, n)
    ensures BeginsFrom(WithEos(q), packets, j, n) == BeginsFrom(q, packets, j, n)
  {
    var r := WithEos(q);
    MarkedDone(q);
    WithEosSegs(q);
    assert r[..|r|] == r && q[..|q|] == q;
    assert n + 1 < |q| ==> r[..n + 1] == q[..n + 1];
  }

  lemma MarkedBegin(q: seq<Page>, packets: seq<Packet>, h: nat)
    requires AllBegin(q, packets, h)
    ensures AllBegin(WithEos(q), packets, h)
  {
    forall j | h <= j < |packets|
      ensures BeginsRight(WithEos(q), packets, j)
    {
      assert BeginsRight(q, packets, j);
      forall n | 0 <= n <= |q|
        ensures EndsOn(WithEos(q), j, n) == EndsOn(q, j, n)
        ensures BeginsFrom(WithEos(q), packets, j, n) == BeginsFrom(q, packets, j, n)
      {
        MarkedEnds(q, packets, j, n);
      }
      MarkedDone(q);
    }
  }
}
