/**
 What reassembly makes of any pages whatsoever. A whole packet is a run of consecutive segments of
 one stream, from a fresh segment to the first short one, over pages numbered in sequence each later
 one of which says it continues. Nothing but whole packets is delivered, and a registered stream
 delivers every one of them.
 */
module Splice {
  import opened Bytes
  import opened Pages
  import opened Segments
  import opened Reassembly

  // ----- pages laid out as one run of segments -----

  /** Pages, all their segments in order, and how many segments precede each page. */
  datatype Layout = Layout(pages: seq<Page>, begins: seq<nat>, segs: seq<Segment>)

  function Extend(l: Layout, p: Page, segs: seq<Segment>): Layout
  {
    Layout(l.pages + [p], l.begins + [|l.segs|], l.segs + segs)
  }

  function LayoutOf(q: seq<Page>): Layout
  {
    if q == [] then Layout([], [], [])
    else Extend(LayoutOf(q[..|q| - 1]), q[|q| - 1], PageSegs(q[|q| - 1]))
  }

  predicate Proper(l: Layout)
  {
    && |l.begins| == |l.pages|
    && (forall k :: 0 <= k < |l.begins| ==> l.begins[k] <= |l.segs|)
    && (forall j, k :: 0 <= j < k < |l.begins| ==> l.begins[j] <= l.begins[k])
  }

  lemma {:induction false} LayoutMeaning(q: seq<Page>)
    ensures Proper(LayoutOf(q)) && LayoutOf(q).pages == q && LayoutOf(q).segs == AllSegs(q)
    ensures forall k :: 0 <= k < |q| ==> LayoutOf(q).begins[k] == |AllSegs(q[..k])|
  {
    if q != [] {
      var front, p := q[..|q| - 1], q[|q| - 1];
      LayoutMeaning(front);
      assert q == front + [p];
      forall k | 0 <= k < |q|
        ensures LayoutOf(q).begins[k] == |AllSegs(q[..k])|
      {
        if k < |front| {
          assert front[..k] == q[..k];
        }
      }
    }
  }

  /** Segment `x` lies on page `k`. */
  predicate LiesOn(l: Layout, k: nat, x: nat)
    requires Proper(l) && k < |l.pages|
  {
    l.begins[k] <= x < if k + 1 < |l.pages| then l.begins[k + 1] else |l.segs|
  }

  /** Nothing unfinished precedes segment `x` on page `k`, which it lies on. */
  predicate FreshOn(l: Layout, k: nat, x: nat)
    requires Proper(l) && k < |l.pages| && x < |l.segs|
  {
    if x == l.begins[k] then !IsContinued(l.pages[k]) else x > 0 && |l.segs[x - 1]| < 255
  }

  /** Segment `x` begins a packet. */
  predicate Fresh(l: Layout, x: nat)
    requires Proper(l)
  {
    x < |l.segs| && exists k :: 0 <= k < |l.pages| && LiesOn(l, k, x) && FreshOn(l, k, x)
  }

  /** Page `k` takes up where page `k - 1` left off; a page without segments takes no part. */
  predicate Joins(l: Layout, k: nat)
    requires Proper(l) && k < |l.pages|
  {
    && k > 0 && l.pages[k].seqNo == NextU32(l.pages[k - 1].seqNo) && !IsFirst(l.pages[k])
    && (l.begins[k] < (if k + 1 < |l.pages| then l.begins[k + 1] else |l.segs|) ==> IsContinued(l.pages[k]))
  }

  /** So does every page beginning strictly between the two segment positions. */
  predicate Joined(l: Layout, from: nat, to: nat)
    requires Proper(l)
  {
    forall k :: 0 <= k < |l.pages| && from < l.begins[k] < to ==> Joins(l, k)
  }

  predicate AllFull(segs: seq<Segment>, from: nat, to: nat)
    requires to <= |segs|
  {
    forall i :: from <= i < to ==> |segs[i]| >= 255
  }

  datatype Span = Span(from: nat, to: nat)

  /** The segments of the span are a packet from its beginning to its end, with no page missing. */
  predicate Whole(l: Layout, span: Span)
  {
    && Proper(l) && span.from < span.to <= |l.segs|
    && |l.segs[span.to - 1]| < 255 && AllFull(l.segs, span.from, span.to - 1)
    && Fresh(l, span.from) && Joined(l, span.from, span.to)
  }

  /** `d` is the packet made of exactly the segments of the span. */
  predicate Genuine(l: Layout, d: Packet, span: Span)
  {
    Whole(l, span) && d == DataAt(l, span)
  }

  /** The packet the span holds. */
  function DataAt(l: Layout, span: Span): Packet
    requires span.from <= span.to <= |l.segs|
  {
    Flatten(l.segs[span.from..span.to])
  }

  predicate AllGenuine(l: Layout, packets: seq<Packet>, spans: seq<Span>)
  {
    |spans| == |packets| && forall i :: 0 <= i < |spans| ==> Genuine(l, packets[i], spans[i])
  }

  /** The spans follow one another, none beyond segment `hi`. */
  predicate InOrder(spans: seq<Span>, hi: nat)
  {
    && (forall i :: 0 <= i < |spans| ==> spans[i].to <= hi)
    && (forall i, j :: 0 <= i < j < |spans| ==> spans[i].to <= spans[j].from)
  }

  /** The full segments from `y` up to `n` begin a packet that segment `n` may go on. */
  predicate Reaches(l: Layout, y: nat, n: nat)
  {
    && Proper(l) && y < n <= |l.segs| && AllFull(l.segs, y, n) && Fresh(l, y)
    && (forall k :: 0 <= k < |l.pages| && y < l.begins[k] <= n ==> Joins(l, k))
  }

  // ----- later pages change nothing about earlier segments -----

  lemma ProperExtend(l: Layout, p: Page, segs: seq<Segment>)
    requires Proper(l)
    ensures Proper(Extend(l, p, segs))
  {}

  lemma FreshExtend(l: Layout, p: Page, segs: seq<Segment>, x: nat)
    requires Proper(l) && x < |l.segs|
    ensures Proper(Extend(l, p, segs)) && Fresh(Extend(l, p, segs), x) == Fresh(l, x)
  {
    ProperExtend(l, p, segs);
    var l' := Extend(l, p, segs);
    if Fresh(l, x) {
      var k :| 0 <= k < |l.pages| && LiesOn(l, k, x) && FreshOn(l, k, x);
      assert LiesOn(l', k, x) && FreshOn(l', k, x);
    }
    if Fresh(l', x) {
      var k :| 0 <= k < |l'.pages| && LiesOn(l', k, x) && FreshOn(l', k, x);
      assert LiesOn(l, k, x) && FreshOn(l, k, x);
    }
  }

  lemma JoinsExtend(l: Layout, p: Page, segs: seq<Segment>, k: nat)
    requires Proper(l) && k < |l.pages|
    ensures Proper(Extend(l, p, segs)) && Joins(Extend(l, p, segs), k) == Joins(l, k)
  {
    ProperExtend(l, p, segs);
  }

  lemma SliceOfConcat(a: seq<Segment>, b: seq<Segment>, from: nat, to: nat)
    requires from <= to <= |a|
    ensures (a + b)[from..to] == a[from..to]
    ensures AllFull(a, from, to) == AllFull(a + b, from, to)
  {
    forall i | from <= i < to
      ensures (a + b)[i] == a[i]
    {}
  }

  lemma JoinedExtend(l: Layout, p: Page, segs: seq<Segment>, from: nat, to: nat)
    requires Proper(l) && to <= |l.segs|
    ensures Proper(Extend(l, p, segs)) && Joined(Extend(l, p, segs), from, to) == Joined(l, from, to)
  {
    ProperExtend(l, p, segs);
    var l' := Extend(l, p, segs);
    forall k | 0 <= k < |l.pages|
      ensures Joins(l', k) == Joins(l, k) && l'.begins[k] == l.begins[k]
    {
      JoinsExtend(l, p, segs, k);
    }
    assert l'.begins[|l.pages|] == |l.segs|;
  }

  lemma WholeExtend(l: Layout, p: Page, segs: seq<Segment>, span: Span)
    requires Proper(l) && span.to <= |l.segs|
    ensures Whole(Extend(l, p, segs), span) == Whole(l, span)
  {
    ProperExtend(l, p, segs);
    if span.from < span.to {
      FreshExtend(l, p, segs, span.from);
      JoinedExtend(l, p, segs, span.from, span.to);
      SliceOfConcat(l.segs, segs, span.from, span.to - 1);
    }
  }

  lemma GenuineExtend(l: Layout, p: Page, segs: seq<Segment>, d: Packet, span: Span)
    requires Genuine(l, d, span)
    ensures Genuine(Extend(l, p, segs), d, span)
  {
    WholeExtend(l, p, segs, span);
    SliceOfConcat(l.segs, segs, span.from, span.to);
  }

  /** The page to come takes up where the last one left off. */
  predicate Follows(l: Layout, p: Page, segs: seq<Segment>)
  {
    && l.pages != [] && p.seqNo == NextU32(l.pages[|l.pages| - 1].seqNo) && !IsFirst(p)
    && (segs != [] ==> IsContinued(p))
  }

  /** What is under way at the end of the pages goes on over the next page if that takes it up. */
  lemma ReachesExtend(l: Layout, p: Page, segs: seq<Segment>, y: nat)
    requires Proper(l)
    ensures Reaches(Extend(l, p, segs), y, |l.segs|) <==> Reaches(l, y, |l.segs|) && Follows(l, p, segs)
  {
    ProperExtend(l, p, segs);
    var l', m := Extend(l, p, segs), |l.pages|;
    if y < |l.segs| {
      FreshExtend(l, p, segs, y);
      SliceOfConcat(l.segs, segs, y, |l.segs|);
      forall k | 0 <= k < m
        ensures Joins(l', k) == Joins(l, k) && l'.begins[k] == l.begins[k]
      {
        JoinsExtend(l, p, segs, k);
      }
      assert l'.begins[m] == |l.segs| && l'.pages[m] == p && (m > 0 ==> l'.pages[m - 1] == l.pages[m - 1]);
      assert Joins(l', m) == Follows(l, p, segs);
    }
  }

  // ----- where the packets lie -----

  /** Where the packets completed so far lie, where the one under way begins, and how it stands. */
  datatype Trail = Trail(spans: seq<Span>, x: nat, mode: Mode)

  /** Segment `n` comes in. */
  function Step(t: Trail, n: nat, s: Segment): Trail
  {
    var from := if t.mode == Inside then t.x else n;
    if |s| < 255 then Trail(if t.mode == Orphan then t.spans else t.spans + [Span(from, n + 1)], t.x, Between)
    else if t.mode == Orphan then t
    else Trail(t.spans, from, Inside)
  }

  /** Segments from position `n` on come in. */
  function Steps(t: Trail, n: nat, segs: seq<Segment>): Trail
  {
    if segs == [] then t
    else
      var last := |segs| - 1;
      Step(Steps(t, n, segs[..last]), n + last, segs[last])
  }

  predicate LiesAt(l: Layout, d: Packet, span: Span, n: nat)
    requires n <= |l.segs|
  {
    span.from <= span.to <= n && d == DataAt(l, span)
  }

  /** The trail is where the bytes of `h` come from; `n` segments are in. */
  predicate Carries(l: Layout, t: Trail, n: nat, h: Hold)
  {
    && n <= |l.segs| && h.mode == t.mode && |h.packets| == |t.spans|
    && (forall i :: 0 <= i < |t.spans| ==> LiesAt(l, h.packets[i], t.spans[i], n))
    && h.pending == (if t.mode == Inside && t.x <= n then Flatten(l.segs[t.x..n]) else [])
    && (t.mode == Inside ==> t.x <= n)
  }

  /** Only whole packets lie behind, in order; the one under way reaches here from its beginning. */
  predicate Sound(l: Layout, t: Trail, n: nat)
  {
    && Proper(l) && l.pages != [] && l.begins[|l.pages| - 1] <= n <= |l.segs|
    && (forall i :: 0 <= i < |t.spans| ==> Whole(l, t.spans[i])) && InOrder(t.spans, n)
    && (t.mode == Inside ==> Reaches(l, t.x, n) && InOrder(t.spans, t.x))
    && (t.mode == Between && n < |l.segs| ==> Fresh(l, n))
  }

  /** No whole packet so far was missed, nor the beginning of one under way. */
  ghost predicate Complete(l: Layout, t: Trail, n: nat)
  {
    && Proper(l) && (forall span :: Whole(l, span) && span.to <= n ==> span in t.spans)
    && (forall y :: Reaches(l, y, n) ==> t.mode == Inside && y == t.x)
    && (n < |l.segs| && Fresh(l, n) ==> t.mode == Between)
  }

  lemma FlattenOneMore(segs: seq<Segment>, x: nat, n: nat)
    requires x <= n < |segs|
    ensures Flatten(segs[x..n + 1]) == Flatten(segs[x..n]) + segs[n]
  {
    assert segs[x..n + 1] == segs[x..n] + [segs[n]];
    FlattenSnoc(segs[x..n], segs[n]);
  }

  lemma StepCarries(l: Layout, t: Trail, n: nat, h: Hold, s: Segment, m: nat)
    requires Carries(l, t, n, h) && n < |l.segs| && s == l.segs[n] && m == n + 1
    ensures Carries(l, Step(t, n, s), m, TakeOne(h, s))
  {
    var from := if t.mode == Inside then t.x else n;
    FlattenOneMore(l.segs, from, n);
    assert l.segs[n..n] == [];
    assert h.mode != Orphan ==> h.pending == Flatten(l.segs[from..n]);
  }

  /** After a short segment, and only then, the next one on the page is fresh. */
  lemma FreshInPage(l: Layout, n: nat)
    requires Proper(l) && l.pages != [] && l.begins[|l.pages| - 1] <= n && n + 1 < |l.segs|
    ensures Fresh(l, n + 1) <==> |l.segs[n]| < 255
  {
    var k := |l.pages| - 1;
    assert LiesOn(l, k, n + 1);
    assert FreshOn(l, k, n + 1) <==> |l.segs[n]| < 255;
    if Fresh(l, n + 1) {
      var k' :| 0 <= k' < |l.pages| && LiesOn(l, k', n + 1) && FreshOn(l, k', n + 1);
      assert k' == k;
    }
  }

  /** How a packet under way stands one segment later. */
  lemma ReachesStep(l: Layout, y: nat, n: nat, m: nat)
    requires Proper(l) && l.pages != [] && l.begins[|l.pages| - 1] <= n < |l.segs| && m == n + 1
    ensures Reaches(l, y, m) <==> |l.segs[n]| >= 255 && (Reaches(l, y, n) || (y == n && Fresh(l, n)))
    ensures Whole(l, Span(y, m)) <==> |l.segs[n]| < 255 && (Reaches(l, y, n) || (y == n && Fresh(l, n)))
  {
    assert forall k :: 0 <= k < |l.pages| ==> l.begins[k] <= n;
    if y < n {
      assert AllFull(l.segs, y, m) <==> AllFull(l.segs, y, n) && |l.segs[n]| >= 255;
    }
  }

  lemma CompletedSound(l: Layout, spans: seq<Span>, from: nat, n: nat, m: nat)
    requires (forall i :: 0 <= i < |spans| ==> Whole(l, spans[i])) && InOrder(spans, from)
    requires from <= n && m == n + 1 && Whole(l, Span(from, m))
    ensures var more := spans + [Span(from, m)]; (forall i :: 0 <= i < |more| ==> Whole(l, more[i])) && InOrder(more, m)
  {}

  lemma StepSound(l: Layout, t: Trail, n: nat, s: Segment, m: nat)
    requires Sound(l, t, n) && n < |l.segs| && s == l.segs[n] && m == n + 1
    ensures Sound(l, Step(t, n, s), m)
  {
    var from := if t.mode == Inside then t.x else n;
    ReachesStep(l, from, n, m);
    if |s| < 255 {
      if m < |l.segs| {
        FreshInPage(l, n);
      }
      if t.mode != Orphan {
        CompletedSound(l, t.spans, from, n, m);
      }
    }
  }

  lemma StepComplete(l: Layout, t: Trail, n: nat, s: Segment, m: nat)
    requires Sound(l, t, n) && Complete(l, t, n) && n < |l.segs| && s == l.segs[n] && m == n + 1
    ensures Complete(l, Step(t, n, s), m)
  {
    var t' := Step(t, n, s);
    forall span | Whole(l, span) && span.to <= m
      ensures span in t'.spans
    {
      if span.to == m {
        ReachesStep(l, span.from, n, m);
        assert span == Span(span.from, m);
      }
    }
    forall y | Reaches(l, y, m)
      ensures t'.mode == Inside && y == t'.x
    {
      ReachesStep(l, y, n, m);
    }
    if n + 1 < |l.segs| {
      FreshInPage(l, n);
    }
  }

  /** All of it, when nothing was missed so far. */
  ghost predicate Traces(l: Layout, t: Trail, n: nat, h: Hold, exact: bool)
  {
    Carries(l, t, n, h) && Sound(l, t, n) && (exact ==> Complete(l, t, n))
  }

  lemma StepTraced(l: Layout, t: Trail, n: nat, h: Hold, exact: bool, s: Segment, m: nat)
    requires Traces(l, t, n, h, exact) && n < |l.segs| && s == l.segs[n] && m == n + 1
    ensures Traces(l, Step(t, n, s), m, TakeOne(h, s), exact)
  {
    StepCarries(l, t, n, h, s, m);
    StepSound(l, t, n, s, m);
    if exact {
      StepComplete(l, t, n, s, m);
    }
  }

  ghost predicate Lasting(l: Layout, inv: (Trail, nat, Hold) -> bool)
  {
    forall t: Trail, n: nat, h: Hold, s: Segment {:trigger Step(t, n, s), TakeOne(h, s)} ::
      n < |l.segs| && s == l.segs[n] && inv(t, n, h) ==> inv(Step(t, n, s), n + 1, TakeOne(h, s))
  }

  lemma {:induction false} StepsKeep(l: Layout, inv: (Trail, nat, Hold) -> bool, t: Trail, n: nat, h: Hold,
          segs: seq<Segment>, end: nat)
    requires Lasting(l, inv) && inv(t, n, h)
    requires end == n + |segs| && end <= |l.segs| && segs == l.segs[n..end]
    ensures inv(Steps(t, n, segs), end, Take(h, segs))
    decreases |segs|
  {
    if segs != [] {
      var last := |segs| - 1;
      var front, s, mid := segs[..last], segs[last], n + last;
      assert front == l.segs[n..mid] && s == l.segs[mid];
      StepsKeep(l, inv, t, n, h, front, mid);
      var t', h' := Steps(t, n, front), Take(h, front);
      assert Steps(t, n, segs) == Step(t', mid, s) && Take(h, segs) == TakeOne(h', s);
    }
  }

  lemma StepsTraced(l: Layout, t: Trail, n: nat, h: Hold, exact: bool, segs: seq<Segment>, end: nat)
    requires Traces(l, t, n, h, exact)
    requires end == n + |segs| && end <= |l.segs| && segs == l.segs[n..end]
    ensures Traces(l, Steps(t, n, segs), end, Take(h, segs), exact)
  {
    var inv := (t: Trail, n: nat, h: Hold) => Traces(l, t, n, h, exact);
    forall t: Trail, n: nat, h: Hold, s: Segment | n < |l.segs| && s == l.segs[n] && inv(t, n, h)
      ensures inv(Step(t, n, s), n + 1, TakeOne(h, s))
    {
      StepTraced(l, t, n, h, exact, s, n + 1);
    }
    StepsKeep(l, inv, t, n, h, segs, end);
  }

  // ----- page by page -----

  /** The bytes held of a packet are kept only while its head is. */
  predicate Settled(st: Stream) { st.pendingValid || st.pending == [] }

  /** The state a page finds once its number has been looked at. */
  function Intact(st: Stream, p: Page): Stream { if Hole(st, p) then DropPartial(st) else st }

  /** A page begins inside a packet only if it says so and the head is held. */
  function Enter(t: Trail, held: bool, continued: bool): Trail
  {
    t.(mode := if !continued then Between else if held then Inside else Orphan)
  }

  /** The trail over one page, its segments from position `at` on. */
  function Onward(t: Trail, st: Stream, p: Page, at: nat): Trail
  {
    if PageSegs(p) == [] then t else Steps(Enter(t, Intact(st, p).pendingValid, IsContinued(p)), at, PageSegs(p))
  }

  /** The packets out are whole and in order, and the bytes held reach from their beginning to here. */
  predicate Accounted(l: Layout, packets: seq<Packet>, st: Stream, t: Trail)
  {
    && Proper(l) && Settled(st)
    && AllGenuine(l, packets, t.spans) && InOrder(t.spans, |l.segs|)
    && (st.pendingValid ==> Reaches(l, t.x, |l.segs|) && InOrder(t.spans, t.x))
    && (st.pendingValid ==> st.pending == Flatten(l.segs[t.x..|l.segs|]))
    && (st.pendingValid ==> l.pages != [] && st.lastSeq == Some(l.pages[|l.pages| - 1].seqNo))
  }

  /** No whole packet is missing, and what could still become one is held. */
  ghost predicate Exact(l: Layout, st: Stream, t: Trail)
  {
    && (forall span :: Whole(l, span) ==> span in t.spans)
    && (forall y :: Reaches(l, y, |l.segs|) ==> st.pendingValid && y == t.x)
  }

  /** As far as the next page can tell: no packet goes on over a BOS page. */
  ghost predicate ExactFor(l: Layout, st: Stream, t: Trail, p: Page)
  {
    && (forall span :: Whole(l, span) ==> span in t.spans)
    && (!IsFirst(p) ==> forall y :: Reaches(l, y, |l.segs|) ==> st.pendingValid && y == t.x)
  }

  lemma AllGenuineExtend(l: Layout, p: Page, segs: seq<Segment>, packets: seq<Packet>, spans: seq<Span>)
    requires AllGenuine(l, packets, spans)
    ensures AllGenuine(Extend(l, p, segs), packets, spans)
  {
    forall i | 0 <= i < |spans|
      ensures Genuine(Extend(l, p, segs), packets[i], spans[i])
    {
      GenuineExtend(l, p, segs, packets[i], spans[i]);
    }
  }

  lemma FreshStart(l: Layout, p: Page, segs: seq<Segment>)
    requires Proper(l) && segs != []
    ensures Proper(Extend(l, p, segs)) && Fresh(Extend(l, p, segs), |l.segs|) == !IsContinued(p)
  {
    ProperExtend(l, p, segs);
    var l', m := Extend(l, p, segs), |l.pages|;
    assert LiesOn(l', m, |l.segs|) && FreshOn(l', m, |l.segs|) == !IsContinued(p);
    if Fresh(l', |l.segs|) {
      var k :| 0 <= k < |l'.pages| && LiesOn(l', k, |l.segs|) && FreshOn(l', k, |l.segs|);
      assert k == m;
    }
  }

  /** What an intact partial packet says of the page that finds it. */
  lemma HeldFollows(l: Layout, packets: seq<Packet>, st: Stream, t: Trail, p: Page)
    requires Accounted(l, packets, st, t) && (st.pendingValid ==> !IsFirst(p)) && Intact(st, p).pendingValid
    requires PageSegs(p) == [] || IsContinued(p)
    ensures Follows(l, p, PageSegs(p)) && Intact(st, p) == st
  {}

  lemma EnterCarries(l: Layout, packets: seq<Packet>, st: Stream, t: Trail, p: Page, segs: seq<Segment>, at: nat)
    requires Accounted(l, packets, st, t) && (st.pendingValid ==> !IsFirst(p)) && at == |l.segs|
    ensures var st1 := Intact(st, p);
            Carries(Extend(l, p, segs), Enter(t, st1.pendingValid, IsContinued(p)), at,
                    Entry(st1, IsContinued(p)).(packets := packets))
  {
    AllGenuineExtend(l, p, segs, packets, t.spans);
    if st.pendingValid {
      SliceOfConcat(l.segs, segs, t.x, at);
    }
  }

  lemma EnterSound(l: Layout, packets: seq<Packet>, st: Stream, t: Trail, p: Page, segs: seq<Segment>, at: nat)
    requires Accounted(l, packets, st, t) && (st.pendingValid ==> !IsFirst(p)) && at == |l.segs|
    requires segs == PageSegs(p) != []
    ensures Sound(Extend(l, p, segs), Enter(t, Intact(st, p).pendingValid, IsContinued(p)), at)
  {
    AllGenuineExtend(l, p, segs, packets, t.spans);
    FreshStart(l, p, segs);
    if IsContinued(p) && Intact(st, p).pendingValid {
      HeldFollows(l, packets, st, t, p);
      ReachesExtend(l, p, segs, t.x);
    }
  }

  lemma EnterComplete(l: Layout, packets: seq<Packet>, st: Stream, t: Trail, p: Page, segs: seq<Segment>, at: nat)
    requires Accounted(l, packets, st, t) && ExactFor(l, st, t, p) && at == |l.segs|
    requires segs == PageSegs(p) != []
    ensures Complete(Extend(l, p, segs), Enter(t, Intact(st, p).pendingValid, IsContinued(p)), at)
  {
    var l', t' := Extend(l, p, segs), Enter(t, Intact(st, p).pendingValid, IsContinued(p));
    FreshStart(l, p, segs);
    forall span | Whole(l', span) && span.to <= at
      ensures span in t'.spans
    {
      WholeExtend(l, p, segs, span);
    }
    forall y | Reaches(l', y, at)
      ensures t'.mode == Inside && y == t'.x
    {
      ReachesExtend(l, p, segs, y);
    }
  }

  /** At the end of a page the trail and the state of the stream agree. */
  lemma LeavePage(l: Layout, t: Trail, n: nat, h: Hold, exact: bool, st: Stream)
    requires Traces(l, t, n, h, exact) && n == |l.segs| && Settled(st)
    requires st.pending == h.pending && st.pendingValid == (h.mode == Inside)
    requires st.lastSeq == Some(l.pages[|l.pages| - 1].seqNo)
    ensures Accounted(l, h.packets, st, t) && (exact ==> Exact(l, st, t))
  {}

  lemma EmptyPage(l: Layout, packets: seq<Packet>, st: Stream, t: Trail, p: Page, exact: bool)
    requires Accounted(l, packets, st, t) && (st.pendingValid ==> !IsFirst(p)) && PageSegs(p) == []
    requires exact ==> ExactFor(l, st, t, p)
    ensures var l', st' := Extend(l, p, []), Absorb(st, p).0;
            Accounted(l', packets, st', t) && (exact ==> Exact(l', st', t))
  {
    var l', st' := Extend(l, p, []), Absorb(st, p).0;
    PlusNil(l.segs);
    AllGenuineExtend(l, p, [], packets, t.spans);
    if st'.pendingValid {
      HeldFollows(l, packets, st, t, p);
      ReachesExtend(l, p, [], t.x);
    }
    if exact {
      forall span | Whole(l', span)
        ensures span in t.spans
      {
        WholeExtend(l, p, [], span);
      }
      forall y | Reaches(l', y, |l'.segs|)
        ensures st'.pendingValid && y == t.x
      {
        ReachesExtend(l, p, [], y);
      }
    }
  }

  lemma AbsorbTraced(l: Layout, packets: seq<Packet>, st: Stream, t: Trail, p: Page, exact: bool, at: nat)
    requires Accounted(l, packets, st, t) && (st.pendingValid ==> !IsFirst(p)) && at == |l.segs|
    requires exact ==> ExactFor(l, st, t, p)
    ensures var (st', e) := Absorb(st, p);
            var l', t' := Extend(l, p, PageSegs(p)), Onward(t, st, p, at);
            Accounted(l', packets + e.packets, st', t') && (exact ==> Exact(l', st', t'))
  {
    var segs := PageSegs(p);
    PlusNil(packets);
    if segs == [] {
      EmptyPage(l, packets, st, t, p, exact);
    } else {
      var st1 := Intact(st, p);
      var l', h, t1 := Extend(l, p, segs), Entry(st1, IsContinued(p)), Enter(t, st1.pendingValid, IsContinued(p));
      EnterCarries(l, packets, st, t, p, segs, at);
      EnterSound(l, packets, st, t, p, segs, at);
      if exact {
        EnterComplete(l, packets, st, t, p, segs, at);
      }
      StepsTraced(l', t1, at, h.(packets := packets), exact, segs, |l'.segs|);
      TakeFrame(h, packets, segs);
      LeavePage(l', Onward(t, st, p, at), |l'.segs|, Take(h.(packets := packets), segs), exact, Absorb(st, p).0);
    }
  }

  // ----- run by run -----

  /**
   The state a page's segments are taken in by, its BOS bookkeeping done; none when the page is
   skipped or refused.
   */
  function Entered(known: Option<Stream>, p: Page): Option<Stream>
  {
    if known.None? then if IsFirst(p) && PageSegs(p) != [] then Some(REGISTERED.(bosProcessed := true)) else None
    else
      var st := if IsFirst(p) && known.value.bosProcessed then REGISTERED else known.value;
      Some(if IsFirst(p) then st.(bosProcessed := true) else st)
  }

  lemma EnteredIsAbsorbed(known: Option<Stream>, p: Page)
    ensures var (known', e) := Process(known, p);
            match Entered(known, p)
            case None => known' == known == None && e.packets == []
            case Some(st) => known' == Some(Absorb(st, p).0) && e.packets == Absorb(st, p).1.packets
  {}

  /** No partial packet outlives a BOS page. */
  function Forget(known: Option<Stream>, p: Page): Option<Stream>
  {
    if known.Some? && IsFirst(p) then Some(DropPartial(known.value)) else known
  }

  function AdvanceAfresh(r: Run, p: Page): Run { Advance(r.(known := Forget(r.known, p)), p) }

  /** The run in which every BOS page starts afresh. */
  function AfreshFrom(r: Run, q: seq<Page>): Run
  {
    if q == [] then r else AdvanceAfresh(AfreshFrom(r, q[..|q| - 1]), q[|q| - 1])
  }

  lemma AfreshSnoc(r: Run, q: seq<Page>, p: Page)
    ensures AfreshFrom(r, q + [p]) == AdvanceAfresh(AfreshFrom(r, q), p)
  {
    UnSnoc(q, p);
  }

  function Further(t: Trail, known: Option<Stream>, p: Page, at: nat): Trail
  {
    match Entered(known, p)
    case None => t
    case Some(st) => Onward(t, st, p, at)
  }

  function TrailFrom(r: Run, q: seq<Page>): Trail
  {
    if q == [] then Trail([], 0, Between)
    else
      var front, p := q[..|q| - 1], q[|q| - 1];
      Further(TrailFrom(r, front), Forget(AfreshFrom(r, front).known, p), p, |LayoutOf(front).segs|)
  }

  function StateOf(known: Option<Stream>): Stream { if known.Some? then known.value else REGISTERED }

  /** Nothing out yet, and no partial packet held. */
  predicate Idle(r: Run)
  {
    r.packets == [] && !StateOf(r.known).pendingValid && StateOf(r.known).pending == []
  }

  ghost predicate RunAccounted(l: Layout, r: Run, t: Trail, exact: bool)
  {
    Accounted(l, r.packets, StateOf(r.known), t) && (exact ==> r.known.Some? && Exact(l, r.known.value, t))
  }

  lemma SkippedPage(l: Layout, packets: seq<Packet>, t: Trail, p: Page, segs: seq<Segment>)
    requires Accounted(l, packets, REGISTERED, t)
    ensures Accounted(Extend(l, p, segs), packets, REGISTERED, t)
  {
    AllGenuineExtend(l, p, segs, packets, t.spans);
  }

  lemma AdvanceTraced(l: Layout, r: Run, t: Trail, exact: bool, p: Page, at: nat)
    requires RunAccounted(l, r, t, exact) && at == |l.segs|
    ensures RunAccounted(Extend(l, p, PageSegs(p)), AdvanceAfresh(r, p), Further(t, Forget(r.known, p), p, at), exact)
  {
    var known := Forget(r.known, p);
    EnteredIsAbsorbed(known, p);
    PlusNil(r.packets);
    match Entered(known, p)
    case None => SkippedPage(l, r.packets, t, p, PageSegs(p));
    case Some(st) => AbsorbTraced(l, r.packets, st, t, p, exact, at);
  }

  lemma {:induction false} AfreshTraced(r: Run, q: seq<Page>, exact: bool)
    requires Idle(r) && (exact ==> r.known.Some?)
    ensures RunAccounted(LayoutOf(q), AfreshFrom(r, q), TrailFrom(r, q), exact)
  {
    if q != [] {
      var front, p := q[..|q| - 1], q[|q| - 1];
      AfreshTraced(r, front, exact);
      AdvanceTraced(LayoutOf(front), AfreshFrom(r, front), TrailFrom(r, front), exact, p, |LayoutOf(front).segs|);
    }
  }

  /** Streams registered by their own BOS page start afresh at each one anyway. */
  lemma {:induction false} OwnBosAfresh(q: seq<Page>)
    ensures AfreshFrom(IDLE, q) == RunOf(q) && (RunOf(q).known.Some? ==> RunOf(q).known.value.bosProcessed)
  {
    if q != [] {
      OwnBosAfresh(q[..|q| - 1]);
    }
  }

  /**
   For any pages whatsoever every packet delivered is genuine, and no segment is used twice:
   the spans of the packets, in delivery order, follow one another.
   */
  lemma NoSplice(q: seq<Page>) returns (spans: seq<Span>)
    ensures AllGenuine(LayoutOf(q), RunOf(q).packets, spans) && InOrder(spans, |LayoutOf(q).segs|)
  {
    AfreshTraced(IDLE, q, false);
    OwnBosAfresh(q);
    spans := TrailFrom(IDLE, q).spans;
  }

  /**
   Nor is anything withheld: with its BOS pages starting afresh a registered stream delivers the
   packet on every whole span, and nothing else.
   */
  lemma AfreshIsExact(r: Run, q: seq<Page>, l: Layout) returns (spans: seq<Span>)
    requires Idle(r) && r.known.Some? && l == LayoutOf(q)
    ensures AllGenuine(l, AfreshFrom(r, q).packets, spans) && InOrder(spans, |l.segs|)
    ensures forall span :: Whole(l, span) <==> span in spans
  {
    AfreshTraced(r, q, true);
    spans := TrailFrom(r, q).spans;
  }
}
