/** What the release times mean: each page's is the newest its stream's granules have reached by then. */
module MuxClock {
  import opened Bytes
  import opened Pages
  import opened Paging
  import opened Muxing
  import opened MuxWire
  import opened MuxFill
  import opened MuxSteps
  import opened MuxClose
  import opened MuxRuns
  import opened MuxTheorems
  import opened MuxHistory

  /** The latest time among the granules of `q`, from `start` on; pages that end no packet have none. */
  function Newest(c: Clock, start: real, q: seq<Page>): real
  {
    if q == [] then start
    else
      var before, last := Newest(c, start, q[..|q| - 1]), q[|q| - 1];
      if last.granule < 0 || last.lacing == [] then before else MaxReal(before, GranuleTime(c, last.granule))
  }

  lemma NewestSnoc(c: Clock, start: real, q: seq<Page>, p: Page)
    ensures Newest(c, start, q + [p])
         == if p.granule < 0 || p.lacing == [] then Newest(c, start, q)
            else MaxReal(Newest(c, start, q), GranuleTime(c, p.granule))
  {
    UnSnoc(q, p);
  }

  lemma NewestMarked(c: Clock, start: real, q: seq<Page>)
    ensures Newest(c, start, WithEos(q)) == Newest(c, start, q)
  {
    if q != [] {
      NewestSnoc(c, start, q[..|q| - 1], MarkLast(q[|q| - 1]));
    }
  }

  /** The time of the stream once its pages up to the `k`th are cut, `w0` being the start of the link. */
  function TimeAt(w0: StreamWriter, cut: seq<Page>, k: nat): real
    requires |w0.cut| <= k <= |cut|
  {
    Newest(ClockOf(w0), w0.newestTime, cut[|w0.cut|..k])
  }

  lemma TimeGrows(w0: StreamWriter, cut: seq<Page>, p: Page, k: nat)
    requires |w0.cut| <= k <= |cut|
    ensures TimeAt(w0, cut + [p], k) == TimeAt(w0, cut, k)
  {
    assert (cut + [p])[|w0.cut|..k] == cut[|w0.cut|..k];
  }

  lemma TimeNext(w0: StreamWriter, cut: seq<Page>, p: Page, n: nat)
    requires |w0.cut| <= |cut| && n == |cut| + 1
    ensures TimeAt(w0, cut + [p], n)
         == if p.granule < 0 || p.lacing == [] then TimeAt(w0, cut, |cut|)
            else MaxReal(TimeAt(w0, cut, |cut|), GranuleTime(ClockOf(w0), p.granule))
  {
    assert (cut + [p])[|w0.cut|..n] == cut[|w0.cut|..|cut|] + [p];
    NewestSnoc(ClockOf(w0), w0.newestTime, cut[|w0.cut|..|cut|], p);
  }

  lemma TimeMarked(w0: StreamWriter, cut: seq<Page>, k: nat)
    requires |w0.cut| <= k <= |cut|
    ensures TimeAt(w0, WithEos(cut), k) == TimeAt(w0, cut, k)
  {
    var a := |w0.cut|;
    if k < |cut| || a == k {
      assert WithEos(cut)[a..k] == cut[a..k];
    } else {
      assert WithEos(cut)[a..k] == WithEos(cut[a..k]);
      NewestMarked(ClockOf(w0), w0.newestTime, cut[a..k]);
    }
  }

  /** A queued page is the stream's `n`th, at the time the stream had reached with it. */
  predicate Timed(w0: StreamWriter, cut: seq<Page>, p: Pending, n: nat)
    requires |w0.cut| <= n < |cut|
  {
    p.page == cut[n] && p.time == TimeAt(w0, cut, n + 1)
  }

  /** The stream's clock, and every page queued, tell the newest time of the granules so far. */
  predicate Clocked(w0: StreamWriter, w: StreamWriter)
  {
    && ClockOf(w) == ClockOf(w0) && |w0.cut| + |w.queue| <= |w.cut|
    && w.newestTime == TimeAt(w0, w.cut, |w.cut|)
    && (w.buffered.lacing == [] ==> w.buffered.granule < 0)
    && forall j, n :: 0 <= j < |w.queue| && n == |w.cut| - |w.queue| + j ==> Timed(w0, w.cut, w.queue[j], n)
  }

  /** A page of the stream no longer queued. */
  ghost predicate Sent(w0: StreamWriter, w: StreamWriter, p: Pending)
  {
    exists n :: |w0.cut| <= n && n + |w.queue| < |w.cut| && Timed(w0, w.cut, p, n)
  }

  lemma ClockedCut(w0: StreamWriter, w: StreamWriter)
    requires Clocked(w0, w)
    ensures Clocked(w0, CutAndQueue(w))
    ensures forall p :: Sent(w0, w, p) ==> Sent(w0, CutAndQueue(w), p)
  {
    var w', page := CutAndQueue(w), PageOut(w);
    TimeNext(w0, w.cut, page, |w'.cut|);
    forall k | |w0.cut| <= k <= |w.cut|
      ensures TimeAt(w0, w'.cut, k) == TimeAt(w0, w.cut, k)
    {
      TimeGrows(w0, w.cut, page, k);
    }
    forall n, p | |w0.cut| <= n < |w.cut| && Timed(w0, w.cut, p, n)
      ensures Timed(w0, w'.cut, p, n)
    {}
  }

  lemma ClockedPop(w0: StreamWriter, w: StreamWriter)
    requires Clocked(w0, w) && w.queue != []
    ensures var w' := w.(queue := w.queue[1..]);
            && Clocked(w0, w') && Sent(w0, w', w.queue[0])
            && forall p :: Sent(w0, w, p) ==> Sent(w0, w', p)
  {
    assert Timed(w0, w.cut, w.queue[0], |w.cut| - |w.queue|);
  }

  lemma ClockedNil(w0: StreamWriter, w: StreamWriter)
    requires Clocked(w0, w) && w.queue == [] && w.bosEmitted
    ensures Clocked(w0, Close(w)) && forall p :: Sent(w0, w, p) ==> Sent(w0, Close(w), p)
  {
    var nil := Page(LAST_PAGE, w.lastGranule, w.serial, w.seqNo, [], []);
    TimeNext(w0, w.cut, nil, |w.cut| + 1);
    forall k | |w0.cut| <= k <= |w.cut|
      ensures TimeAt(w0, w.cut + [nil], k) == TimeAt(w0, w.cut, k)
    {
      TimeGrows(w0, w.cut, nil, k);
    }
    forall n, p | |w0.cut| <= n < |w.cut| && Timed(w0, w.cut, p, n)
      ensures Timed(w0, w.cut + [nil], p, n)
    {}
  }

  lemma TimesMarked(w0: StreamWriter, cut: seq<Page>)
    requires |w0.cut| < |cut|
    ensures |WithEos(cut)| == |cut| && WithEos(cut)[|cut| - 1] == MarkLast(cut[|cut| - 1])
    ensures forall n :: 0 <= n < |cut| - 1 ==> WithEos(cut)[n] == cut[n]
    ensures forall k :: |w0.cut| <= k <= |cut| ==> TimeAt(w0, WithEos(cut), k) == TimeAt(w0, cut, k)
  {
    forall k | |w0.cut| <= k <= |cut|
      ensures TimeAt(w0, WithEos(cut), k) == TimeAt(w0, cut, k)
    {
      TimeMarked(w0, cut, k);
    }
  }

  lemma ClockedMark(w0: StreamWriter, w: StreamWriter)
    requires Clocked(w0, w) && w.queue != []
    ensures Clocked(w0, Close(w)) && forall p :: Sent(w0, w, p) ==> Sent(w0, Close(w), p)
  {
    var w', last := Close(w), |w.queue| - 1;
    TimesMarked(w0, w.cut);
    forall j, n | 0 <= j < |w'.queue| && n == |w'.cut| - |w'.queue| + j
      ensures Timed(w0, w'.cut, w'.queue[j], n)
    {
      assert Timed(w0, w.cut, w.queue[j], n);
    }
    forall n, p | |w0.cut| <= n < |w.cut| - 1 && Timed(w0, w.cut, p, n)
      ensures Timed(w0, w'.cut, p, n)
    {}
  }

  // ----- the whole muxer -----

  /** From the link's start `s` on: every clock is right, and so is the time of every page released. */
  ghost predicate OnTime(s: Mux, m: Mux)
  {
    && m.writers.Keys == s.writers.Keys
    && (forall i :: i in m.writers ==> Clocked(s.writers[i], m.writers[i]))
    && (forall p :: p in m.released ==> exists i :: i in m.writers && Sent(s.writers[i], m.writers[i], p))
  }

  ghost function Timely(s: Mux): Invariant { (m: Mux) => OnTime(s, m) }

  /** One writer changed for another whose clock is right and that has still sent what it had sent. */
  lemma TimelyWith(s: Mux, m: Mux, i: u32, w: StreamWriter)
    requires OnTime(s, m) && i in m.writers && Clocked(s.writers[i], w)
    requires forall p :: Sent(s.writers[i], m.writers[i], p) ==> Sent(s.writers[i], w, p)
    ensures OnTime(s, With(m, i, w))
  {
    var m' := With(m, i, w);
    forall p | p in m'.released
      ensures exists o :: o in m'.writers && Sent(s.writers[o], m'.writers[o], p)
    {
      var o :| o in m.writers && Sent(s.writers[o], m.writers[o], p);
      assert o in m'.writers && Sent(s.writers[o], m'.writers[o], p);
    }
  }

  lemma PopTimely(s: Mux, m: Mux, i: u32)
    requires OnTime(s, m) && i in m.writers && m.writers[i].queue != []
    ensures OnTime(s, Pop(m, i))
  {
    var w := m.writers[i];
    var w' := w.(queue := w.queue[1..]);
    ClockedPop(s.writers[i], w);
    TimelyWith(s, m, i, w');
    var m' := Pop(m, i);
    forall p | p in m'.released
      ensures exists o :: o in m'.writers && Sent(s.writers[o], m'.writers[o], p)
    {
      if p == w.queue[0] {
        assert Sent(s.writers[i], m'.writers[i], p);
      } else {
        assert p in With(m, i, w').released;
      }
    }
  }

  lemma TimelyPop(s: Mux)
    ensures KeptByPop(Timely(s)) && KeptByRelease(Timely(s))
  {
    forall m: Mux, i: u32 | i in m.writers && m.writers[i].queue != [] && OnTime(s, m)
      ensures OnTime(s, Pop(m, i))
    {
      PopTimely(s, m, i);
    }
    forall m: Mux | OnTime(s, m)
      ensures Timely(s)(Release(m))
    {
      ReleaseKeeps(Timely(s), m);
    }
  }

  lemma TimelyUpdate(s: Mux)
    ensures KeptByUpdate(Timely(s))
  {
    forall m: Mux, i: u32, w: StreamWriter | OnTime(s, m) && i in m.writers && SamePages(m.writers[i], w)
      ensures OnTime(s, With(m, i, w))
    {
      TimelyWith(s, m, i, w);
    }
  }

  lemma TimelyCut(s: Mux)
    ensures KeptByCut(Timely(s))
  {
    forall m: Mux, i: u32 | OnTime(s, m) && i in m.writers
      ensures OnTime(s, With(m, i, CutAndQueue(m.writers[i])))
    {
      ClockedCut(s.writers[i], m.writers[i]);
      TimelyWith(s, m, i, CutAndQueue(m.writers[i]));
    }
  }

  lemma TimelyClose(s: Mux)
    ensures KeptByClose(Timely(s))
  {
    forall m: Mux, i: u32 | OnTime(s, m) && i in m.writers && m.writers[i].bosEmitted
      ensures OnTime(s, With(m, i, Close(m.writers[i])))
    {
      if m.writers[i].queue == [] {
        ClockedNil(s.writers[i], m.writers[i]);
      } else {
        ClockedMark(s.writers[i], m.writers[i]);
      }
      TimelyWith(s, m, i, Close(m.writers[i]));
    }
  }

  lemma TimelyFlag(s: Mux)
    ensures KeptByFlag(Timely(s))
  {
    forall m: Mux, b: bool {:trigger m.(contentStarted := b)} | OnTime(s, m)
      ensures Timely(s)(m.(contentStarted := b))
    {}
  }

  lemma TimelyStable(s: Mux)
    ensures Stable(Timely(s))
  {
    TimelyPop(s);
    TimelyUpdate(s);
    TimelyCut(s);
    TimelyFlag(s);
  }

  lemma TimelyTarget(s: Mux)
    ensures KeptByTarget(Timely(s))
  {
    forall m: Mux, t: Option<nat> {:trigger m.(pageTarget := t)} | OnTime(s, m)
      ensures Timely(s)(m.(pageTarget := t))
    {}
  }

  lemma StartClocked(w: StreamWriter)
    requires HoldsPackets(w) && w.queue == []
    ensures Clocked(w, w)
  {
    assert w.cut[|w.cut|..] == [];
  }

  lemma StartTimely(s: Mux)
    requires Running(s) && s.released == [] && forall i :: i in s.order && i in s.writers ==> s.writers[i].queue == []
    ensures OnTime(s, s)
  {
    OrderIsDeclared(s);
    forall i | i in s.writers
      ensures Clocked(s.writers[i], s.writers[i])
    {
      StartClocked(s.writers[i]);
    }
  }

  /** At every moment of a link, and when it is finished, clocks and release times are right. */
  lemma EveryTimeIsRight(infos: seq<StreamInfo>, calls: seq<Call>, s: Mux, m: Mux)
    requires WellUsed(infos, calls) && |infos| < TWO32 && s == LinkStart(infos, calls)
    requires m == Muxing.After(infos, calls)
    ensures OnTime(s, m) && OnTime(s, FinishLink(m))
  {
    StartsEmpty(infos, calls);
    StartTimely(s);
    TimelyStable(s);
    TimelyPop(s);
    TimelyClose(s);
    TimelyTarget(s);
    SinceLinkStart(Timely(s), infos, calls);
    RunHolds(infos, calls);
    UntilLinkEnd(Timely(s), m);
  }
}
