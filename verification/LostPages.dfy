/**
 Pages lost from a clean file, and pages sent twice: the validator names each break in the numbering
 once, where it shows, and nothing else.
 */
module LostPages {
  import opened Bytes
  import opened Pages
  import opened Segments
  import opened Validation
  import opened Grammar
  import opened Decision
  import opened Loss
  import Damage

  // ----- checking one page more -----

  lemma {:induction false} CheckAllSnoc(check: Checker, st: State, ps: seq<Page>, p: Page, at: nat, end: nat)
    requires end == at + TotalSize(ps)
    ensures var r := CheckAll(check, st, ps, at);
            var step := check(r.0, Raw(end, 0, p));
            CheckAll(check, st, ps + [p], at) == (step.0, r.1 + step.1)
    decreases |ps|
  {
    if ps == [] {
      assert [] + [p] == [p];
      PlusNil(check(st, Raw(end, 0, p)).1);
      assert CheckAll(check, check(st, Raw(at, 0, p)).0, [], at + Size(p)).1 == [];
      assert [p][1..] == [];
    } else {
      var step := check(st, Raw(at, 0, ps[0]));
      ConcatTail(ps, [p]);
      CheckAllSnoc(check, step.0, ps[1..], p, at + Size(ps[0]), end);
      var r := CheckAll(check, step.0, ps[1..], at + Size(ps[0]));
      Assoc(step.1, r.1, check(r.0, Raw(end, 0, p)).1);
    }
  }

  // ----- what is lost -----

  /** How many pages of `s` were lost since the last one that got through. */
  function Missed(ps: seq<Page>, keep: seq<bool>, s: u32): nat
    requires |keep| == |ps|
  {
    if ps == [] then 0
    else
      var n := |ps| - 1;
      if ps[n].serial != s then Missed(ps[..n], keep[..n], s)
      else if keep[n] then 0
      else Missed(ps[..n], keep[..n], s) + 1
  }

  /** Only pages that neither begin nor end their bitstream are lost, and not all numbers in a row. */
  predicate InnerLost(ps: seq<Page>, keep: seq<bool>)
    requires |keep| == |ps|
  {
    if ps == [] then true
    else
      var n := |ps| - 1;
      && InnerLost(ps[..n], keep[..n])
      && (!keep[n] ==> !IsFirst(ps[n]) && !IsLast(ps[n]))
      && Missed(ps[..n], keep[..n], ps[n].serial) < TWO32 - 1
  }

  /** A jump as the 32-bit difference tells it: forward, or from 2^31 on backward. */
  function BreakRule(missed: nat): Rule { if missed + 1 < 0x8000_0000 then SequenceGap else SequenceRegression }

  /** One issue for each page that gets through after pages of its own bitstream that did not. */
  function Breaks(ps: seq<Page>, keep: seq<bool>): seq<Issue>
    requires |keep| == |ps|
  {
    if ps == [] then []
    else
      var n := |ps| - 1;
      var some, missed := Received(ps[..n], keep[..n]), Missed(ps[..n], keep[..n], ps[n].serial);
      Breaks(ps[..n], keep[..n])
      + When(keep[n] && missed > 0, Issue(BreakRule(missed), TotalSize(some), Some(|some|), Some(ps[n].serial)))
  }

  // ----- the models over what got through -----

  /** The model of a stream whose pages are `q`, the last `n` of them lost. */
  predicate Lagging(m: StreamModel, q: seq<Page>, n: nat)
  {
    && n < |q| && !m.afterEosReported && !m.tainted
    && m.lastSeq == q[|q| - 1 - n].seqNo && m.eos == IsLast(q[|q| - 1])
    && (n == 0 ==> m.openPacket == EndsOpen(q[|q| - 1].lacing))
    && Damage.NoLater(m.lastGranule, LastGranule(q))
  }

  predicate Knows(live: map<u32, StreamModel>, finished: set<u32>, s: u32, q: seq<Page>, n: nat)
  {
    && (s in live ==> q != [] && Lagging(live[s], q, n))
    && (s in finished ==> Closed(q))
    && (q != [] ==> s in live || s in finished)
  }

  ghost predicate KnowsAll(live: map<u32, StreamModel>, finished: set<u32>, ps: seq<Page>, keep: seq<bool>)
    requires |keep| == |ps|
  {
    forall s: u32 :: Knows(live, finished, s, Proj(ps, s), Missed(ps, keep, s))
  }

  /** The state after the pages that got through. */
  ghost predicate Trails(d: State, ps: seq<Page>, keep: seq<bool>)
    requires |keep| == |ps|
  {
    && d.pages == |Received(ps, keep)|
    && (d.linkHasData ==> DataBegun(ps)) && (DataBegun(ps) && AllClosed(ps) ==> d.linkHasData)
    && KnowsAll(d.live, d.finished, ps, keep)
  }

  lemma ModAdd(i: nat, k: nat, sum: nat)
    requires sum == i + k
    ensures (i % TWO32 + k) % TWO32 == sum % TWO32
  {
    assert sum == TWO32 * (i / TWO32) + (i % TWO32 + k);
  }

  lemma NumbersOf(q: seq<Page>, p: Page, n: nat, i: nat)
    requires Prefix(q) && q != [] && MayFollow(q, p) && i + n + 1 == |q|
    ensures p.seqNo == (q[i].seqNo + (n + 1)) % TWO32
  {
    PrefixIsOpenStream(q);
    assert PageRule(q, i) && PageRule(q, |q| - 1);
    ModStep(|q| - 1);
    ModAdd(i, n + 1, |q|);
  }

  lemma AheadBy(last: u32, seqNo: u32, n: nat)
    requires seqNo == (last + (n + 1)) % TWO32 && 0 < n < TWO32 - 1
    ensures seqNo != NextU32(last) && (Ahead(seqNo, last) <==> n + 1 < 0x8000_0000)
  {
    assert (seqNo - last) % TWO32 == n + 1;
  }

  lemma GranuleGrows(q: seq<Page>, p: Page, g: Option<i64>)
    requires GranuleRule(q, p) && Damage.NoLater(g, LastGranule(q))
    ensures Damage.NoLater(g, LastGranule(q + [p]))
    ensures Completes(p.lacing) ==> LastGranule(q + [p]) == Some(p.granule)
  {
    UnSnoc(q, p);
    assert Completes(p.lacing) ==> p.lacing != [];
  }

  lemma LagsOnward(m: StreamModel, q: seq<Page>, p: Page, n: nat, m': StreamModel)
    requires Lagging(m, q, n) && MayFollow(q, p) && !m.eos
    requires m' == Rebaseline(m, Raw(0, 0, p))
    ensures Lagging(m', q + [p], 0)
  {
    UnSnoc(q, p);
    GranuleGrows(q, p, m.lastGranule);
  }

  lemma FinishQuiet(m: StreamModel, q: seq<Page>, p: Page, at: nat, index: nat)
    requires MayFollow(q, p) && Damage.NoLater(m.lastGranule, LastGranule(q)) && m.lastSeq == p.seqNo
    requires !m.afterEosReported && !m.tainted && !m.eos
    ensures FinishPage(Raw(at, 0, p), m, index).1 == [] && Lagging(FinishPage(Raw(at, 0, p), m, index).0, q + [p], 0)
  {
    UnSnoc(q, p);
    GranuleGrows(q, p, m.lastGranule);
  }

  /** The next page to get through: what the validator says of it. */
  lemma NextAfterLoss(m: StreamModel, q: seq<Page>, p: Page, n: nat, at: nat, index: nat)
    requires Prefix(q) && q != [] && MayFollow(q, p) && Lagging(m, q, n) && n < TWO32 - 1
    ensures var (m', issues) := CheckNext(m, Raw(at, 0, p), index);
            && issues == When(n > 0, Issue(BreakRule(n), at, Some(index), Some(p.serial)))
            && Lagging(m', q + [p], 0)
  {
    NumbersOf(q, p, n, |q| - 1 - n);
    if n > 0 {
      AheadBy(m.lastSeq, p.seqNo, n);
      LagsOnward(m, q, p, n, CheckNext(m, Raw(at, 0, p), index).0);
    } else {
      FinishQuiet(m.(lastSeq := p.seqNo), q, p, at, index);
    }
  }

  lemma MissedSnoc(ps: seq<Page>, keep: seq<bool>, p: Page, b: bool, s: u32)
    requires |keep| == |ps|
    ensures Missed(ps + [p], keep + [b], s)
         == if p.serial != s then Missed(ps, keep, s) else if b then 0 else Missed(ps, keep, s) + 1
  {
    UnSnoc(ps, p);
    UnSnoc(keep, b);
  }

  lemma KnowsLost(live: map<u32, StreamModel>, finished: set<u32>, q: seq<Page>, p: Page, n: nat)
    requires Knows(live, finished, p.serial, q, n) && MayFollow(q, p) && !IsFirst(p) && !IsLast(p)
    ensures Knows(live, finished, p.serial, q + [p], n + 1)
  {
    UnSnoc(q, p);
    if p.serial in live {
      GranuleGrows(q, p, live[p.serial].lastGranule);
    }
  }

  lemma LostStep(d: State, ps: seq<Page>, keep: seq<bool>, p: Page)
    requires |keep| == |ps| && Trails(d, ps, keep) && Accepts(ps, p) && !IsFirst(p) && !IsLast(p)
    ensures Trails(d, ps + [p], keep + [false])
  {
    forall s: u32
      ensures Knows(d.live, d.finished, s, Proj(ps + [p], s), Missed(ps + [p], keep + [false], s))
    {
      ProjSnoc(ps, p, s);
      MissedSnoc(ps, keep, p, false, s);
      assert Knows(d.live, d.finished, s, Proj(ps, s), Missed(ps, keep, s));
      if s == p.serial {
        KnowsLost(d.live, d.finished, Proj(ps, s), p, Missed(ps, keep, s));
      } else {
        PlusNil(Proj(ps, s));
      }
    }
    UnSnoc(ps, p);
    UnSnoc(keep, false);
    PlusNil(Received(ps, keep));
    ProjSnoc(ps, p, p.serial);
    UnSnoc(Proj(ps, p.serial), p);
    assert !Closed(Proj(ps + [p], p.serial));
  }

  /** A data page gets through. */
  lemma DataChecked(d: State, ps: seq<Page>, keep: seq<bool>, p: Page, at: nat, q: seq<Page>, n: nat)
    requires |keep| == |ps| && Trails(d, ps, keep) && Accepts(ps, p) && !IsFirst(p) && Prefix(q)
    requires q == Proj(ps, p.serial) && n == Missed(ps, keep, p.serial) < TWO32 - 1
    ensures p.serial in d.live && p.serial !in d.finished
    ensures var (r, issues) := CheckPage(d, Raw(at, 0, p));
            && issues == When(n > 0, Issue(BreakRule(n), at, Some(d.pages), Some(p.serial)))
            && r.linkHasData && r.pages == d.pages + 1 && r.finished == d.finished && p.serial in r.live
            && Lagging(r.live[p.serial], q + [p], 0) && r.live == d.live[p.serial := r.live[p.serial]]
  {
    assert Knows(d.live, d.finished, p.serial, q, n);
    NextAfterLoss(d.live[p.serial], q, p, n, at, d.pages);
  }

  lemma KnowsKept(live: map<u32, StreamModel>, finished: set<u32>, live': map<u32, StreamModel>, ps: seq<Page>,
          keep: seq<bool>, p: Page, q: seq<Page>)
    requires |keep| == |ps| && KnowsAll(live, finished, ps, keep) && p.serial !in finished && p.serial in live'
    requires q == Proj(ps, p.serial) && Lagging(live'[p.serial], q + [p], 0)
    requires live' == live[p.serial := live'[p.serial]]
    ensures KnowsAll(live', finished, ps + [p], keep + [true])
  {
    forall s: u32
      ensures Knows(live', finished, s, Proj(ps + [p], s), Missed(ps + [p], keep + [true], s))
    {
      ProjSnoc(ps, p, s);
      MissedSnoc(ps, keep, p, true, s);
      assert Knows(live, finished, s, Proj(ps, s), Missed(ps, keep, s));
      PlusNil(Proj(ps, s));
    }
  }

  lemma KnownEnded(live: map<u32, StreamModel>, finished: set<u32>, ps: seq<Page>, keep: seq<bool>)
    requires |keep| == |ps| && KnowsAll(live, finished, ps, keep) && AllClosed(ps)
    ensures AllEnded(live)
  {
    forall s | s in live
      ensures live[s].eos
    {
      assert Knows(live, finished, s, Proj(ps, s), Missed(ps, keep, s));
    }
  }

  /** A BOS page always gets through, and finds what it would have found. */
  lemma BosChecked(d: State, ps: seq<Page>, keep: seq<bool>, p: Page, at: nat, turns: bool)
    requires |keep| == |ps| && Trails(d, ps, keep) && Accepts(ps, p) && IsFirst(p) && turns == DataBegun(ps)
    ensures var (r, issues) := CheckPage(d, Raw(at, 0, p));
            && issues == [] && !r.linkHasData && r.pages == d.pages + 1 && p.serial in r.live
            && Lagging(r.live[p.serial], [p], 0)
            && r.finished == (if turns then d.finished + d.live.Keys else d.finished)
            && r.live == (if turns then map[] else d.live)[p.serial := r.live[p.serial]]
  {
    var q := Proj(ps, p.serial);
    assert q == [];
    assert Knows(d.live, d.finished, p.serial, q, Missed(ps, keep, p.serial));
    if turns {
      KnownEnded(d.live, d.finished, ps, keep);
    }
    FinishQuiet(NewModel(Raw(at, 0, p)), [], p, at, d.pages);
    assert [] + [p] == [p];
  }

  lemma KnowsBos(live: map<u32, StreamModel>, finished: set<u32>, live': map<u32, StreamModel>, finished': set<u32>,
          ps: seq<Page>, keep: seq<bool>, p: Page, turns: bool)
    requires |keep| == |ps| && KnowsAll(live, finished, ps, keep) && Proj(ps, p.serial) == []
    requires p.serial in live' && Lagging(live'[p.serial], [p], 0) && (turns ==> AllClosed(ps))
    requires finished' == if turns then finished + live.Keys else finished
    requires live' == (if turns then map[] else live)[p.serial := live'[p.serial]]
    ensures KnowsAll(live', finished', ps + [p], keep + [true])
  {
    forall s: u32
      ensures Knows(live', finished', s, Proj(ps + [p], s), Missed(ps + [p], keep + [true], s))
    {
      ProjSnoc(ps, p, s);
      MissedSnoc(ps, keep, p, true, s);
      assert Knows(live, finished, s, Proj(ps, s), Missed(ps, keep, s));
      PlusNil(Proj(ps, s));
    }
  }

  lemma ReceivedMore(ps: seq<Page>, keep: seq<bool>, p: Page, b: bool)
    requires |keep| == |ps|
    ensures Received(ps + [p], keep + [b]) == Received(ps, keep) + if b then [p] else []
    ensures DataBegun(ps + [p]) == !IsFirst(p)
  {
    UnSnoc(ps, p);
    UnSnoc(keep, b);
  }

  lemma BosStep(d: State, ps: seq<Page>, keep: seq<bool>, p: Page, at: nat)
    requires |keep| == |ps| && Trails(d, ps, keep) && Accepts(ps, p) && IsFirst(p)
    ensures CheckPage(d, Raw(at, 0, p)).1 == [] && Trails(CheckPage(d, Raw(at, 0, p)).0, ps + [p], keep + [true])
  {
    var r := CheckPage(d, Raw(at, 0, p)).0;
    BosChecked(d, ps, keep, p, at, DataBegun(ps));
    KnowsBos(d.live, d.finished, r.live, r.finished, ps, keep, p, DataBegun(ps));
    ReceivedMore(ps, keep, p, true);
  }

  lemma DataStep(d: State, ps: seq<Page>, keep: seq<bool>, p: Page, at: nat, n: nat)
    requires |keep| == |ps| && Trails(d, ps, keep) && Accepts(ps, p) && !IsFirst(p) && Prefix(Proj(ps, p.serial))
    requires n == Missed(ps, keep, p.serial) < TWO32 - 1
    ensures var (r, issues) := CheckPage(d, Raw(at, 0, p));
            && issues == When(n > 0, Issue(BreakRule(n), at, Some(d.pages), Some(p.serial)))
            && Trails(r, ps + [p], keep + [true])
  {
    var r := CheckPage(d, Raw(at, 0, p)).0;
    DataChecked(d, ps, keep, p, at, Proj(ps, p.serial), n);
    KnowsKept(d.live, d.finished, r.live, ps, keep, p, Proj(ps, p.serial));
    ReceivedMore(ps, keep, p, true);
  }

  /** A stream begins with the page numbered 0, of which none can be lost before. */
  lemma {:induction false} NoneMissed(ps: seq<Page>, keep: seq<bool>, s: u32)
    requires |keep| == |ps| && Proj(ps, s) == []
    ensures Missed(ps, keep, s) == 0
  {
    if ps != [] {
      NoneMissed(ps[..|ps| - 1], keep[..|ps| - 1], s);
    }
  }

  lemma KeptStep(d: State, ps: seq<Page>, keep: seq<bool>, p: Page, at: nat, n: nat)
    requires |keep| == |ps| && Trails(d, ps, keep) && Conforms(ps) && Accepts(ps, p)
    requires n == Missed(ps, keep, p.serial) < TWO32 - 1 && at == TotalSize(Received(ps, keep))
    ensures var (r, issues) := CheckPage(d, Raw(at, 0, p));
            && issues == When(n > 0, Issue(BreakRule(n), at, Some(|Received(ps, keep)|), Some(p.serial)))
            && Trails(r, ps + [p], keep + [true])
  {
    if IsFirst(p) {
      NoneMissed(ps, keep, p.serial);
      BosStep(d, ps, keep, p, at);
    } else {
      RunProjections(ps, p.serial);
      DataStep(d, ps, keep, p, at, n);
    }
  }

  // ----- a whole file -----

  /** What checking the pages that got through has come to. */
  ghost predicate Broken(r: (State, seq<Issue>), ps: seq<Page>, keep: seq<bool>)
    requires |keep| == |ps|
  {
    Trails(r.0, ps, keep) && r.1 == Breaks(ps, keep)
  }

  lemma BreaksSnoc(ps: seq<Page>, keep: seq<bool>, p: Page, b: bool)
    requires |keep| == |ps|
    ensures Breaks(ps + [p], keep + [b])
         == Breaks(ps, keep)
            + When(b && Missed(ps, keep, p.serial) > 0,
                   Issue(BreakRule(Missed(ps, keep, p.serial)), TotalSize(Received(ps, keep)),
                         Some(|Received(ps, keep)|), Some(p.serial)))
  {
    UnSnoc(ps, p);
    UnSnoc(keep, b);
  }

  lemma OneMorePage(ps: seq<Page>, keep: seq<bool>, p: Page, b: bool)
    requires |keep| == |ps| && Conforms(ps) && Accepts(ps, p) && Missed(ps, keep, p.serial) < TWO32 - 1
    requires !b ==> !IsFirst(p) && !IsLast(p)
    requires Broken(CheckAll(CheckPage, START, Received(ps, keep), 0), ps, keep)
    ensures Broken(CheckAll(CheckPage, START, Received(ps + [p], keep + [b]), 0), ps + [p], keep + [b])
  {
    var some := Received(ps, keep);
    var d := CheckAll(CheckPage, START, some, 0).0;
    ReceivedMore(ps, keep, p, b);
    BreaksSnoc(ps, keep, p, b);
    if b {
      KeptStep(d, ps, keep, p, TotalSize(some), Missed(ps, keep, p.serial));
      CheckAllSnoc(CheckPage, START, some, p, 0, TotalSize(some));
    } else {
      LostStep(d, ps, keep, p);
      PlusNil(some);
      PlusNil(Breaks(ps, keep));
    }
  }

  lemma {:induction false} LossChecked(ps: seq<Page>, keep: seq<bool>)
    requires |keep| == |ps| && Conforms(ps) && InnerLost(ps, keep)
    ensures Broken(CheckAll(CheckPage, START, Received(ps, keep), 0), ps, keep)
    decreases |ps|
  {
    if ps == [] {
      assert CheckAll(CheckPage, START, [], 0) == (START, []);
    } else {
      var n := |ps| - 1;
      LossChecked(ps[..n], keep[..n]);
      OneMorePage(ps[..n], keep[..n], ps[n], keep[n]);
      SplitLast(ps);
      SplitLast(keep);
    }
  }

  lemma {:induction false} SomeReceived(ps: seq<Page>, keep: seq<bool>)
    requires |keep| == |ps| && ps != [] && Conforms(ps) && InnerLost(ps, keep)
    ensures Received(ps, keep) != []
  {
    var n := |ps| - 1;
    if n > 0 {
      SomeReceived(ps[..n], keep[..n]);
    }
  }

  lemma {:induction false} ReceivedFit(ps: seq<Page>, keep: seq<bool>)
    requires |keep| == |ps| && AllWellFormed(ps)
    ensures AllWellFormed(Received(ps, keep))
  {
    if ps != [] {
      var n := |ps| - 1;
      assert forall k :: 0 <= k < n ==> ps[..n][k] == ps[k];
      ReceivedFit(ps[..n], keep[..n]);
    }
  }

  /** With the state known, so is the whole report. */
  lemma ReportOf(some: seq<Page>, st: State, found: seq<Issue>)
    requires AllWellFormed(some) && some != []
    requires CheckAll(CheckPage, START, some, 0) == (st, found) && AllEnded(st.live)
    ensures Issues(AllBytes(some)) == found
  {
    WalkOfPages(CheckPage, AllBytes(some), some);
    assert Unclosed(st.live) == {};
    Damage.OneIssueOnly(AllBytes(some), st, found);
  }

  /**
   Drop any pages of a clean file that are neither BOS nor EOS. The report is one issue for each page
   that follows a break in its own bitstream - a gap in the numbering, unless 2^31 - 1 pages or more are
   missing at once - and not a word more.
   */
  lemma LossIsNamed(ps: seq<Page>, keep: seq<bool>)
    requires |keep| == |ps| && AllWellFormed(ps) && Clean(AllBytes(ps)) && InnerLost(ps, keep)
    ensures Issues(AllBytes(Received(ps, keep))) == Breaks(ps, keep)
  {
    var some := Received(ps, keep);
    CleanPages(AllBytes(ps), ps);
    RunIsPhysical(ps);
    LossChecked(ps, keep);
    SomeReceived(ps, keep);
    ReceivedFit(ps, keep);
    var (d, found) := CheckAll(CheckPage, START, some, 0);
    KnownEnded(d.live, d.finished, ps, keep);
    ReportOf(some, d, found);
  }

  // ----- a page sent twice -----

  /** The page just seen, once more. */
  lemma SameAgain(m: StreamModel, q: seq<Page>, p: Page, at: nat, index: nat)
    requires q != [] && q[|q| - 1] == p && m == ModelOf(q) && !IsLast(p)
    ensures CheckNext(m, Raw(at, 0, p), index) == (m, [Issue(SequenceRegression, at, Some(index), Some(p.serial))])
  {}

  /** With the stream of an inner page open, no BOS page can come. */
  lemma {:induction false} StillData(ps: seq<Page>, b: seq<Page>, p: Page)
    requires Conforms(ps + [p] + b) && !IsFirst(p) && !IsLast(p) && !Occurs(b, p.serial)
    ensures DataBegun(ps + [p] + b) && Proj(ps + [p] + b, p.serial) == Proj(ps, p.serial) + [p]
    decreases |b|
  {
    var all := ps + [p] + b;
    ProjSnoc(ps, p, p.serial);
    if b == [] {
      PlusNil(ps + [p]);
      UnSnoc(ps, p);
    } else {
      var n := |b| - 1;
      ConcatFront(ps + [p], b);
      assert forall k :: 0 <= k < n ==> b[..n][k] == b[k];
      StillData(ps, b[..n], p);
      UnSnoc(Proj(ps, p.serial), p);
      assert Accepts(ps + [p] + b[..n], b[n]);
      assert !Closed(Proj(ps + [p] + b[..n], p.serial));
      PlusNil(Proj(ps + [p] + b[..n], p.serial));
    }
  }

  /** The copy costs one issue and leaves every model as it was. */
  lemma CopyStep(st: State, before: seq<Page>, p: Page, at: nat)
    requires Tracks(st, before) && DataBegun(before) && !IsFirst(p) && !IsLast(p)
    requires var q := Proj(before, p.serial); q != [] && q[|q| - 1] == p
    ensures CheckPage(st, Raw(at, 0, p))
         == (st.(pages := st.pages + 1), [Issue(SequenceRegression, at, Some(|before|), Some(p.serial))])
  {
    var q := Proj(before, p.serial);
    assert Remembers(st.live, st.finished, p.serial, q);
    SameAgain(st.live[p.serial], q, p, at, st.pages);
    assert st.live[p.serial := st.live[p.serial]] == st.live;
    assert before != [];
  }

  lemma {:induction false} CheckAllConcat(check: Checker, st: State, a: seq<Page>, b: seq<Page>, at: nat, mid: nat)
    requires mid == at + TotalSize(a)
    ensures var r := CheckAll(check, st, a, at);
            var rest := CheckAll(check, r.0, b, mid);
            CheckAll(check, st, a + b, at) == (rest.0, r.1 + rest.1)
    decreases |a|
  {
    if a == [] {
      PlusNil(b);
      PlusNil(CheckAll(check, st, b, at).1);
    } else {
      var step := check(st, Raw(at, 0, a[0]));
      ConcatTail(a, b);
      CheckAllConcat(check, step.0, a[1..], b, at + Size(a[0]), mid);
      var r := CheckAll(check, step.0, a[1..], at + Size(a[0]));
      Assoc(step.1, r.1, CheckAll(check, r.0, b, mid).1);
    }
  }

  /** The rest of the file, its first pages checked and the copy counted. */
  lemma RestAgain(st: State, before: seq<Page>, rest: seq<Page>, at: nat, s: u32)
    requires Tracks(st, before) && before != [] && Conforms(before + rest) && AllClosed(before + rest)
    ensures var r := CheckAll(CheckPage, st.(pages := st.pages + 1), rest, at); r.1 == [] && AllEnded(r.0.live)
  {
    CheckPageSteps();
    RunPrefix(before, rest);
    CheckAllDecides(CheckPage, Tracks, Conforms, st, before, rest, at);
    var end, d := CheckAll(CheckPage, st, rest, at).0, st.(pages := st.pages + 1);
    assert Damage.Recovered(d, st);
    Damage.DamageSimulates(s);
    Damage.CheckAllSimulates(CheckPage, Damage.Rel(s), d, st, rest, at);
    UnclosedMeaning(end, before + rest);
    Damage.RecoveredCloses(CheckAll(CheckPage, d, rest, at).0, end, s);
    forall x | x in CheckAll(CheckPage, d, rest, at).0.live
      ensures CheckAll(CheckPage, d, rest, at).0.live[x].eos
    {
      assert x !in Unclosed(CheckAll(CheckPage, d, rest, at).0.live);
    }
  }

  lemma CopyChecked(before: seq<Page>, p: Page, rest: seq<Page>, at: nat)
    requires Conforms(before + rest) && AllClosed(before + rest) && DataBegun(before) && at == TotalSize(before)
    requires !IsFirst(p) && !IsLast(p) && var q := Proj(before, p.serial); q != [] && q[|q| - 1] == p
    ensures var r := CheckAll(CheckPage, START, before + [p] + rest, 0);
            r.1 == [Issue(SequenceRegression, at, Some(|before|), Some(p.serial))] && AllEnded(r.0.live)
  {
    CheckPageSteps();
    StartTracks();
    RunPrefix(before, rest);
    assert [] + before == before;
    CheckAllDecides(CheckPage, Tracks, Conforms, START, [], before, 0);
    var st := CheckAll(CheckPage, START, before, 0).0;
    CopyStep(st, before, p, at);
    CheckAllSnoc(CheckPage, START, before, p, 0, at);
    RestAgain(st, before, rest, TotalSize(before + [p]), p.serial);
    CheckAllConcat(CheckPage, START, before + [p], rest, 0, TotalSize(before + [p]));
    PlusNil([Issue(SequenceRegression, at, Some(|before|), Some(p.serial))]);
  }

  lemma CopyFits(a: seq<Page>, p: Page, b: seq<Page>, rest: seq<Page>, before: seq<Page>)
    requires before == a + [p] + b && AllWellFormed(before + rest)
    ensures AllWellFormed(before + [p] + rest)
  {
    var all, ps, n := before + [p] + rest, before + rest, |before|;
    assert ps[|a|] == p;
    forall k | 0 <= k < |all|
      ensures WellFormed(all[k])
    {
      assert all[k] == if k < n then ps[k] else if k == n then p else ps[k - 1];
    }
  }

  /**
   Send a page that is neither BOS nor EOS a second time before the next of its bitstream. The report is
   one step back in the numbering, at the copy.
   */
  lemma RepeatIsNamed(a: seq<Page>, p: Page, b: seq<Page>, rest: seq<Page>, before: seq<Page>)
    requires before == a + [p] + b && AllWellFormed(before + rest) && Clean(AllBytes(before + rest))
    requires !IsFirst(p) && !IsLast(p) && !Occurs(b, p.serial)
    ensures Issues(AllBytes(before + [p] + rest))
         == [Issue(SequenceRegression, TotalSize(before), Some(|before|), Some(p.serial))]
  {
    var all := before + [p] + rest;
    CleanPages(AllBytes(before + rest), before + rest);
    RunIsPhysical(before + rest);
    RunPrefix(before, rest);
    StillData(a, b, p);
    CopyChecked(before, p, rest, TotalSize(before));
    CopyFits(a, p, b, rest, before);
    var (st, found) := CheckAll(CheckPage, START, all, 0);
    ReportOf(all, st, found);
  }
}
