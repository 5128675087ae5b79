/** The validator's walk over bytes decides the page grammar. */
module Decision {
  import opened Bytes
  import opened Crc
  import opened Pages
  import opened Segments
  import opened Validation
  import opened Grammar

  // ----- the models hold what the grammar needs to know -----

  function ModelOf(q: seq<Page>): StreamModel
    requires q != []
  {
    var last := q[|q| - 1];
    StreamModel(last.seqNo, LastGranule(q), EndsOpen(last.lacing), IsLast(last), false, false)
  }

  function BosCount(ps: seq<Page>): nat
  {
    if ps == [] then 0 else BosCount(ps[..|ps| - 1]) + if IsFirst(ps[|ps| - 1]) then 1 else 0
  }

  /** What the walk remembers of the stream `s`, whose pages so far are `q`. */
  ghost predicate Remembers(live: map<u32, StreamModel>, finished: set<u32>, s: u32, q: seq<Page>)
  {
    && (s in live ==> q != [] && live[s] == ModelOf(q))
    && (s in finished ==> Closed(q))
    && (q != [] ==> s in live || s in finished)
  }

  /** Each model is that of its stream's pages; retired serials belong to ended streams. */
  ghost predicate Models(live: map<u32, StreamModel>, finished: set<u32>, ps: seq<Page>)
  {
    forall s :: Remembers(live, finished, s, Proj(ps, s))
  }

  /** The state after an issue-free walk over `ps`. */
  ghost predicate Tracks(st: State, ps: seq<Page>)
  {
    && st.pages == |ps|
    && st.links == |Links(ps)|
    && st.streams == Min(BosCount(ps), TWO32 - 1)
    && st.linkHasData == DataBegun(ps)
    && Models(st.live, st.finished, ps)
  }

  predicate TailRule(q: seq<Page>, p: Page)
  {
    && (p.lacing != [] ==> (p.granule == -1 <==> !Completes(p.lacing)))
    && (Completes(p.lacing) && LastGranule(q).Some? ==> LastGranule(q).value <= p.granule)
    && (IsLast(p) ==> !EndsOpen(p.lacing))
  }

  lemma FinishMeaning(q: seq<Page>, p: Page, m: StreamModel, at: nat, index: nat)
    requires m.lastGranule == LastGranule(q) && !m.eos && !m.afterEosReported && !m.tainted && m.lastSeq == p.seqNo
    ensures var (m', issues) := FinishPage(Raw(at, 0, p), m, index);
            m' == ModelOf(q + [p]) && (issues == [] <==> TailRule(q, p))
  {
    UnSnoc(q, p);
    assert Completes(p.lacing) ==> p.lacing != [];
  }

  lemma LinksSnoc(ps: seq<Page>, p: Page)
    ensures |Links(ps + [p])| == |Links(ps)| + if OpensLink(ps, p) then 1 else 0
    ensures BosCount(ps + [p]) == BosCount(ps) + if IsFirst(p) then 1 else 0
  {
    UnSnoc(ps, p);
  }

  lemma EndedMeansClosed(live: map<u32, StreamModel>, finished: set<u32>, ps: seq<Page>)
    requires Models(live, finished, ps)
    ensures AllEnded(live) <==> AllClosed(ps)
  {
    if AllEnded(live) {
      forall s | Proj(ps, s) != []
        ensures Closed(Proj(ps, s))
      {
        assert Remembers(live, finished, s, Proj(ps, s));
      }
    } else {
      var s :| s in live && !live[s].eos;
      assert Remembers(live, finished, s, Proj(ps, s));
      assert Proj(ps, s) != [] && !Closed(Proj(ps, s));
    }
  }

  lemma BosVerdict(st: State, ps: seq<Page>, p: Page, at: nat)
    requires Tracks(st, ps) && IsFirst(p)
    ensures CheckPage(st, Raw(at, 0, p)).1 == [] <==> Accepts(ps, p)
  {
    FinishMeaning([], p, NewModel(Raw(at, 0, p)), at, st.pages);
    EndedMeansClosed(st.live, st.finished, ps);
    assert Remembers(st.live, st.finished, p.serial, Proj(ps, p.serial));
    assert LinkRule(ps, p) == (DataBegun(ps) ==> AllClosed(ps));
  }

  lemma ModelsAfterBos(live: map<u32, StreamModel>, finished: set<u32>, ps: seq<Page>, p: Page)
    requires Models(live, finished, ps) && Proj(ps, p.serial) == []
    ensures Models(live[p.serial := ModelOf([p])], finished, ps + [p])
    ensures AllEnded(live) ==> Models(map[p.serial := ModelOf([p])], finished + live.Keys, ps + [p])
  {
    forall s
      ensures Remembers(live[p.serial := ModelOf([p])], finished, s, Proj(ps + [p], s))
      ensures AllEnded(live) ==> Remembers(map[p.serial := ModelOf([p])], finished + live.Keys, s, Proj(ps + [p], s))
    {
      ProjSnoc(ps, p, s);
      assert Remembers(live, finished, s, Proj(ps, s));
      RemembersBos(live, finished, s, Proj(ps, s), p);
    }
  }

  lemma RemembersBos(live: map<u32, StreamModel>, finished: set<u32>, s: u32, q: seq<Page>, p: Page)
    requires Remembers(live, finished, s, q) && (s == p.serial ==> q == [])
    ensures var q' := q + if p.serial == s then [p] else [];
            && Remembers(live[p.serial := ModelOf([p])], finished, s, q')
            && (AllEnded(live) ==> Remembers(map[p.serial := ModelOf([p])], finished + live.Keys, s, q'))
  {
    assert [] + [p] == [p] && q + [] == q;
  }

  lemma ModelsAfterData(live: map<u32, StreamModel>, finished: set<u32>, ps: seq<Page>, p: Page)
    requires Models(live, finished, ps) && p.serial in live && p.serial !in finished
    ensures Models(live[p.serial := ModelOf(Proj(ps, p.serial) + [p])], finished, ps + [p])
  {
    forall s
      ensures Remembers(live[p.serial := ModelOf(Proj(ps, p.serial) + [p])], finished, s, Proj(ps + [p], s))
    {
      ProjSnoc(ps, p, s);
      assert Remembers(live, finished, s, Proj(ps, s));
      assert Proj(ps, s) + [] == Proj(ps, s);
    }
  }

  /** What an accepted BOS page leaves behind. */
  lemma AfterBos(st: State, ps: seq<Page>, p: Page, at: nat)
    requires Tracks(st, ps) && IsFirst(p) && Accepts(ps, p)
    ensures var r := CheckPage(st, Raw(at, 0, p)).0;
            var opens := OpensLink(ps, p);
            && r.pages == |ps| + 1 && r.links == |Links(ps)| + (if opens then 1 else 0)
            && r.streams == SaturatingInc(st.streams) && !r.linkHasData
            && r.live == (if DataBegun(ps) then map[] else st.live)[p.serial := ModelOf([p])]
            && r.finished == (if DataBegun(ps) then st.finished + st.live.Keys else st.finished)
            && (DataBegun(ps) ==> AllEnded(st.live))
  {
    FinishMeaning([], p, NewModel(Raw(at, 0, p)), at, st.pages);
    assert [] + [p] == [p];
    EndedMeansClosed(st.live, st.finished, ps);
    assert Remembers(st.live, st.finished, p.serial, Proj(ps, p.serial));
  }

  lemma BosTracks(st: State, ps: seq<Page>, p: Page, at: nat)
    requires Tracks(st, ps) && IsFirst(p) && Accepts(ps, p)
    ensures Tracks(CheckPage(st, Raw(at, 0, p)).0, ps + [p])
  {
    AfterBos(st, ps, p, at);
    LinksSnoc(ps, p);
    ModelsAfterBos(st.live, st.finished, ps, p);
    UnSnoc(ps, p);
  }

  lemma DataVerdict(st: State, ps: seq<Page>, p: Page, at: nat)
    requires Tracks(st, ps) && !IsFirst(p)
    ensures CheckPage(st, Raw(at, 0, p)).1 == [] <==> Accepts(ps, p)
  {
    var q := Proj(ps, p.serial);
    assert Remembers(st.live, st.finished, p.serial, q);
    if p.serial in st.live {
      var m := st.live[p.serial];
      if !m.eos && p.seqNo == NextU32(m.lastSeq) {
        FinishMeaning(q, p, m.(lastSeq := p.seqNo), at, st.pages);
      }
    }
  }

  /** What an accepted data page leaves behind. */
  lemma AfterData(st: State, ps: seq<Page>, p: Page, at: nat)
    requires Tracks(st, ps) && !IsFirst(p) && Accepts(ps, p)
    ensures p.serial in st.live && p.serial !in st.finished
    ensures CheckPage(st, Raw(at, 0, p)).0
         == st.(pages := st.pages + 1, linkHasData := true,
                live := st.live[p.serial := ModelOf(Proj(ps, p.serial) + [p])])
  {
    var q := Proj(ps, p.serial);
    assert Remembers(st.live, st.finished, p.serial, q);
    FinishMeaning(q, p, st.live[p.serial].(lastSeq := p.seqNo), at, st.pages);
    assert ps != [];
  }

  lemma DataTracks(st: State, ps: seq<Page>, p: Page, at: nat)
    requires Tracks(st, ps) && !IsFirst(p) && Accepts(ps, p)
    ensures Tracks(CheckPage(st, Raw(at, 0, p)).0, ps + [p])
  {
    AfterData(st, ps, p, at);
    LinksSnoc(ps, p);
    ModelsAfterData(st.live, st.finished, ps, p);
    UnSnoc(ps, p);
    assert !OpensLink(ps, p);
  }

  lemma StepDecides(st: State, ps: seq<Page>, p: Page, at: nat)
    requires Tracks(st, ps)
    ensures CheckPage(st, Raw(at, 0, p)).1 == [] <==> Accepts(ps, p)
    ensures Accepts(ps, p) ==> Tracks(CheckPage(st, Raw(at, 0, p)).0, ps + [p])
  {
    if IsFirst(p) {
      BosVerdict(st, ps, p, at);
      if Accepts(ps, p) {
        BosTracks(st, ps, p, at);
      }
    } else {
      DataVerdict(st, ps, p, at);
      if Accepts(ps, p) {
        DataTracks(st, ps, p, at);
      }
    }
  }

  // ----- a run of pages -----

  /** Check the pages `ps` in order, the first of which lies at offset `at`. */
  function CheckAll(check: Checker, st: State, ps: seq<Page>, at: nat): (State, seq<Issue>)
    decreases |ps|
  {
    if ps == [] then (st, [])
    else
      var step := check(st, Raw(at, 0, ps[0]));
      var rest := CheckAll(check, step.0, ps[1..], at + Size(ps[0]));
      (rest.0, step.1 + rest.1)
  }

  /** `inv` holds of the state as long as `good` holds of the pages, and issues tell when it stops. */
  ghost predicate Steps(check: Checker, inv: (State, seq<Page>) -> bool, good: seq<Page> -> bool)
  {
    forall st, ps, p, at: nat {:trigger check(st, Raw(at, 0, p)), inv(st, ps)} :: inv(st, ps) && good(ps) ==>
      && (check(st, Raw(at, 0, p)).1 == [] <==> good(ps + [p]))
      && (good(ps + [p]) ==> inv(check(st, Raw(at, 0, p)).0, ps + [p]))
  }

  ghost predicate PrefixClosed(good: seq<Page> -> bool)
  {
    forall a, b {:trigger good(a + b)} :: good(a + b) ==> good(a)
  }

  lemma CheckPageSteps()
    ensures Steps(CheckPage, Tracks, Conforms) && PrefixClosed(Conforms)
  {
    forall st, ps, p, at: nat | Tracks(st, ps) && Conforms(ps)
      ensures CheckPage(st, Raw(at, 0, p)).1 == [] <==> Conforms(ps + [p])
      ensures Conforms(ps + [p]) ==> Tracks(CheckPage(st, Raw(at, 0, p)).0, ps + [p])
    {
      StepDecides(st, ps, p, at);
      ConformsSnoc(ps, p);
    }
    forall a, b | Conforms(a + b)
      ensures Conforms(a)
    {
      RunPrefix(a, b);
    }
  }

  lemma {:induction false} RunPrefix(a: seq<Page>, b: seq<Page>)
    requires Conforms(a + b)
    ensures Conforms(a)
  {
    if b == [] {
      assert a + b == a;
    } else {
      ConcatFront(a, b);
      RunPrefix(a, b[..|b| - 1]);
    }
  }

  lemma {:induction false} CheckAllDecides(check: Checker, inv: (State, seq<Page>) -> bool, good: seq<Page> -> bool,
                                            st: State, done: seq<Page>, ps: seq<Page>, at: nat)
    requires Steps(check, inv, good) && PrefixClosed(good) && inv(st, done) && good(done)
    ensures CheckAll(check, st, ps, at).1 == [] <==> good(done + ps)
    ensures good(done + ps) ==> inv(CheckAll(check, st, ps, at).0, done + ps)
    decreases |ps|
  {
    if ps == [] {
      assert done + ps == done;
    } else {
      var p := ps[0];
      var step := check(st, Raw(at, 0, p));
      assert done + ps == (done + [p]) + ps[1..];
      if good(done + [p]) {
        CheckAllDecides(check, inv, good, step.0, done + [p], ps[1..], at + Size(p));
      }
    }
  }

  lemma StartTracks()
    ensures Tracks(START, []) && Conforms([])
  {}

  // ----- from bytes to pages -----

  /** From `pos` on, the input reads as the pages `ps`. */
  predicate ReadsAs(scan: Scan, pos: nat, ps: seq<Page>)
    decreases |ps|
  {
    ps == [] ||
    (&& pos < |scan| - 1
     && scan[pos] == Accepted(Raw(pos, 0, ps[0]), pos + Size(ps[0]))
     && ReadsAs(scan, pos + Size(ps[0]), ps[1..]))
  }

  lemma ReadPage(data: seq<byte>, pos: nat, p: Page, rest: seq<byte>)
    requires WellFormed(p) && pos <= |data| && data[pos..] == ToBytes(p) + rest
    ensures ReadAt(data, pos) == Accepted(Raw(pos, 0, p), pos + Size(p))
    ensures data[pos + Size(p)..] == rest
  {
    ParseOfToBytes(p, rest);
    ImageFields(p, Checksum(Image(p, 0)), rest);
    assert data[pos + Size(p)..] == data[pos..][Size(p)..];
  }

  lemma ReadFirst(data: seq<byte>, pos: nat, p: Page, tail: seq<Page>, rest: seq<byte>, next: nat)
    requires WellFormed(p) && pos <= |data| && data[pos..] == AllBytes([p] + tail) + rest && next == pos + Size(p)
    ensures pos < |data| && ReadAt(data, pos) == Accepted(Raw(pos, 0, p), next)
    ensures next <= |data| && data[next..] == AllBytes(tail) + rest
  {
    assert ([p] + tail)[1..] == tail;
    Assoc(ToBytes(p), AllBytes(tail), rest);
    ReadPage(data, pos, p, AllBytes(tail) + rest);
  }

  lemma ReadsAsFirst(scan: Scan, pos: nat, next: nat, p: Page, tail: seq<Page>, ps: seq<Page>)
    requires ps == [p] + tail && pos < |scan| - 1 && next == pos + Size(p)
    requires scan[pos] == Accepted(Raw(pos, 0, p), next) && ReadsAs(scan, next, tail)
    ensures ReadsAs(scan, pos, ps)
  {
    assert ps[0] == p && ps[1..] == tail;
  }

  lemma ReadsAsOnward(data: seq<byte>, scan: Scan, pos: nat, p: Page, tail: seq<Page>, ps: seq<Page>, rest: seq<byte>,
          next: nat)
    requires ps == [p] + tail && WellFormed(p) && pos <= |data| && data[pos..] == AllBytes(ps) + rest
    requires scan == ScanOf(data) && next == pos + Size(p)
    ensures next <= |data| && data[next..] == AllBytes(tail) + rest
    ensures ReadsAs(scan, next, tail) ==> ReadsAs(scan, pos, ps)
  {
    ReadFirst(data, pos, p, tail, rest, next);
    if ReadsAs(scan, next, tail) {
      ReadsAsFirst(scan, pos, next, p, tail, ps);
    }
  }

  lemma TotalOnward(p: Page, tail: seq<Page>, ps: seq<Page>)
    requires ps == [p] + tail
    ensures TotalSize(ps) == Size(p) + TotalSize(tail) && (AllWellFormed(ps) ==> WellFormed(p) && AllWellFormed(tail))
  {
    assert ps[0] == p && ps[1..] == tail;
  }

  lemma {:induction false} ReadPagesTo(data: seq<byte>, scan: Scan, pos: nat, ps: seq<Page>, rest: seq<byte>, end: nat)
    requires AllWellFormed(ps) && pos <= |data| && data[pos..] == AllBytes(ps) + rest
    requires scan == ScanOf(data) && end == pos + TotalSize(ps)
    ensures end <= |data| && data[end..] == rest && ReadsAs(scan, pos, ps)
    decreases |ps|
  {
    if ps == [] {
      PlusNil(rest);
    } else {
      var p, tail := ps[0], ps[1..];
      var next := pos + Size(p);
      TotalOnward(p, tail, ps);
      ReadsAsOnward(data, scan, pos, p, tail, ps, rest, next);
      ReadPagesTo(data, scan, next, tail, rest, end);
    }
  }

  lemma ReadPages(data: seq<byte>, pos: nat, ps: seq<Page>, rest: seq<byte>)
    requires AllWellFormed(ps) && pos <= |data| && data[pos..] == AllBytes(ps) + rest
    ensures pos + TotalSize(ps) <= |data| && data[pos + TotalSize(ps)..] == rest
    ensures ReadsAs(ScanOf(data), pos, ps)
  {
    ReadPagesTo(data, ScanOf(data), pos, ps, rest, pos + TotalSize(ps));
  }

  lemma ReadIsParse(data: seq<byte>, pos: nat, rest: seq<byte>)
    requires pos <= |data| && rest == data[pos..]
    requires ReadAt(data, pos).Accepted? && ReadAt(data, pos).page.version == 0
    ensures ExtentOf(rest).Complete? && Parse(rest) == Ok((PageOf(rest), ExtentOf(rest).total))
    ensures ReadAt(data, pos) == Accepted(Raw(pos, 0, PageOf(rest)), pos + ExtentOf(rest).total)
  {}

  lemma SplitAfter<T>(data: seq<T>, pos: nat, n: nat, next: nat)
    requires next == pos + n <= |data|
    ensures data[pos..] == data[pos..][..n] + data[next..]
  {}

  lemma ReadIsPage(data: seq<byte>, pos: nat)
    requires pos <= |data| && ReadAt(data, pos).Accepted? && ReadAt(data, pos).page.version == 0
    ensures var next := ReadAt(data, pos).next;
            var p := PageOf(data[pos..]);
            && ExtentOf(data[pos..]).Complete? && WellFormed(p)
            && data[pos..] == ToBytes(p) + data[next..]
            && ReadAt(data, pos) == Accepted(Raw(pos, 0, p), pos + Size(p))
  {
    var rest := data[pos..];
    ReadIsParse(data, pos, rest);
    ToBytesOfParse(rest);
    SplitAfter(data, pos, ExtentOf(rest).total, ReadAt(data, pos).next);
  }

  /** Over intact pages the walk is `CheckAll`, and goes on after them. */
  lemma {:induction false} WalkPages(check: Checker, scan: Scan, pos: nat, ps: seq<Page>, st: State)
    requires pos < |scan| && ReadsAs(scan, pos, ps)
    ensures var end := pos + TotalSize(ps);
            var checked := CheckAll(check, st, ps, pos);
            && end < |scan|
            && Walk(check, scan, pos, st)
            == (Walk(check, scan, end, checked.0).0, checked.1 + Walk(check, scan, end, checked.0).1)
    decreases |ps|
  {
    if ps != [] {
      var p := ps[0];
      var step := check(st, Raw(pos, 0, p));
      WalkPages(check, scan, pos + Size(p), ps[1..], step.0);
      var later := CheckAll(check, step.0, ps[1..], pos + Size(p));
      Assoc(step.1, later.1, Walk(check, scan, pos + TotalSize(ps), later.0).1);
    } else {
      var here := Walk(check, scan, pos, st);
      assert [] + here.1 == here.1;
    }
  }

  /** An issue-free walk has met nothing but intact version-0 pages. */
  lemma {:induction false} CleanWalkIsPages(check: Checker, data: seq<byte>, pos: nat, st: State)
    returns (ps: seq<Page>)
    requires pos <= |data| && Walk(check, ScanOf(data), pos, st).1 == []
    ensures AllWellFormed(ps) && data[pos..] == AllBytes(ps)
    decreases |data| - pos
  {
    if pos == |data| {
      ps := [];
    } else {
      var r := ScanOf(data)[pos];
      assert r.Accepted? && r.page.version == 0;
      ReadIsPage(data, pos);
      var tail := CleanWalkIsPages(check, data, r.next, check(st, r.page).0);
      var p := PageOf(data[pos..]);
      ps := [p] + tail;
      assert ps[1..] == tail;
    }
  }

  lemma WalkToEnd(check: Checker, scan: Scan, pos: nat, ps: seq<Page>, st: State)
    requires pos < |scan| && ReadsAs(scan, pos, ps) && pos + TotalSize(ps) == |scan| - 1
    ensures Walk(check, scan, pos, st) == CheckAll(check, st, ps, pos)
  {
    WalkPages(check, scan, pos, ps, st);
    var r := CheckAll(check, st, ps, pos);
    assert r.1 + [] == r.1;
  }

  lemma WalkOfPages(check: Checker, data: seq<byte>, ps: seq<Page>)
    requires AllWellFormed(ps) && AllBytes(ps) == data
    ensures Walk(check, ScanOf(data), 0, START) == CheckAll(check, START, ps, 0)
    ensures data == [] <==> ps == []
  {
    assert data[0..] == AllBytes(ps) + [];
    ReadPages(data, 0, ps, []);
    WalkToEnd(check, ScanOf(data), 0, ps, START);
  }

  lemma UnclosedMeaning(st: State, ps: seq<Page>)
    requires Tracks(st, ps)
    ensures Unclosed(st.live) == {} <==> AllClosed(ps)
  {
    EndedMeansClosed(st.live, st.finished, ps);
    if Unclosed(st.live) == {} {
      forall s | s in st.live
        ensures st.live[s].eos
      {
        assert s !in Unclosed(st.live);
      }
    }
  }

  lemma CleanPages(data: seq<byte>, ps: seq<Page>)
    requires AllWellFormed(ps) && AllBytes(ps) == data
    ensures Clean(data) <==> Physical(ps)
    ensures Clean(data) ==> Tracks(Walk(CheckPage, ScanOf(data), 0, START).0, ps)
  {
    WalkOfPages(CheckPage, data, ps);
    CheckPageSteps();
    StartTracks();
    CheckAllDecides(CheckPage, Tracks, Conforms, START, [], ps, 0);
    assert [] + ps == ps;
    CleanMeaning(data);
    RunIsPhysical(ps);
    if Conforms(ps) {
      UnclosedMeaning(CheckAll(CheckPage, START, ps, 0).0, ps);
    }
  }

  /**
   The validator decides the grammar: no issue at all exactly for the concatenations of
   intact version-0 pages that form a physical bitstream.
   */
  lemma ValidatorDecidesGrammar(data: seq<byte>)
    ensures Clean(data) <==> exists ps :: AllWellFormed(ps) && AllBytes(ps) == data && Physical(ps)
  {
    if Clean(data) {
      CleanMeaning(data);
      var ps := CleanWalkIsPages(CheckPage, data, 0, START);
      assert data[0..] == data;
      CleanPages(data, ps);
    }
    if ps :| AllWellFormed(ps) && AllBytes(ps) == data && Physical(ps) {
      CleanPages(data, ps);
    }
  }

  /** On a clean file the totals are those of its pages: every page, link and BOS page counted once. */
  lemma CleanTotals(ps: seq<Page>)
    requires AllWellFormed(ps) && Physical(ps)
    ensures Clean(AllBytes(ps))
    ensures var st := Walk(CheckPage, ScanOf(AllBytes(ps)), 0, START).0;
            && st.pages == |ps| && st.links == |Links(ps)| && st.streams == Min(BosCount(ps), TWO32 - 1)
  {
    CleanPages(AllBytes(ps), ps);
  }
}
