/**
 Damage is localised: a short burst in the body of one page of a clean file costs exactly one
 issue, because the validator re-baselines the stream at its next page.
 */
module Damage {
  import opened Bytes
  import opened Crc
  import opened Pages
  import opened Validation
  import opened Grammar
  import opened Decision

  // ----- the state after the damage against the state without it -----

  predicate NoLater(a: Option<i64>, b: Option<i64>)
  {
    a.None? || (b.Some? && a.value <= b.value)
  }

  /** The same model, except that it may remember an earlier granule. */
  predicate Lags(d: StreamModel, c: StreamModel)
  {
    d.(lastGranule := c.lastGranule) == c && NoLater(d.lastGranule, c.lastGranule)
  }

  /** Same totals, one page short. */
  predicate SameTotals(d: State, c: State)
  {
    d.pages > 0 && d.(pages := c.pages, live := c.live, linkHasData := c.linkHasData) == c
  }

  /** Before the damaged stream's next page: its model is tainted, and it keeps the link open. */
  predicate Pending(d: State, c: State, s: u32)
  {
    && SameTotals(d, c) && c.linkHasData && c.pages > 0
    && s in c.live && s in d.live
    && !c.live[s].eos && !d.live[s].eos && !d.live[s].afterEosReported && !c.live[s].afterEosReported
    && !c.live[s].tainted
    && d.live[s].tainted
    && NoLater(d.live[s].lastGranule, c.live[s].lastGranule)
    && d.live[s := c.live[s]] == c.live
  }

  /** After it: every model agrees up to an earlier remembered granule. */
  predicate Recovered(d: State, c: State)
  {
    && SameTotals(d, c) && d.linkHasData == c.linkHasData && c.pages > 0
    && d.live.Keys == c.live.Keys
    && forall x :: x in c.live ==> Lags(d.live[x], c.live[x])
  }

  lemma FinishLags(page: RawPage, d: StreamModel, c: StreamModel, i: nat, j: nat)
    requires Lags(d, c) && FinishPage(page, c, j).1 == []
    ensures FinishPage(page, d, i).1 == [] && Lags(FinishPage(page, d, i).0, FinishPage(page, c, j).0)
  {}

  lemma NextLags(page: RawPage, d: StreamModel, c: StreamModel, i: nat, j: nat)
    requires Lags(d, c) && CheckNext(c, page, j).1 == []
    ensures CheckNext(d, page, i).1 == [] && Lags(CheckNext(d, page, i).0, CheckNext(c, page, j).0)
  {
    if !c.tainted && page.seqNo == NextU32(c.lastSeq) {
      FinishLags(page, d.(lastSeq := page.seqNo), c.(lastSeq := page.seqNo), i, j);
    }
  }

  lemma RecoveredBos(page: RawPage, d: State, c: State)
    requires Recovered(d, c) && HasFirst(page.flags) && CheckPage(c, page).1 == []
    ensures CheckPage(d, page).1 == [] && Recovered(CheckPage(d, page).0, CheckPage(c, page).0)
  {
    assert AllEnded(d.live) == AllEnded(c.live) by {
      if !AllEnded(c.live) {
        var x :| x in c.live && !c.live[x].eos;
        assert Lags(d.live[x], c.live[x]);
      } else {
        forall x | x in d.live
          ensures d.live[x].eos
        {
          assert Lags(d.live[x], c.live[x]);
        }
      }
    }
    assert StillLive(d, page.serial) == StillLive(c, page.serial);
    FinishLags(page, NewModel(page), NewModel(page), d.pages, c.pages);
  }

  lemma RecoveredData(page: RawPage, d: State, c: State)
    requires Recovered(d, c) && !HasFirst(page.flags) && CheckPage(c, page).1 == []
    ensures CheckPage(d, page).1 == [] && Recovered(CheckPage(d, page).0, CheckPage(c, page).0)
  {
    if page.serial in c.live {
      assert Lags(d.live[page.serial], c.live[page.serial]);
      if !c.live[page.serial].eos {
        NextLags(page, d.live[page.serial], c.live[page.serial], d.pages, c.pages);
      }
    }
  }

  /** While the damaged stream is open no BOS page can be clean. */
  lemma PendingIsData(page: RawPage, d: State, c: State, s: u32)
    requires Pending(d, c, s) && CheckPage(c, page).1 == []
    ensures !HasFirst(page.flags)
  {
    assert !AllEnded(c.live);
  }

  lemma PendingStep(page: RawPage, d: State, c: State, s: u32)
    requires Pending(d, c, s) && CheckPage(c, page).1 == [] && !HasFirst(page.flags)
    ensures CheckPage(d, page).1 == []
    ensures var d', c' := CheckPage(d, page).0, CheckPage(c, page).0;
            if page.serial == s then Recovered(d', c') else Pending(d', c', s)
  {
    if page.serial == s {
      var m := c.live[s];
      assert page.seqNo == NextU32(m.lastSeq);
      var c' := CheckPage(c, page).0;
      assert Lags(Rebaseline(d.live[s], page), CheckNext(m, page, c.pages).0);
      forall x | x in c'.live
        ensures Lags(CheckPage(d, page).0.live[x], c'.live[x])
      {
        if x != s {
          assert d.live[s := c.live[s]][x] == c.live[x];
        }
      }
      assert d.live.Keys == d.live[s := c.live[s]].Keys;
    } else {
      assert d.live[s := c.live[s]].Keys == d.live.Keys;
      assert page.serial in c.live;
      assert d.live[page.serial] == c.live[page.serial];
    }
  }

  // ----- over the rest of the file -----

  ghost predicate Simulates(check: Checker, rel: (State, State) -> bool)
  {
    forall d, c, page :: rel(d, c) && check(c, page).1 == [] ==>
      check(d, page).1 == [] && rel(check(d, page).0, check(c, page).0)
  }

  lemma {:induction false} CheckAllSimulates(check: Checker, rel: (State, State) -> bool, d: State, c: State,
          ps: seq<Page>, at: nat)
    requires Simulates(check, rel) && rel(d, c) && CheckAll(check, c, ps, at).1 == []
    ensures CheckAll(check, d, ps, at).1 == []
    ensures rel(CheckAll(check, d, ps, at).0, CheckAll(check, c, ps, at).0)
    decreases |ps|
  {
    if ps != [] {
      var page := Raw(at, 0, ps[0]);
      assert check(c, page).1 == [];
      CheckAllSimulates(check, rel, check(d, page).0, check(c, page).0, ps[1..], at + Size(ps[0]));
    }
  }

  /** How the walk after the damage relates to the walk without it. */
  ghost function Rel(s: u32): (State, State) -> bool { (d: State, c: State) => Pending(d, c, s) || Recovered(d, c) }

  lemma DamageSimulates(s: u32)
    ensures Simulates(CheckPage, Rel(s))
  {
    forall d, c, page | (Pending(d, c, s) || Recovered(d, c)) && CheckPage(c, page).1 == []
      ensures CheckPage(d, page).1 == []
      ensures || Pending(CheckPage(d, page).0, CheckPage(c, page).0, s)
              || Recovered(CheckPage(d, page).0, CheckPage(c, page).0)
    {
      if Recovered(d, c) {
        if HasFirst(page.flags) {
          RecoveredBos(page, d, c);
        } else {
          RecoveredData(page, d, c);
        }
      } else {
        PendingIsData(page, d, c, s);
        PendingStep(page, d, c, s);
      }
    }
  }

  /** Skipping a page that is neither BOS nor EOS, and tainting its stream, leaves the walk pending. */
  lemma TaintIsPending(st: State, ps: seq<Page>, p: Page, at: nat)
    requires Tracks(st, ps) && Accepts(ps, p) && !IsFirst(p) && !IsLast(p)
    ensures Rel(p.serial)(Taint(st, p.serial), CheckPage(st, Raw(at, 0, p)).0)
  {
    AfterData(st, ps, p, at);
    var q := Proj(ps, p.serial);
    assert Remembers(st.live, st.finished, p.serial, q);
    UnSnoc(q, p);
    assert ps != [];
    var c := CheckPage(st, Raw(at, 0, p)).0;
    assert c.live == st.live[p.serial := ModelOf(q + [p])];
  }

  lemma RecoveredCloses(d: State, c: State, s: u32)
    requires Rel(s)(d, c) && Unclosed(c.live) == {}
    ensures Unclosed(d.live) == {}
  {
    forall x | x in c.live
      ensures c.live[x].eos
    {
      assert x !in Unclosed(c.live);
    }
    forall x | x in d.live
      ensures d.live[x].eos
    {
      assert Lags(d.live[x], c.live[x]);
    }
  }

  // ----- the damaged bytes -----

  /** `bad` is the page `p` with some body bytes of one four-byte window altered. */
  predicate Burst(p: Page, bad: seq<byte>, at: nat)
  {
    && DifferWithin(ToBytes(p), bad, at)
    && bad[..HEADER_LEN + |p.lacing|] == ToBytes(p)[..HEADER_LEN + |p.lacing|]
  }

  /** A complete page whose checksum is wrong reads as damaged. */
  lemma WrongSumIsDamage(data: seq<byte>, pos: nat, b: seq<byte>, h: nat, n: nat)
    requires pos <= |data| && b == data[pos..] && |b| >= 4 && b[..4] == CAPTURE && ExtentOf(b) == Complete(h, n)
    requires PageChecksum(b[..n]) != StoredCrc(b)
    ensures ReadAt(data, pos) == Damaged(ReadU32(b[14..18]), n)
  {}

  lemma GoodPage(p: Page, good: seq<byte>)
    requires WellFormed(p) && good == ToBytes(p)
    ensures |good| == Size(p) && ExtentOf(good) == Complete(HEADER_LEN + |p.lacing|, |good|)
    ensures good[..4] == CAPTURE && ReadU32(good[14..18]) == p.serial && PageChecksum(good) == StoredCrc(good)
  {
    ImageFields(p, Checksum(Image(p, 0)), []);
    PlusNil(good);
    ToBytesChecksum(p);
  }

  lemma SameHeader(good: seq<byte>, bad: seq<byte>, h: nat, rest: seq<byte>)
    requires ExtentOf(good) == Complete(h, |good|) && |bad| == |good| && bad[..h] == good[..h]
    ensures var b := bad + rest;
            && b[..4] == good[..4] && b[4] == good[4] && b[14..18] == good[14..18]
            && ExtentOf(b) == Complete(h, |good|) && StoredCrc(b) == StoredCrc(good)
  {
    var b := bad + rest;
    assert b[..h] == good[..h];
    assert b[26] == b[..h][26] && good[26] == good[..h][26] && b[4] == b[..h][4] && good[4] == good[..h][4];
    assert b[..4] == b[..h][..4] && good[..4] == good[..h][..4];
    assert b[14..18] == b[..h][14..18] && good[14..18] == good[..h][14..18];
    assert b[22..26] == b[..h][22..26] && good[22..26] == good[..h][22..26];
    assert b[HEADER_LEN..h] == b[..h][HEADER_LEN..] && good[HEADER_LEN..h] == good[..h][HEADER_LEN..];
  }

  lemma SameField(good: seq<byte>, bad: seq<byte>, h: nat)
    requires 26 <= h <= |good| == |bad| && bad[..h] == good[..h]
    ensures bad[22..26] == good[22..26]
  {
    assert good[22..26] == good[..h][22..26] && bad[22..26] == bad[..h][22..26];
  }

  lemma TakeFront<T>(a: seq<T>, b: seq<T>)
    ensures (a + b)[..|a|] == a
  {}

  lemma ReadDamaged(data: seq<byte>, pos: nat, p: Page, bad: seq<byte>, at: nat, rest: seq<byte>)
    requires WellFormed(p) && Burst(p, bad, at) && pos <= |data| && data[pos..] == bad + rest
    ensures ReadAt(data, pos) == Damaged(p.serial, Size(p))
  {
    var good := ToBytes(p);
    var h := HEADER_LEN + |p.lacing|;
    GoodPage(p, good);
    SameField(good, bad, h);
    BurstIsDetected(good, bad, at);
    SameHeader(good, bad, h, rest);
    TakeFront(bad, rest);
    WrongSumIsDamage(data, pos, bad + rest, h, |good|);
  }

  /** The parser sees the burst as well, and tells it from any other fault. */
  lemma BurstIsMismatch(p: Page, bad: seq<byte>, at: nat, rest: seq<byte>)
    requires WellFormed(p) && Burst(p, bad, at)
    ensures Parse(bad + rest) == Err(CrcMismatch)
  {
    var good := ToBytes(p);
    var h := HEADER_LEN + |p.lacing|;
    GoodPage(p, good);
    SameField(good, bad, h);
    BurstIsDetected(good, bad, at);
    SameHeader(good, bad, h, rest);
    TakeFront(bad, rest);
    ImageFields(p, Checksum(Image(p, 0)), []);
    PlusNil(good);
  }

  lemma {:induction false} NextValidIs(scan: Scan, from: nat, n: nat)
    requires from <= n && n + 4 <= |scan| - 1 && scan[n].Accepted?
    requires forall i :: from <= i < n ==> !scan[i].Accepted?
    ensures NextValid(scan, from) == Some(n)
    decreases n - from
  {
    if from < n {
      NextValidIs(scan, from + 1, n);
    }
  }

  // ----- the theorem -----

  /** Where page `k` starts in the file, and where it ends. */
  function PageStart(ps: seq<Page>, k: nat): nat
    requires k < |ps|
  {
    TotalSize(ps[..k])
  }

  function PageEnd(ps: seq<Page>, k: nat): nat
    requires k < |ps|
  {
    TotalSize(ps[..k]) + Size(ps[k])
  }

  /** The file `ps` with the bytes of page `k` replaced by `bad`. */
  function Overwritten(ps: seq<Page>, k: nat, bad: seq<byte>): seq<byte>
    requires k < |ps|
  {
    AllBytes(ps[..k]) + (bad + AllBytes(ps[k + 1..]))
  }

  /** A run of good pages, seen from page `k`: the state before it and at the end. */
  lemma GoodWalkAround(check: Checker, inv: (State, seq<Page>) -> bool, good: seq<Page> -> bool, ps: seq<Page>, k: nat,
                       start: nat, next: nat)
    returns (before: State, end: State)
    requires Steps(check, inv, good) && PrefixClosed(good) && inv(START, []) && good([]) && good(ps) && k < |ps|
    requires start == TotalSize(ps[..k]) && next == start + Size(ps[k])
    ensures var step := check(before, Raw(start, 0, ps[k]));
            && CheckAll(check, START, ps[..k], 0) == (before, [])
            && inv(before, ps[..k]) && good(ps[..k] + [ps[k]]) && good(ps[..k]) && step.1 == []
            && CheckAll(check, step.0, ps[k + 1..], next) == (end, [])
            && inv(end, ps)
  {
    var pre, p, post := ps[..k], ps[k], ps[k + 1..];
    assert (pre + [p]) + post == ps;
    assert good((pre + [p]) + post);
    assert [] + pre == pre;
    CheckAllDecides(check, inv, good, START, [], pre, 0);
    before := CheckAll(check, START, pre, 0).0;
    var step := check(before, Raw(start, 0, p));
    CheckAllDecides(check, inv, good, step.0, pre + [p], post, next);
    end := CheckAll(check, step.0, post, next).0;
  }

  lemma StillOpenAfter(ps: seq<Page>, k: nat)
    requires k < |ps| && AllClosed(ps) && !IsLast(ps[k])
    ensures ps[k + 1..] != []
  {
    if ps[k + 1..] == [] {
      var p := ps[k];
      assert ps == ps[..k] + [p];
      ProjSnoc(ps[..k], p, p.serial);
      UnSnoc(Proj(ps[..k], p.serial), p);
    }
  }

  lemma ReadHead(data: seq<byte>, pre: seq<Page>, rest: seq<byte>)
    requires AllWellFormed(pre) && data == AllBytes(pre) + rest
    ensures TotalSize(pre) <= |data| && data[TotalSize(pre)..] == rest && ReadsAs(ScanOf(data), 0, pre)
  {
    assert data[0..] == data;
    ReadPages(data, 0, pre, rest);
  }

  lemma ReadTail(data: seq<byte>, start: nat, bad: seq<byte>, post: seq<Page>, next: nat)
    requires AllWellFormed(post) && start <= |data| && data[start..] == bad + AllBytes(post) && next == start + |bad|
    ensures next + TotalSize(post) == |data| && ReadsAs(ScanOf(data), next, post)
  {
    DropHead(data, start, bad, AllBytes(post));
    PlusNil(AllBytes(post));
    ReadPages(data, next, post, []);
  }

  /** The input reads as `pre`, then damage from `start` to `next` with nothing valid inside, then `post`. */
  predicate DamagedScan(scan: Scan, pre: seq<Page>, start: nat, serial: u32, next: nat, post: seq<Page>)
  {
    && start == TotalSize(pre) < next
    && next + TotalSize(post) == |scan| - 1
    && ReadsAs(scan, 0, pre)
    && scan[start].Damaged? && scan[start].claimedSerial == serial
    && ReadsAs(scan, next, post)
    && forall i :: start < i < next ==> !scan[i].Accepted?
  }

  lemma WalkOverDamage(check: Checker, scan: Scan, pre: seq<Page>, start: nat, serial: u32, next: nat, post: seq<Page>,
          before: State)
    requires DamagedScan(scan, pre, start, serial, next, post) && post != []
    requires CheckAll(check, START, pre, 0) == (before, [])
    ensures var rest := CheckAll(check, Taint(before, serial), post, next);
            Walk(check, scan, 0, START) == (rest.0, [Issue(BadCrc, start, None, Some(serial))] + rest.1)
  {
    var d := Taint(before, serial);
    WalkPages(check, scan, 0, pre, START);
    PlusNil(Walk(check, scan, start, before).1);
    assert next + Size(post[0]) <= |scan| - 1;
    NextValidIs(scan, start + 1, next);
    ResyncMeaning(check, scan, start, d, Issue(BadCrc, start, None, Some(serial)));
    WalkToEnd(check, scan, next, post, d);
  }

  /** No offset strictly between `start` and `next` starts a valid page. */
  predicate NothingValidInside(data: seq<byte>, start: nat, next: nat)
  {
    forall i :: start < i < next && i <= |data| ==> !ReadAt(data, i).Accepted?
  }

  lemma ScanDamaged(data: seq<byte>, scan: Scan, start: nat, serial: u32, next: nat)
    requires scan == ScanOf(data) && start < next <= |data|
    requires ReadAt(data, start).Damaged? && ReadAt(data, start).claimedSerial == serial
    requires NothingValidInside(data, start, next)
    ensures scan[start].Damaged? && scan[start].claimedSerial == serial
    ensures forall i :: start < i < next ==> !scan[i].Accepted?
  {}

  lemma ReadDamagedFile(data: seq<byte>, pre: seq<Page>, start: nat, p: Page, next: nat, post: seq<Page>,
          bad: seq<byte>, at: nat)
    requires AllWellFormed(pre) && WellFormed(p) && AllWellFormed(post) && Burst(p, bad, at)
    requires data == AllBytes(pre) + (bad + AllBytes(post))
    requires start == TotalSize(pre) && next == start + Size(p)
    requires NothingValidInside(data, start, next)
    ensures DamagedScan(ScanOf(data), pre, start, p.serial, next, post)
  {
    ReadHead(data, pre, bad + AllBytes(post));
    ReadTail(data, start, bad, post, next);
    ReadDamaged(data, start, p, bad, at, AllBytes(post));
    ScanDamaged(data, ScanOf(data), start, p.serial, next);
  }

  /** The clean walk around a page that is neither BOS nor EOS: without the page it is pending. */
  lemma CleanWalkAround(ps: seq<Page>, k: nat, start: nat, next: nat) returns (before: State, after: State, end: State)
    requires Conforms(ps) && AllClosed(ps) && k < |ps| && !IsFirst(ps[k]) && !IsLast(ps[k])
    requires start == TotalSize(ps[..k]) && next == start + Size(ps[k])
    ensures CheckAll(CheckPage, START, ps[..k], 0) == (before, [])
    ensures CheckAll(CheckPage, after, ps[k + 1..], next) == (end, [])
    ensures Rel(ps[k].serial)(Taint(before, ps[k].serial), after)
    ensures Unclosed(end.live) == {}
  {
    CheckPageSteps();
    StartTracks();
    before, end := GoodWalkAround(CheckPage, Tracks, Conforms, ps, k, start, next);
    after := CheckPage(before, Raw(start, 0, ps[k])).0;
    ConformsSnoc(ps[..k], ps[k]);
    TaintIsPending(before, ps[..k], ps[k], start);
    UnclosedMeaning(end, ps);
  }

  /** After the damage the walk reports nothing more, and every stream ends. */
  lemma RestIsClean(s: u32, before: State, after: State, post: seq<Page>, at: nat, end: State)
    requires CheckAll(CheckPage, after, post, at) == (end, [])
    requires Rel(s)(Taint(before, s), after)
    requires Unclosed(end.live) == {}
    ensures var rest := CheckAll(CheckPage, Taint(before, s), post, at);
            rest.1 == [] && Unclosed(rest.0.live) == {}
  {
    DamageSimulates(s);
    CheckAllSimulates(CheckPage, Rel(s), Taint(before, s), after, post, at);
    RecoveredCloses(CheckAll(CheckPage, Taint(before, s), post, at).0, end, s);
  }

  lemma Verdict(scan: Scan, data: seq<byte>, pre: seq<Page>, start: nat, s: u32, next: nat, post: seq<Page>,
                before: State, after: State, end: State)
    requires scan == ScanOf(data) && DamagedScan(scan, pre, start, s, next, post) && post != []
    requires CheckAll(CheckPage, START, pre, 0) == (before, [])
    requires CheckAll(CheckPage, after, post, next) == (end, [])
    requires Rel(s)(Taint(before, s), after) && Unclosed(end.live) == {}
    ensures Issues(data) == [Issue(BadCrc, start, None, Some(s))]
  {
    WalkOverDamage(CheckPage, scan, pre, start, s, next, post, before);
    RestIsClean(s, before, after, post, next, end);
    PlusNil([Issue(BadCrc, start, None, Some(s))]);
    OneIssueOnly(data, Walk(CheckPage, scan, 0, START).0, [Issue(BadCrc, start, None, Some(s))]);
  }

  lemma OneIssueOnly(data: seq<byte>, st: State, found: seq<Issue>)
    requires data != [] && Walk(CheckPage, ScanOf(data), 0, START) == (st, found) && Unclosed(st.live) == {}
    ensures Issues(data) == found
  {
    PlusNil(found);
    assert MissingEosIssues(Ascending({}), |data|) == [];
  }

  lemma DamagedVerdict(data: seq<byte>, ps: seq<Page>, k: nat, start: nat, next: nat)
    requires Conforms(ps) && AllClosed(ps) && k < |ps| && !IsFirst(ps[k]) && !IsLast(ps[k])
    requires start == TotalSize(ps[..k]) && next == start + Size(ps[k])
    requires DamagedScan(ScanOf(data), ps[..k], start, ps[k].serial, next, ps[k + 1..])
    ensures Issues(data) == [Issue(BadCrc, start, None, Some(ps[k].serial))]
  {
    StillOpenAfter(ps, k);
    var before, after, end := CleanWalkAround(ps, k, start, next);
    Verdict(ScanOf(data), data, ps[..k], start, ps[k].serial, next, ps[k + 1..], before, after, end);
  }

  /**
   Altering up to four consecutive body bytes of a page that is neither BOS nor EOS in a clean
   file yields exactly one issue, the checksum mismatch of that page, as long as nothing inside
   the damaged page happens to read as a valid page.
   */
  lemma DamageIsLocalised(ps: seq<Page>, k: nat, bad: seq<byte>, at: nat)
    requires AllWellFormed(ps) && Clean(AllBytes(ps))
    requires k < |ps| && !IsFirst(ps[k]) && !IsLast(ps[k]) && Burst(ps[k], bad, at)
    requires NothingValidInside(Overwritten(ps, k, bad), PageStart(ps, k), PageEnd(ps, k))
    ensures Issues(Overwritten(ps, k, bad)) == [Issue(BadCrc, PageStart(ps, k), None, Some(ps[k].serial))]
  {
    ReadOverwritten(ps, k, bad, at);
    CleanIsConforming(ps);
    DamagedVerdict(Overwritten(ps, k, bad), ps, k, PageStart(ps, k), PageEnd(ps, k));
  }

  lemma ReadOverwritten(ps: seq<Page>, k: nat, bad: seq<byte>, at: nat)
    requires AllWellFormed(ps) && k < |ps| && Burst(ps[k], bad, at)
    requires NothingValidInside(Overwritten(ps, k, bad), PageStart(ps, k), PageEnd(ps, k))
    ensures DamagedScan(ScanOf(Overwritten(ps, k, bad)), ps[..k], PageStart(ps, k), ps[k].serial, PageEnd(ps, k),
                        ps[k + 1..])
  {
    ReadDamagedFile(Overwritten(ps, k, bad), ps[..k], PageStart(ps, k), ps[k], PageEnd(ps, k), ps[k + 1..], bad, at);
  }

  lemma CleanIsConforming(ps: seq<Page>)
    requires AllWellFormed(ps) && Clean(AllBytes(ps))
    ensures Conforms(ps) && AllClosed(ps)
  {
    CleanPages(AllBytes(ps), ps);
    RunIsPhysical(ps);
  }
}
