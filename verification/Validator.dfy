/** The validator as the code runs it: one report and one model per stream, updated page by page. */
module Validators {
  import opened Bytes
  import opened Crc
  import opened Pages
  import opened Segments
  import opened Validation

  /** What one turn of the walk leaves: the state, what it reported, and where it goes on. */
  datatype Visited = Visited(st: State, issues: seq<Issue>, next: nat)

  function SkipTo(resume: nat, pos: nat, st: State, issue: Issue): Visited
  {
    Visited(CountJunk(st, issue, Max(resume - pos, 0)), [issue], resume)
  }

  function Visit(check: Checker, at: PageAt, resume: nat, pos: nat, st: State): Visited
  {
    match at
    case Accepted(page, next) =>
      if page.version != 0 then Visited(Taint(st, page.serial), [At(page, st.pages, Version)], next)
      else Visited(check(st, page).0, check(st, page).1, next)
    case NoCapture => SkipTo(resume, pos, st, Issue(CapturePattern, pos, None, None))
    case Cut(_, _) => SkipTo(resume, pos, st, Issue(Truncated, pos, None, None))
    case Damaged(serial, _) => SkipTo(resume, pos, Taint(st, serial), Issue(BadCrc, pos, None, Some(serial)))
  }

  /** The walk is its first turn, then the walk from there. */
  lemma WalkIsVisits(check: Checker, scan: Scan, pos: nat, st: State)
    requires pos < |scan| - 1
    ensures var v := Visit(check, scan[pos], ResumeAt(scan, pos), pos, st);
            && pos < v.next < |scan|
            && Walk(check, scan, pos, st).0 == Walk(check, scan, v.next, v.st).0
            && Walk(check, scan, pos, st).1 == v.issues + Walk(check, scan, v.next, v.st).1
  {
    match scan[pos]
    case Accepted(_, _) =>
    case NoCapture => ResyncMeaning(check, scan, pos, st, Issue(CapturePattern, pos, None, None));
    case Cut(_, _) => ResyncMeaning(check, scan, pos, st, Issue(Truncated, pos, None, None));
    case Damaged(serial, _) =>
      ResyncMeaning(check, scan, pos, Taint(st, serial), Issue(BadCrc, pos, None, Some(serial)));
  }

  /** Going on from `pos` in state `st`, having reported `log`, gives what the whole walk gives. */
  ghost predicate OnTheWay(check: Checker, scan: Scan, pos: nat, st: State, log: seq<Issue>)
  {
    && pos < |scan|
    && Walk(check, scan, pos, st).0 == Walk(check, scan, 0, START).0
    && log + Walk(check, scan, pos, st).1 == Walk(check, scan, 0, START).1
  }

  lemma VisitOnTheWay(check: Checker, scan: Scan, pos: nat, st: State, log: seq<Issue>, v: Visited)
    requires pos < |scan| - 1 && OnTheWay(check, scan, pos, st, log)
    requires v == Visit(check, scan[pos], ResumeAt(scan, pos), pos, st)
    ensures OnTheWay(check, scan, v.next, v.st, log + v.issues)
  {
    WalkIsVisits(check, scan, pos, st);
    Assoc(log, v.issues, Walk(check, scan, v.next, v.st).1);
  }

  class Validator {
    const tables: SliceTables
    // the report
    var issues: seq<Issue>
    var suppressed: nat
    var pages: nat
    var streams: nat
    var links: nat
    var junkBytes: nat
    // the walk
    var live: map<u32, StreamModel>
    var finished: set<u32>
    var linkHasData: bool

    /** Every issue ever reported, retained or not. */
    ghost var log: seq<Issue>

    ghost predicate Valid()
      reads this, tables, tables.t0, tables.t1, tables.t2, tables.t3
    {
      && tables.Valid()
      && issues == log[..Min(|log|, MAX_ISSUES)]
      && suppressed == |log| - |issues|
    }

    ghost function Now(): State
      reads this
    {
      State(pages, streams, links, junkBytes, live, finished, linkHasData)
    }

    constructor ()
      ensures Valid() && Now() == START && log == []
    {
      tables := new SliceTables();
      issues, suppressed, log := [], 0, [];
      pages, streams, links, junkBytes := 0, 0, 0, 0;
      live, finished, linkHasData := map[], {}, false;
    }

    /** Past the cap issues are counted, not kept. */
    method Push(issue: Issue)
      requires Valid()
      modifies this`issues, this`suppressed, this`log
      ensures Valid() && log == old(log) + [issue]
    {
      if |issues| < MAX_ISSUES {
        issues := issues + [issue];
      } else {
        suppressed := suppressed + 1;
      }
      log := log + [issue];
    }

    /** No issue kept and none suppressed: nothing was ever reported. */
    predicate IsClean()
      reads this
    {
      issues == [] && suppressed == 0
    }

    lemma CleanIsSilent()
      requires Valid()
      ensures IsClean() <==> log == []
    {}

    method PushWhen(b: bool, issue: Issue)
      requires Valid()
      modifies this`issues, this`suppressed, this`log
      ensures Valid() && log == old(log) + When(b, issue)
    {
      if b {
        Push(issue);
      }
    }

    method PushPair(b: bool, issue: Issue, b': bool, issue': Issue)
      requires Valid()
      modifies this`issues, this`suppressed, this`log
      ensures Valid() && log == old(log) + (When(b, issue) + When(b', issue'))
    {
      Assoc(log, When(b, issue), When(b', issue'));
      PushWhen(b, issue);
      PushWhen(b', issue');
    }

    /** How far the page at the front of `rest` reaches, or how many bytes it still needs. */
    static method Measure(rest: seq<byte>) returns (e: Extent)
      ensures e == ExtentOf(rest)
    {
      if |rest| < HEADER_LEN {
        return Short(HEADER_LEN);
      }
      var headerLen := HEADER_LEN + rest[26];
      if |rest| < headerLen {
        return Short(headerLen);
      }
      var total := headerLen + Sum(rest[HEADER_LEN..headerLen]);
      e := if |rest| < total then Short(total) else Complete(headerLen, total);
    }

    method PageAtOffset(data: seq<byte>, pos: nat) returns (r: PageAt)
      requires Valid() && pos <= |data|
      ensures r == ReadAt(data, pos)
    {
      var rest := data[pos..];
      if |rest| < 4 || rest[..4] != CAPTURE {
        return NoCapture;
      }
      var e := Measure(rest);
      if e.Short? {
        return Cut(e.need, |rest|);
      }
      var computed := tables.ComputePageChecksum(rest[..e.total]);
      if computed != Some(StoredCrc(rest)) {
        return Damaged(ReadU32(rest[14..18]), e.total);
      }
      return Accepted(Raw(pos, rest[4], PageOf(rest)), pos + e.total);
    }

    method FindNextValidPage(data: seq<byte>, from: nat) returns (r: Option<nat>)
      requires Valid()
      ensures r == NextValid(ScanOf(data), from)
    {
      var i := from;
      while i + 4 <= |data|
        invariant NextValid(ScanOf(data), i) == NextValid(ScanOf(data), from)
        decreases |data| - i
      {
        if data[i..i + 4] == CAPTURE {
          var at := PageAtOffset(data, i);
          if at.Accepted? {
            return Some(i);
          }
        } else {
          assert data[i..][..4] == data[i..i + 4];
        }
        i := i + 1;
      }
      return None;
    }

    method FinishPageChecks(page: RawPage, m: StreamModel, index: nat) returns (m': StreamModel)
      requires Valid()
      modifies this`issues, this`suppressed, this`log
      ensures Valid()
      ensures m' == FinishPage(page, m, index).0 && log == old(log) + FinishPage(page, m, index).1
    {
      var completes := CompletedCount(page.lacing) > 0;
      var open := EndsOpen(page.lacing);
      var eos := HasLast(page.flags);
      var stamped := completes && page.granule != -1;
      var regressed := stamped && m.lastGranule.Some? && page.granule < m.lastGranule.value;
      ghost var before := log;
      PushPair(page.lacing != [] && !completes && page.granule != -1, At(page, index, SpuriousGranule),
               completes && page.granule == -1, At(page, index, MissingGranule));
      ghost var first := log[|before|..];
      PushPair(regressed, At(page, index, GranuleRegression), eos && open, At(page, index, EosMidPacket));
      Assoc(before, first,
            When(regressed, At(page, index, GranuleRegression)) + When(eos && open, At(page, index, EosMidPacket)));
      m' := m;
      if stamped {
        m' := m'.(lastGranule := Some(page.granule));
      }
      m' := m'.(openPacket := open);
      if eos {
        m' := m'.(eos := true);
      }
    }

    method ReportBosIssues(page: RawPage, index: nat)
      requires Valid()
      modifies this`issues, this`suppressed, this`log
      ensures Valid() && log == old(log) + BosIssues(old(Now()), page, index)
    {
      var duplicate := page.serial in live && !live[page.serial].eos;
      var reused := !duplicate && (page.serial in finished || page.serial in live);
      var stray := !duplicate && linkHasData && !AllEnded(live);
      ghost var before := log;
      PushPair(HasContinued(page.flags), At(page, index, ContinuedBos), page.seqNo != 0,
               At(page, index, SequenceStart));
      ghost var w := log[|before|..];
      PushPair(duplicate, At(page, index, DuplicateBos), reused, At(page, index, SerialReuse));
      ghost var w' := When(duplicate, At(page, index, DuplicateBos)) + When(reused, At(page, index, SerialReuse));
      Assoc(before, w, w');
      PushWhen(stray, At(page, index, BosNotContiguous));
      Assoc(before, w + w', When(stray, At(page, index, BosNotContiguous)));
    }

    method OpenLinkIfDue(serial: u32)
      requires Valid()
      modifies this`live, this`finished, this`linkHasData, this`links
      ensures Valid() && Now() == EnterLink(old(Now()), serial)
    {
      var duplicate := serial in live && !live[serial].eos;
      if !duplicate && linkHasData && AllEnded(live) {
        finished := finished + live.Keys;
        live := map[];
        linkHasData := false;
        links := links + 1;
      }
    }

    method CheckBosPage(page: RawPage, index: nat)
      requires Valid()
      modifies this
      ensures Valid()
      ensures Now() == CheckBos(old(Now()), page, index).0
      ensures log == old(log) + CheckBos(old(Now()), page, index).1
    {
      ghost var before := Now();
      ghost var base := log;
      ReportBosIssues(page, index);
      OpenLinkIfDue(page.serial);
      streams := SaturatingInc(streams);
      var m := FinishPageChecks(page, NewModel(page), index);
      Assoc(base, BosIssues(before, page, index), FinishPage(page, NewModel(page), index).1);
      live := live[page.serial := m];
    }

    method CheckNextPage(m: StreamModel, page: RawPage, index: nat) returns (m': StreamModel)
      requires Valid()
      modifies this`issues, this`suppressed, this`log
      ensures Valid()
      ensures m' == CheckNext(m, page, index).0 && log == old(log) + CheckNext(m, page, index).1
    {
      if m.tainted {
        return Rebaseline(m, page);
      }
      if page.seqNo != NextU32(m.lastSeq) {
        Push(At(page, index, if Ahead(page.seqNo, m.lastSeq) then SequenceGap else SequenceRegression));
        return Rebaseline(m, page);
      }
      ghost var before := log;
      PushPair(HasContinued(page.flags) && !m.openPacket, At(page, index, ContinuedWithoutPartial),
               !HasContinued(page.flags) && m.openPacket, At(page, index, PartialNotContinued));
      ghost var w := log[|before|..];
      m' := FinishPageChecks(page, m.(lastSeq := page.seqNo), index);
      Assoc(before, w, FinishPage(page, m.(lastSeq := page.seqNo), index).1);
    }

    method CheckDataPage(page: RawPage, index: nat)
      requires Valid()
      modifies this
      ensures Valid()
      ensures Now() == CheckData(old(Now()), page, index).0
      ensures log == old(log) + CheckData(old(Now()), page, index).1
    {
      linkHasData := true;
      if page.serial !in live {
        ghost var before := log;
        Push(At(page, index, MissingBos));
        streams := SaturatingInc(streams);
        var m := FinishPageChecks(page, NewModel(page), index);
        Assoc(before, [At(page, index, MissingBos)], FinishPage(page, NewModel(page), index).1);
        live := live[page.serial := m];
      } else if live[page.serial].eos {
        var m := live[page.serial];
        PushWhen(!m.afterEosReported, At(page, index, PageAfterEos));
        live := live[page.serial := m.(afterEosReported := true, lastSeq := page.seqNo,
                                       openPacket := EndsOpen(page.lacing))];
      } else {
        var m := CheckNextPage(live[page.serial], page, index);
        live := live[page.serial := m];
      }
    }

    /** Count an accepted page, then check it. */
    method CountAndCheck(page: RawPage)
      requires Valid()
      modifies this
      ensures Valid()
      ensures Now() == CheckPage(old(Now()), page).0 && log == old(log) + CheckPage(old(Now()), page).1
    {
      if pages == 0 {
        links := 1;
      }
      var index := pages;
      pages := pages + 1;
      if HasFirst(page.flags) {
        CheckBosPage(page, index);
      } else {
        CheckDataPage(page, index);
      }
    }

    method TaintModel(serial: u32)
      requires Valid()
      modifies this`live
      ensures Valid() && Now() == Taint(old(Now()), serial)
    {
      if serial in live {
        live := live[serial := live[serial].(tainted := true)];
      }
    }

    /** Report the damage at `pos` and say where the walk resumes; the input's end if nowhere. */
    method SkipDamage(data: seq<byte>, pos: nat, issue: Issue) returns (next: nat)
      requires Valid() && pos < |data|
      modifies this
      ensures Valid() && next == ResumeAt(ScanOf(data), pos) && log == old(log) + [issue]
      ensures Now() == CountJunk(old(Now()), issue, next - pos)
    {
      var found := FindNextValidPage(data, pos + 1);
      next := if found.Some? then found.value else |data|;
      if issue.rule == CapturePattern {
        junkBytes := junkBytes + (next - pos);
      }
      Push(issue);
    }

    /** An accepted page: counted and checked, or reported for its version. */
    method TakePage(page: RawPage)
      requires Valid()
      modifies this
      ensures Valid()
      ensures var v := Visit(CheckPage, Accepted(page, 0), 0, 0, old(Now()));
              Now() == v.st && log == old(log) + v.issues
    {
      if page.version != 0 {
        Push(At(page, pages, Version));
        TaintModel(page.serial);
      } else {
        CountAndCheck(page);
      }
    }

    /** One turn of the walk: whatever lies at `pos` is dealt with, up to `next`. */
    method Turn(data: seq<byte>, pos: nat) returns (next: nat)
      requires Valid() && pos < |data|
      modifies this
      ensures Valid() && pos < next <= |data|
      ensures var v := Visit(CheckPage, ReadAt(data, pos), ResumeAt(ScanOf(data), pos), pos, old(Now()));
              Now() == v.st && log == old(log) + v.issues && next == v.next
    {
      var at := PageAtOffset(data, pos);
      match at
      case Accepted(page, after) =>
        next := after;
        TakePage(page);
      case NoCapture =>
        next := SkipDamage(data, pos, Issue(CapturePattern, pos, None, None));
      case Cut(_, _) =>
        next := SkipDamage(data, pos, Issue(Truncated, pos, None, None));
      case Damaged(serial, _) =>
        TaintModel(serial);
        next := SkipDamage(data, pos, Issue(BadCrc, pos, None, Some(serial)));
    }

    method WalkAll(data: seq<byte>)
      requires Valid() && Now() == START && log == []
      modifies this
      ensures Valid()
      ensures Now() == Walk(CheckPage, ScanOf(data), 0, START).0
      ensures log == Walk(CheckPage, ScanOf(data), 0, START).1
    {
      var pos := 0;
      ghost var scan := ScanOf(data);
      PlusNil(Walk(CheckPage, scan, 0, START).1);
      while pos < |data|
        invariant Valid() && 0 <= pos <= |data|
        invariant OnTheWay(CheckPage, scan, pos, Now(), log)
      {
        ghost var st, before := Now(), log;
        ghost var v := Visit(CheckPage, ReadAt(data, pos), ResumeAt(scan, pos), pos, st);
        assert scan[pos] == ReadAt(data, pos);
        VisitOnTheWay(CheckPage, scan, pos, st, before, v);
        pos := Turn(data, pos);
      }
      PlusNil(log);
    }

    static method LeastOf(s: set<u32>) returns (m: u32)
      requires s != {}
      ensures m == Least(s)
    {
      m :| m in s;
      var rest := s - {m};
      while rest != {}
        invariant m in s && rest <= s
        invariant forall x :: x in s && x !in rest ==> m <= x
        decreases |rest|
      {
        var x :| x in rest;
        if x < m {
          m := x;
        }
        rest := rest - {x};
      }
      assert m <= Least(s) <= m;
    }

    /** One issue per stream that never saw an EOS page, by ascending serial. */
    method ReportUnclosed(end: nat)
      requires Valid()
      modifies this`issues, this`suppressed, this`log
      ensures Valid() && log == old(log) + MissingEosIssues(Ascending(Unclosed(live)), end)
    {
      var open := Unclosed(live);
      ghost var all := MissingEosIssues(Ascending(open), end);
      ghost var before := log;
      ghost var done := [];
      while open != {}
        invariant Valid() && log == before + done
        invariant all == done + MissingEosIssues(Ascending(open), end)
        decreases |open|
      {
        var s := LeastOf(open);
        var issue := Issue(MissingEos, end, None, Some(s));
        Push(issue);
        open := open - {s};
        Assoc(before, done, [issue]);
        Assoc(done, [issue], MissingEosIssues(Ascending(open), end));
        done := done + [issue];
      }
      assert done + [] == done;
    }

    /** Walk the whole input and report everything wrong with it. */
    static method Validate(data: seq<byte>) returns (v: Validator)
      ensures fresh(v) && v.Valid()
      ensures v.log == Issues(data) && v.Now() == Walk(CheckPage, ScanOf(data), 0, START).0
      ensures v.IsClean() <==> Clean(data)
    {
      v := new Validator();
      v.WalkAll(data);
      ghost var walked := v.log;
      if v.pages == 0 && data == [] {
        v.Push(Issue(Truncated, 0, None, None));
      }
      ghost var emptied := v.log;
      assert emptied == walked + When(data == [], Issue(Truncated, 0, None, None));
      v.ReportUnclosed(|data|);
      v.CleanIsSilent();
    }
  }
}
