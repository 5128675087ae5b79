/**
 The conformance validator: a walk over bytes with one model per logical bitstream. This
 module says what the walk computes, damage recovery included; `Validator` runs it.
 */
module Validation {
  import opened Bytes
  import opened Crc
  import opened Pages
  import opened Segments

  const MAX_ISSUES := 1024

  datatype Rule =
    | CapturePattern | Version | Truncated | BadCrc | MissingBos | DuplicateBos | SerialReuse
    | BosNotContiguous | MissingEos | PageAfterEos | ContinuedBos | SequenceStart | SequenceGap
    | SequenceRegression | GranuleRegression | SpuriousGranule | MissingGranule
    | ContinuedWithoutPartial | PartialNotContinued | EosMidPacket

  /** One violation; its severity is a function of the rule and its text is not modelled. */
  datatype Issue = Issue(rule: Rule, offset: nat, pageIndex: Option<nat>, serial: Option<u32>)

  datatype StreamModel = StreamModel(
    lastSeq: u32,
    lastGranule: Option<i64>,
    openPacket: bool,
    eos: bool,
    afterEosReported: bool,
    tainted: bool)

  /** A structurally accepted page, body left out. */
  datatype RawPage = RawPage(
    offset: nat,
    version: byte,
    flags: byte,
    granule: i64,
    serial: u32,
    seqNo: u32,
    lacing: seq<byte>)

  /** What the walk carries from page to page: the report's totals and the stream models. */
  datatype State = State(
    pages: nat,
    streams: nat,
    links: nat,
    junkBytes: nat,
    live: map<u32, StreamModel>,
    finished: set<u32>,
    linkHasData: bool)

  const START := State(0, 0, 0, 0, map[], {}, false)

  function SaturatingInc(n: nat): nat { if n >= TWO32 - 1 then n else n + 1 }

  // ----- one page at a byte position -----

  datatype PageAt =
    | Accepted(page: RawPage, next: nat)
    | NoCapture
    | Cut(need: nat, have: nat)
    | Damaged(claimedSerial: u32, len: nat)

  function Raw(offset: nat, version: byte, p: Page): RawPage
  {
    RawPage(offset, version, p.flags, p.granule, p.serial, p.seqNo, p.lacing)
  }

  function ReadAt(data: seq<byte>, pos: nat): (r: PageAt)
    requires pos <= |data|
    ensures r.Accepted? ==> pos + HEADER_LEN <= r.next <= |data|
  {
    var rest := data[pos..];
    if |rest| < 4 || rest[..4] != CAPTURE then NoCapture
    else
      var e := ExtentOf(rest);
      if e.Short? then Cut(e.need, |rest|)
      else if PageChecksum(rest[..e.total]) != StoredCrc(rest) then Damaged(ReadU32(rest[14..18]), e.total)
      else Accepted(Raw(pos, rest[4], PageOf(rest)), pos + e.total)
  }

  /** What lies at each offset of the input, its end included. */
  type Scan = s: seq<PageAt> | s != [] && forall i :: 0 <= i < |s| && s[i].Accepted? ==> i < s[i].next < |s|
    witness [NoCapture]

  function ScanOf(data: seq<byte>): (s: Scan)
    ensures |s| == |data| + 1
    ensures forall i :: 0 <= i <= |data| ==> s[i] == ReadAt(data, i)
  {
    seq(|data| + 1, i requires 0 <= i <= |data| => ReadAt(data, i))
  }

  /** The first offset from `from` on where a complete, checksum-valid page starts. */
  function NextValid(scan: Scan, from: nat): (r: Option<nat>)
    ensures r.Some? ==> from <= r.value < |scan| - 4 && scan[r.value].Accepted?
    ensures r.Some? ==> forall i :: from <= i < r.value ==> !scan[i].Accepted?
    decreases |scan| - from
  {
    if from + 4 > |scan| - 1 then None
    else if scan[from].Accepted? then Some(from)
    else NextValid(scan, from + 1)
  }

  // ----- the checks -----

  function At(page: RawPage, index: nat, rule: Rule): Issue
  {
    Issue(rule, page.offset, Some(index), Some(page.serial))
  }

  function When(b: bool, issue: Issue): seq<Issue> { if b then [issue] else [] }

  /** Granule and EOS checks shared by every accepted page. */
  function FinishPage(page: RawPage, m: StreamModel, index: nat): (StreamModel, seq<Issue>)
  {
    var completes := Completes(page.lacing);
    var stamped := completes && page.granule != -1;
    var regressed := stamped && m.lastGranule.Some? && page.granule < m.lastGranule.value;
    var open := EndsOpen(page.lacing);
    var eos := HasLast(page.flags);
    (m.(lastGranule := if stamped then Some(page.granule) else m.lastGranule,
        openPacket := open,
        eos := m.eos || eos),
     (When(page.lacing != [] && !completes && page.granule != -1, At(page, index, SpuriousGranule))
      + When(completes && page.granule == -1, At(page, index, MissingGranule)))
     + (When(regressed, At(page, index, GranuleRegression))
        + When(eos && open, At(page, index, EosMidPacket))))
  }

  function NewModel(page: RawPage): StreamModel { StreamModel(page.seqNo, None, false, false, false, false) }

  predicate AllEnded(live: map<u32, StreamModel>) { forall s :: s in live ==> live[s].eos }

  predicate StillLive(st: State, serial: u32) { serial in st.live && !st.live[serial].eos }

  /** What is wrong with a BOS page arriving now, its granule and EOS aside. */
  function BosIssues(st: State, page: RawPage, index: nat): seq<Issue>
  {
    var duplicate := StillLive(st, page.serial);
    (When(HasContinued(page.flags), At(page, index, ContinuedBos))
     + When(page.seqNo != 0, At(page, index, SequenceStart)))
    + (When(duplicate, At(page, index, DuplicateBos))
       + When(!duplicate && (page.serial in st.finished || page.serial in st.live), At(page, index, SerialReuse)))
    + When(!duplicate && st.linkHasData && !AllEnded(st.live), At(page, index, BosNotContiguous))
  }

  /** A BOS after data pages starts a new link once every stream of the current one has ended. */
  function EnterLink(st: State, serial: u32): State
  {
    if !StillLive(st, serial) && st.linkHasData && AllEnded(st.live)
    then st.(live := map[], finished := st.finished + st.live.Keys, linkHasData := false, links := st.links + 1)
    else st
  }

  function CheckBos(st: State, page: RawPage, index: nat): (State, seq<Issue>)
  {
    var st1 := EnterLink(st, page.serial);
    var (m, tail) := FinishPage(page, NewModel(page), index);
    (st1.(streams := SaturatingInc(st1.streams), live := st1.live[page.serial := m]),
     BosIssues(st, page, index) + tail)
  }

  /** Forward by less than half the number space, as the 32-bit signed difference sees it. */
  predicate Ahead(seqNo: u32, last: u32) { 0 < (seqNo - last) % TWO32 < 0x8000_0000 }

  function Rebaseline(m: StreamModel, page: RawPage): StreamModel
  {
    m.(tainted := false,
       lastSeq := page.seqNo,
       lastGranule := if Completes(page.lacing) && page.granule != -1 then Some(page.granule) else m.lastGranule,
       openPacket := EndsOpen(page.lacing),
       eos := m.eos || HasLast(page.flags))
  }

  /** A page of a stream that has a model and has not ended. */
  function CheckNext(m: StreamModel, page: RawPage, index: nat): (StreamModel, seq<Issue>)
  {
    if m.tainted then (Rebaseline(m, page), [])
    else if page.seqNo != NextU32(m.lastSeq) then
      (Rebaseline(m, page), [At(page, index, if Ahead(page.seqNo, m.lastSeq) then SequenceGap else SequenceRegression)])
    else
      var continued := HasContinued(page.flags);
      var (m', tail) := FinishPage(page, m.(lastSeq := page.seqNo), index);
      (m', (When(continued && !m.openPacket, At(page, index, ContinuedWithoutPartial))
            + When(!continued && m.openPacket, At(page, index, PartialNotContinued)))
           + tail)
  }

  function CheckData(st: State, page: RawPage, index: nat): (State, seq<Issue>)
  {
    var st1 := st.(linkHasData := true);
    if page.serial !in st.live then
      var (m, tail) := FinishPage(page, NewModel(page), index);
      (st1.(streams := SaturatingInc(st.streams), live := st.live[page.serial := m]),
       [At(page, index, MissingBos)] + tail)
    else
      var m := st.live[page.serial];
      if m.eos then
        (st1.(live := st.live[page.serial := m.(afterEosReported := true, lastSeq := page.seqNo,
                                                openPacket := EndsOpen(page.lacing))]),
         When(!m.afterEosReported, At(page, index, PageAfterEos)))
      else
        var (m', issues) := CheckNext(m, page, index);
        (st1.(live := st.live[page.serial := m']), issues)
  }

  function CheckPage(st: State, page: RawPage): (State, seq<Issue>)
  {
    var st1 := st.(pages := st.pages + 1, links := if st.pages == 0 then 1 else st.links);
    if HasFirst(page.flags) then CheckBos(st1, page, st.pages) else CheckData(st1, page, st.pages)
  }

  function Taint(st: State, serial: u32): State
  {
    if serial in st.live then st.(live := st.live[serial := st.live[serial].(tainted := true)]) else st
  }

  // ----- the walk, over any page check -----

  type Checker = (State, RawPage) -> (State, seq<Issue>)

  /** The state at the end of the input and every issue found from `pos` on, in order. */
  function Walk(check: Checker, scan: Scan, pos: nat, st: State): (State, seq<Issue>)
    requires pos < |scan|
    decreases |scan| - pos
  {
    if pos == |scan| - 1 then (st, [])
    else
      match scan[pos]
      case Accepted(page, next) =>
        if page.version != 0 then
          var rest := Walk(check, scan, next, Taint(st, page.serial));
          (rest.0, [At(page, st.pages, Version)] + rest.1)
        else
          var step := check(st, page);
          var rest := Walk(check, scan, next, step.0);
          (rest.0, step.1 + rest.1)
      case NoCapture => Resync(check, scan, pos, st, Issue(CapturePattern, pos, None, None))
      case Cut(_, _) => Resync(check, scan, pos, st, Issue(Truncated, pos, None, None))
      case Damaged(serial, _) => Resync(check, scan, pos, Taint(st, serial), Issue(BadCrc, pos, None, Some(serial)))
  }

  function Resync(check: Checker, scan: Scan, pos: nat, st: State, issue: Issue): (State, seq<Issue>)
    requires pos < |scan| - 1
    decreases |scan| - pos, 0
  {
    var end := ResumeAt(scan, pos);
    var st1 := CountJunk(st, issue, end - pos);
    if NextValid(scan, pos + 1).None? then (st1, [issue])
    else
      var rest := Walk(check, scan, end, st1);
      (rest.0, [issue] + rest.1)
  }

  /** Where the walk resumes after damage at `pos`: the next valid page, else the end. */
  function ResumeAt(scan: Scan, pos: nat): (end: nat)
    requires pos < |scan| - 1
    ensures pos < end < |scan|
  {
    var next := NextValid(scan, pos + 1);
    if next.Some? then next.value else |scan| - 1
  }

  /** Junk bytes are counted only when no capture pattern was found. */
  function CountJunk(st: State, issue: Issue, n: nat): State
  {
    if issue.rule == CapturePattern then st.(junkBytes := st.junkBytes + n) else st
  }

  lemma ResyncMeaning(check: Checker, scan: Scan, pos: nat, st: State, issue: Issue)
    requires pos < |scan| - 1
    ensures var end := ResumeAt(scan, pos);
            var rest := Walk(check, scan, end, CountJunk(st, issue, end - pos));
            Resync(check, scan, pos, st, issue) == (rest.0, [issue] + rest.1)
  {
    assert [issue] + [] == [issue];
  }

  function Unclosed(live: map<u32, StreamModel>): set<u32>
  {
    set s | s in live && !live[s].eos
  }

  ghost function Least(s: set<u32>): (m: u32)
    requires s != {}
    ensures m in s && forall x :: x in s ==> m <= x
  {
    LeastExists(s);
    var m :| m in s && forall x :: x in s ==> m <= x;
    m
  }

  lemma LeastExists(s: set<u32>)
    requires s != {}
    ensures exists m :: m in s && forall x :: x in s ==> m <= x
  {
    var a :| a in s;
    var rest := s - {a};
    if rest != {} {
      LeastExists(rest);
      var b :| b in rest && forall x :: x in rest ==> b <= x;
      var m := Min(a, b);
      assert m in s && forall x :: x in s ==> m <= x by {
        assert forall x :: x in s ==> x == a || x in rest;
      }
    } else {
      assert s == {a};
    }
  }

  ghost function Ascending(s: set<u32>): seq<u32>
  {
    if s == {} then [] else [Least(s)] + Ascending(s - {Least(s)})
  }

  function MissingEosIssues(serials: seq<u32>, end: nat): seq<Issue>
  {
    if serials == [] then [] else [Issue(MissingEos, end, None, Some(serials[0]))] + MissingEosIssues(serials[1..], end)
  }

  /** Every issue `validate` finds in `data`, in report order. */
  ghost function Issues(data: seq<byte>): seq<Issue>
  {
    var (st, found) := Walk(CheckPage, ScanOf(data), 0, START);
    found
    + When(data == [], Issue(Truncated, 0, None, None))
    + MissingEosIssues(Ascending(Unclosed(st.live)), |data|)
  }

  ghost predicate Clean(data: seq<byte>) { Issues(data) == [] }

  lemma CleanMeaning(data: seq<byte>)
    ensures var (st, found) := Walk(CheckPage, ScanOf(data), 0, START);
            Clean(data) <==> data != [] && found == [] && Unclosed(st.live) == {}
  {
    var (st, found) := Walk(CheckPage, ScanOf(data), 0, START);
    if Unclosed(st.live) != {} {
      assert Ascending(Unclosed(st.live)) != [];
    }
  }
}
