/**
 The validator's report on any bytes whatsoever. The input falls into pieces - pages, and damage up to
 the next valid page - and each rule is stated over the pages that came before, stream by stream.
 */
module Report {
  import opened Bytes
  import opened Pages
  import opened Segments
  import opened Validation
  import V = Validators

  // ----- what has come so far -----

  /** A version-0 page came, or a page claiming `serial` could not be read. */
  datatype Event = Came(page: RawPage) | Lost(serial: u32)

  predicate IsBos(page: RawPage) { HasFirst(page.flags) }

  predicate EndsStream(e: Event) { e.Came? && HasLast(e.page.flags) }

  /**
   What has come of the logical bitstream `s` now has: from its latest BOS page on, or since the
   current link began.
   */
  ghost function Life(h: seq<Event>, s: u32): seq<Event>
    decreases |h|, 0
  {
    if h == [] then []
    else
      var front, last := h[..|h| - 1], h[|h| - 1];
      match last
      case Lost(t) => Life(front, s) + if t == s && Life(front, s) != [] then [last] else []
      case Came(page) =>
        if page.serial != s then if TurnsLink(front, page) then [] else Life(front, s)
        else if IsBos(page) then [last]
        else Life(front, s) + [last]
  }

  predicate Over(life: seq<Event>) { exists k :: 0 <= k < |life| && EndsStream(life[k]) }

  /** A bitstream that has not ended. */
  predicate Running(life: seq<Event>) { life != [] && !Over(life) }

  ghost predicate NoneRunning(h: seq<Event>)
    decreases |h|, 1
  {
    forall s: u32 :: !Running(Life(h, s))
  }

  /** Data pages have come since the current link began. */
  ghost predicate DataCame(h: seq<Event>)
    decreases |h|, 0
  {
    h != [] &&
    var front, last := h[..|h| - 1], h[|h| - 1];
    match last
    case Lost(_) => DataCame(front)
    case Came(page) => !IsBos(page) || (DataCame(front) && !TurnsLink(front, page))
  }

  /** A BOS page after data begins a link if every bitstream of the one before has ended. */
  ghost predicate TurnsLink(h: seq<Event>, page: RawPage)
    decreases |h|, 2
  {
    IsBos(page) && DataCame(h) && NoneRunning(h)
  }

  predicate Met(h: seq<Event>, s: u32) { exists k :: 0 <= k < |h| && h[k].Came? && h[k].page.serial == s }

  /** The page that came last, anything lost since passed over. */
  function LastPage(life: seq<Event>): Option<RawPage>
  {
    if life == [] then None
    else if life[|life| - 1].Came? then Some(life[|life| - 1].page)
    else LastPage(life[..|life| - 1])
  }

  /** The granule of the last page to finish a packet and carry one. */
  function GranuleBefore(life: seq<Event>): Option<i64>
  {
    if life == [] then None
    else
      var last := life[|life| - 1];
      if last.Came? && Stamped(last.page) then Some(last.page.granule) else GranuleBefore(life[..|life| - 1])
  }

  predicate Stamped(page: RawPage) { Completes(page.lacing) && page.granule != -1 }

  /** Something of the bitstream was lost after its last page. */
  predicate Broken(life: seq<Event>) { life != [] && life[|life| - 1].Lost? }

  /** Its EOS page was not its last page. */
  predicate PastEnd(life: seq<Event>)
  {
    exists j, k :: 0 <= j < k < |life| && EndsStream(life[j]) && life[k].Came?
  }

  // ----- the rules -----

  /** `b` is `n` places after `a` in the numbering of pages. */
  predicate PlacesAfter(a: u32, b: u32, n: nat) { b == (a + n) % TWO32 }

  /** The page jumps forward, by less than half of all numbers. */
  ghost predicate Jumps(life: seq<Event>, page: RawPage)
  {
    && LastPage(life).Some?
    && exists n: nat :: 1 < n < 0x8000_0000 && PlacesAfter(LastPage(life).value.seqNo, page.seqNo, n)
  }

  /** The page is numbered as the last one was, or lower by up to half of all numbers. */
  ghost predicate GoesBack(life: seq<Event>, page: RawPage)
  {
    LastPage(life).Some? && exists n: nat :: n <= 0x8000_0000 && PlacesAfter(page.seqNo, LastPage(life).value.seqNo, n)
  }

  predicate MidPacket(life: seq<Event>) { LastPage(life).Some? && EndsOpen(LastPage(life).value.lacing) }

  /** What is wrong with a page's granule and EOS flag, after the pages `life` of its bitstream. */
  function EndFindings(life: seq<Event>, page: RawPage, index: nat): seq<Issue>
  {
    (When(page.lacing != [] && !Completes(page.lacing) && page.granule != -1, At(page, index, SpuriousGranule))
     + When(Completes(page.lacing) && page.granule == -1, At(page, index, MissingGranule)))
    + (When(Stamped(page) && GranuleBefore(life).Some? && page.granule < GranuleBefore(life).value,
            At(page, index, GranuleRegression))
       + When(HasLast(page.flags) && EndsOpen(page.lacing), At(page, index, EosMidPacket)))
  }

  ghost function BosFindings(h: seq<Event>, page: RawPage, index: nat): seq<Issue>
  {
    var life := Life(h, page.serial);
    ((When(HasContinued(page.flags), At(page, index, ContinuedBos))
      + When(page.seqNo != 0, At(page, index, SequenceStart)))
     + (When(Running(life), At(page, index, DuplicateBos))
        + When(!Running(life) && Met(h, page.serial), At(page, index, SerialReuse)))
     + When(!Running(life) && DataCame(h) && !NoneRunning(h), At(page, index, BosNotContiguous)))
    + EndFindings([], page, index)
  }

  /** A data page of a bitstream that is running: after a break in it anything goes. */
  ghost function NextFindings(life: seq<Event>, page: RawPage, index: nat): seq<Issue>
  {
    if Broken(life) then []
    else if Jumps(life, page) then [At(page, index, SequenceGap)]
    else if GoesBack(life, page) then [At(page, index, SequenceRegression)]
    else
      (When(HasContinued(page.flags) && !MidPacket(life), At(page, index, ContinuedWithoutPartial))
       + When(!HasContinued(page.flags) && MidPacket(life), At(page, index, PartialNotContinued)))
      + EndFindings(life, page, index)
  }

  ghost function DataFindings(life: seq<Event>, page: RawPage, index: nat): seq<Issue>
  {
    if life == [] then [At(page, index, MissingBos)] + EndFindings([], page, index)
    else if Over(life) then When(!PastEnd(life), At(page, index, PageAfterEos))
    else NextFindings(life, page, index)
  }

  /** What is wrong with `page` after all that has come. */
  ghost function Findings(h: seq<Event>, page: RawPage): seq<Issue>
  {
    if IsBos(page) then BosFindings(h, page, PageCount(h))
    else DataFindings(Life(h, page.serial), page, PageCount(h))
  }

  // ----- the totals -----

  function PageCount(h: seq<Event>): nat
  {
    if h == [] then 0 else PageCount(h[..|h| - 1]) + if h[|h| - 1].Came? then 1 else 0
  }

  /** A page begins a bitstream if it is a BOS page, or its serial has none. */
  ghost predicate Begins(h: seq<Event>, page: RawPage) { IsBos(page) || Life(h, page.serial) == [] }

  ghost function StreamCount(h: seq<Event>): nat
  {
    if h == [] then 0
    else
      var front, last := h[..|h| - 1], h[|h| - 1];
      StreamCount(front) + if last.Came? && Begins(front, last.page) then 1 else 0
  }

  /** The first page begins a link, and so does every page that turns to a new one. */
  ghost function LinkCount(h: seq<Event>): nat
  {
    if h == [] then 0
    else
      var front, last := h[..|h| - 1], h[|h| - 1];
      LinkCount(front) + if last.Came? && (PageCount(front) == 0 || TurnsLink(front, last.page)) then 1 else 0
  }

  // ----- the models remember what the rules need -----

  predicate Recalls(m: StreamModel, life: seq<Event>)
  {
    && LastPage(life).Some? && m.lastSeq == LastPage(life).value.seqNo && m.openPacket == MidPacket(life)
    && m.eos == Over(life) && (m.eos ==> m.afterEosReported == PastEnd(life))
    && (!m.eos ==> m.lastGranule == GranuleBefore(life) && m.tainted == Broken(life) && !m.afterEosReported)
  }

  ghost predicate RecallsAll(live: map<u32, StreamModel>, h: seq<Event>)
  {
    forall s: u32 :: (s in live <==> Life(h, s) != []) && (s in live ==> Recalls(live[s], Life(h, s)))
  }

  ghost predicate Follows(st: State, h: seq<Event>)
  {
    && RecallsAll(st.live, h)
    && (forall s: u32 :: s in st.live || s in st.finished <==> Met(h, s))
    && st.linkHasData == DataCame(h) && st.pages == PageCount(h)
    && st.streams == Min(StreamCount(h), TWO32 - 1) && st.links == LinkCount(h)
  }

  lemma LifeSnoc(h: seq<Event>, e: Event, s: u32)
    ensures Life(h + [e], s)
         == match e
            case Lost(t) => Life(h, s) + (if t == s && Life(h, s) != [] then [e] else [])
            case Came(page) =>
              if page.serial != s then if TurnsLink(h, page) then [] else Life(h, s)
              else if IsBos(page) then [e]
              else Life(h, s) + [e]
  {
    UnSnoc(h, e);
  }

  lemma OverSnoc(life: seq<Event>, e: Event)
    ensures Over(life + [e]) <==> Over(life) || EndsStream(e)
    ensures PastEnd(life + [e]) <==> PastEnd(life) || (Over(life) && e.Came?)
  {
    var l := life + [e];
    assert l[|life|] == e && forall k :: 0 <= k < |life| ==> l[k] == life[k];
  }

  lemma LastSnoc(life: seq<Event>, e: Event)
    ensures LastPage(life + [e]) == if e.Came? then Some(e.page) else LastPage(life)
    ensures GranuleBefore(life + [e])
         == if e.Came? && Stamped(e.page) then Some(e.page.granule) else GranuleBefore(life)
    ensures Broken(life + [e]) == e.Lost?
  {
    UnSnoc(life, e);
  }

  lemma CameSnoc(h: seq<Event>, e: Event, s: u32)
    ensures Met(h + [e], s) <==> Met(h, s) || (e.Came? && e.page.serial == s)
  {
    var g := h + [e];
    assert g[|h|] == e && forall k :: 0 <= k < |h| ==> g[k] == h[k];
  }

  lemma CountsSnoc(h: seq<Event>, e: Event)
    ensures PageCount(h + [e]) == PageCount(h) + if e.Came? then 1 else 0
    ensures StreamCount(h + [e]) == StreamCount(h) + if e.Came? && Begins(h, e.page) then 1 else 0
    ensures LinkCount(h + [e])
         == LinkCount(h) + if e.Came? && (PageCount(h) == 0 || TurnsLink(h, e.page)) then 1 else 0
    ensures DataCame(h + [e])
        <==> if e.Lost? then DataCame(h) else !IsBos(e.page) || (DataCame(h) && !TurnsLink(h, e.page))
  {
    UnSnoc(h, e);
  }

  // ----- one event -----

  lemma PlacesBetween(a: u32, b: u32) returns (n: nat)
    ensures n == (b - a) % TWO32 && PlacesAfter(a, b, n)
    ensures forall m: nat :: m < TWO32 && PlacesAfter(a, b, m) ==> m == n
  {
    n := (b - a) % TWO32;
    forall m: nat | m < TWO32 && PlacesAfter(a, b, m)
      ensures m == n
    {}
  }

  lemma BothWays(a: u32, b: u32)
    ensures (b - a) % TWO32 + (a - b) % TWO32 == if a == b then 0 else TWO32
  {}

  lemma OnePlace(last: u32, seqNo: u32)
    ensures PlacesAfter(last, seqNo, 1) <==> seqNo == NextU32(last)
    ensures (seqNo - last) % TWO32 == 1 <==> seqNo == NextU32(last)
  {}

  /** The three ways a page can be numbered after the last one. */
  lemma Numbering(last: u32, seqNo: u32)
    ensures Ahead(seqNo, last) && seqNo != NextU32(last)
       <==> exists n: nat :: 1 < n < 0x8000_0000 && PlacesAfter(last, seqNo, n)
    ensures !Ahead(seqNo, last) <==> exists n: nat :: n <= 0x8000_0000 && PlacesAfter(seqNo, last, n)
  {
    OnePlace(last, seqNo);
    BothWays(last, seqNo);
    var up := PlacesBetween(last, seqNo);
    var down := PlacesBetween(seqNo, last);
  }

  lemma FinishFinds(page: RawPage, m: StreamModel, index: nat, life: seq<Event>, e: Event)
    requires e == Came(page) && !m.eos && !m.tainted && !m.afterEosReported && m.lastSeq == page.seqNo
    requires m.lastGranule == GranuleBefore(life) && !Over(life)
    ensures FinishPage(page, m, index).1 == EndFindings(life, page, index)
    ensures Recalls(FinishPage(page, m, index).0, life + [e])
  {
    LastSnoc(life, e);
    OverSnoc(life, e);
  }

  lemma RebaselineRecalls(page: RawPage, m: StreamModel, life: seq<Event>, e: Event)
    requires e == Came(page) && Recalls(m, life) && !m.eos
    ensures Recalls(Rebaseline(m, page), life + [e])
  {
    LastSnoc(life, e);
    OverSnoc(life, e);
  }

  lemma NextFinds(m: StreamModel, page: RawPage, index: nat, life: seq<Event>, e: Event)
    requires e == Came(page) && Recalls(m, life) && !m.eos
    ensures CheckNext(m, page, index).1 == NextFindings(life, page, index)
    ensures Recalls(CheckNext(m, page, index).0, life + [e])
  {
    Numbering(m.lastSeq, page.seqNo);
    RebaselineRecalls(page, m, life, e);
    if !m.tainted && page.seqNo == NextU32(m.lastSeq) {
      FinishFinds(page, m.(lastSeq := page.seqNo), index, life, e);
    }
  }

  lemma RunningMeans(live: map<u32, StreamModel>, h: seq<Event>)
    requires RecallsAll(live, h)
    ensures AllEnded(live) <==> NoneRunning(h)
    ensures forall s: u32 :: (s in live && !live[s].eos) <==> Running(Life(h, s))
  {
    if AllEnded(live) {
      forall s: u32
        ensures !Running(Life(h, s))
      {}
    } else {
      var s :| s in live && !live[s].eos;
      assert Running(Life(h, s));
    }
  }

  lemma BosFinds(st: State, h: seq<Event>, page: RawPage, index: nat, e: Event)
    requires RecallsAll(st.live, h) && (forall s: u32 :: s in st.live || s in st.finished <==> Met(h, s))
    requires st.linkHasData == DataCame(h) && IsBos(page) && e == Came(page)
    ensures CheckBos(st, page, index).1 == BosFindings(h, page, index)
  {
    RunningMeans(st.live, h);
    FinishFinds(page, NewModel(page), index, [], e);
    assert StillLive(st, page.serial) == Running(Life(h, page.serial));
    assert page.serial in st.live || page.serial in st.finished <==> Met(h, page.serial);
  }

  /** What a BOS page leaves behind. */
  lemma BosLeaves(st: State, h: seq<Event>, page: RawPage, index: nat, e: Event)
    requires RecallsAll(st.live, h) && st.linkHasData == DataCame(h) && IsBos(page) && e == Came(page)
    ensures var r, turns := CheckBos(st, page, index).0, TurnsLink(h, page);
            && r.pages == st.pages && r.links == st.links + (if turns then 1 else 0)
            && r.streams == SaturatingInc(st.streams) && r.linkHasData == (st.linkHasData && !turns)
            && r.finished == (if turns then st.finished + st.live.Keys else st.finished)
            && page.serial in r.live && Recalls(r.live[page.serial], [e])
            && r.live == (if turns then map[] else st.live)[page.serial := r.live[page.serial]]
  {
    RunningMeans(st.live, h);
    FinishFinds(page, NewModel(page), index, [], e);
    assert [] + [e] == [e];
  }

  /** What a data page leaves behind. */
  lemma DataFinds(st: State, h: seq<Event>, page: RawPage, index: nat, e: Event)
    requires RecallsAll(st.live, h) && e == Came(page)
    ensures CheckData(st, page, index).1 == DataFindings(Life(h, page.serial), page, index)
    ensures var r := CheckData(st, page, index).0;
            && r.pages == st.pages && r.links == st.links && r.linkHasData && r.finished == st.finished
            && r.streams == (if Life(h, page.serial) == [] then SaturatingInc(st.streams) else st.streams)
            && page.serial in r.live && Recalls(r.live[page.serial], Life(h, page.serial) + [e])
            && r.live == st.live[page.serial := r.live[page.serial]]
  {
    var life := Life(h, page.serial);
    if life == [] {
      FinishFinds(page, NewModel(page), index, [], e);
    } else if Over(life) {
      LastSnoc(life, e);
      OverSnoc(life, e);
    } else {
      NextFinds(st.live[page.serial], page, index, life, e);
    }
  }

  /** The models after a page: its own stream's, and the others' unless it turns to a new link. */
  lemma RecallsOn(live: map<u32, StreamModel>, live': map<u32, StreamModel>, h: seq<Event>, page: RawPage, e: Event,
          turns: bool)
    requires RecallsAll(live, h) && e == Came(page) && turns == TurnsLink(h, page) && page.serial in live'
    requires Recalls(live'[page.serial], if IsBos(page) then [e] else Life(h, page.serial) + [e])
    requires live' == (if turns then map[] else live)[page.serial := live'[page.serial]]
    ensures RecallsAll(live', h + [e])
  {
    forall s: u32
      ensures s in live' <==> Life(h + [e], s) != []
      ensures s in live' ==> Recalls(live'[s], Life(h + [e], s))
    {
      LifeSnoc(h, e, s);
    }
  }

  lemma MetOn(st: State, r: State, h: seq<Event>, page: RawPage, e: Event)
    requires forall s: u32 :: s in st.live || s in st.finished <==> Met(h, s)
    requires e == Came(page) && page.serial in r.live
    requires forall s: u32 :: s != page.serial ==>
               (s in r.live || s in r.finished <==> s in st.live || s in st.finished)
    ensures forall s: u32 :: s in r.live || s in r.finished <==> Met(h + [e], s)
  {
    forall s: u32
      ensures s in r.live || s in r.finished <==> Met(h + [e], s)
    {
      CameSnoc(h, e, s);
    }
  }

  lemma {:induction false} NoPagesYet(h: seq<Event>)
    requires PageCount(h) == 0
    ensures LinkCount(h) == 0 && !DataCame(h)
  {
    if h != [] {
      NoPagesYet(h[..|h| - 1]);
    }
  }

  /** The totals once a page has been counted. */
  function Numbered(st: State): State { st.(pages := st.pages + 1, links := if st.pages == 0 then 1 else st.links) }

  lemma TotalsFollow(st: State, h: seq<Event>, r: State, page: RawPage, e: Event)
    requires Follows(st, h) && e == Came(page) && r.pages == st.pages + 1
    requires r.links == Numbered(st).links + if TurnsLink(h, page) then 1 else 0
    requires r.linkHasData == (!IsBos(page) || (st.linkHasData && !TurnsLink(h, page)))
    requires r.streams == if Begins(h, page) then SaturatingInc(st.streams) else st.streams
    ensures r.linkHasData == DataCame(h + [e]) && r.pages == PageCount(h + [e])
    ensures r.streams == Min(StreamCount(h + [e]), TWO32 - 1) && r.links == LinkCount(h + [e])
  {
    CountsSnoc(h, e);
    if st.pages == 0 {
      NoPagesYet(h);
    }
  }

  lemma BosMet(st: State, r: State, h: seq<Event>, page: RawPage, e: Event, turns: bool)
    requires forall s: u32 :: s in st.live || s in st.finished <==> Met(h, s)
    requires e == Came(page) && page.serial in r.live
    requires r.finished == if turns then st.finished + st.live.Keys else st.finished
    requires r.live == (if turns then map[] else st.live)[page.serial := r.live[page.serial]]
    ensures forall s: u32 :: s in r.live || s in r.finished <==> Met(h + [e], s)
  {
    MetOn(st, r, h, page, e);
  }

  /** A page is found wanting by the rules, and remembered. */
  lemma BosFollows(st: State, h: seq<Event>, page: RawPage, e: Event)
    requires Follows(st, h) && IsBos(page) && e == Came(page)
    ensures Follows(CheckPage(st, page).0, h + [e])
  {
    var r := CheckBos(Numbered(st), page, st.pages).0;
    BosLeaves(Numbered(st), h, page, st.pages, e);
    RecallsOn(st.live, r.live, h, page, e, TurnsLink(h, page));
    BosMet(st, r, h, page, e, TurnsLink(h, page));
    TotalsFollow(st, h, r, page, e);
  }

  lemma DataFollows(st: State, h: seq<Event>, page: RawPage, e: Event)
    requires Follows(st, h) && !IsBos(page) && e == Came(page)
    ensures CheckPage(st, page).1 == Findings(h, page) && Follows(CheckPage(st, page).0, h + [e])
  {
    var r := CheckData(Numbered(st), page, st.pages).0;
    DataFinds(Numbered(st), h, page, st.pages, e);
    RecallsOn(st.live, r.live, h, page, e, false);
    MetOn(st, r, h, page, e);
    TotalsFollow(st, h, r, page, e);
  }

  lemma PageFollows(st: State, h: seq<Event>, page: RawPage, e: Event)
    requires Follows(st, h) && e == Came(page)
    ensures CheckPage(st, page).1 == Findings(h, page) && Follows(CheckPage(st, page).0, h + [e])
  {
    if IsBos(page) {
      BosFinds(Numbered(st), h, page, st.pages, e);
      BosFollows(st, h, page, e);
    } else {
      DataFollows(st, h, page, e);
    }
  }

  lemma LostRecalls(m: StreamModel, life: seq<Event>, e: Event)
    requires Recalls(m, life) && e.Lost?
    ensures Recalls(m.(tainted := true), life + [e])
  {
    LastSnoc(life, e);
    OverSnoc(life, e);
  }

  lemma LostFollows(st: State, h: seq<Event>, s: u32, e: Event)
    requires Follows(st, h) && e == Lost(s)
    ensures Follows(Taint(st, s), h + [e])
  {
    var r := Taint(st, s);
    forall t: u32
      ensures t in r.live <==> Life(h + [e], t) != []
      ensures t in r.live ==> Recalls(r.live[t], Life(h + [e], t))
    {
      LifeSnoc(h, e, t);
      PlusNil(Life(h, t));
      if t == s && s in st.live {
        LostRecalls(st.live[s], Life(h, s), e);
      }
    }
    forall t: u32
      ensures t in r.live || t in r.finished <==> Met(h + [e], t)
    {
      CameSnoc(h, e, t);
    }
    CountsSnoc(h, e);
  }

  lemma StartFollows()
    ensures Follows(START, [])
  {}

  // ----- any bytes -----

  /** What was found at `pos`, and where the walk went on. */
  datatype Piece = Piece(pos: nat, what: PageAt, end: nat)

  /** A page ends where it says; damage ends where the next valid page starts, or with the input. */
  predicate EndsRight(scan: Scan, piece: Piece)
  {
    && piece.pos < piece.end < |scan| && piece.what == scan[piece.pos]
    && if piece.what.Accepted? then piece.end == piece.what.next
       else
         && (forall i :: piece.pos < i < piece.end ==> !scan[i].Accepted?)
         && (piece.end < |scan| - 1 ==> scan[piece.end].Accepted?)
  }

  /** The pieces cover the input up to `to` without gap or overlap. */
  predicate Tiled(scan: Scan, pieces: seq<Piece>, to: nat)
  {
    if pieces == [] then to == 0
    else
      var front, last := pieces[..|pieces| - 1], pieces[|pieces| - 1];
      last.end == to && EndsRight(scan, last) && Tiled(scan, front, last.pos)
  }

  function EventsIn(piece: Piece): seq<Event>
  {
    match piece.what
    case Accepted(page, _) => if page.version == 0 then [Came(page)] else [Lost(page.serial)]
    case Damaged(serial, _) => [Lost(serial)]
    case NoCapture => []
    case Cut(_, _) => []
  }

  function History(pieces: seq<Piece>): seq<Event>
  {
    if pieces == [] then [] else History(pieces[..|pieces| - 1]) + EventsIn(pieces[|pieces| - 1])
  }

  type Finder = (seq<Event>, RawPage) -> seq<Issue>

  /** What is reported of one piece; of a version-0 page, what `finds` says. */
  function FoundIn(finds: Finder, h: seq<Event>, piece: Piece): seq<Issue>
  {
    match piece.what
    case Accepted(page, _) => if page.version == 0 then finds(h, page) else [At(page, PageCount(h), Version)]
    case Damaged(serial, _) => [Issue(BadCrc, piece.pos, None, Some(serial))]
    case NoCapture => [Issue(CapturePattern, piece.pos, None, None)]
    case Cut(_, _) => [Issue(Truncated, piece.pos, None, None)]
  }

  function Reported(finds: Finder, pieces: seq<Piece>): seq<Issue>
  {
    if pieces == [] then []
    else
      var front := pieces[..|pieces| - 1];
      Reported(finds, front) + FoundIn(finds, History(front), pieces[|pieces| - 1])
  }

  /** The bytes skipped for want of a capture pattern. */
  function Junk(pieces: seq<Piece>): int
  {
    if pieces == [] then 0
    else
      var last := pieces[|pieces| - 1];
      Junk(pieces[..|pieces| - 1]) + if last.what.NoCapture? then last.end - last.pos else 0
  }

  /** `check` reports what `finds` says, in states that follow what has come. */
  ghost predicate Obeys(check: Checker, inv: (State, seq<Event>) -> bool, finds: Finder)
  {
    && (forall st, h, page {:trigger check(st, page), inv(st, h)} :: inv(st, h) ==>
          && check(st, page).1 == finds(h, page) && inv(check(st, page).0, h + [Came(page)])
          && check(st, page).0.junkBytes == st.junkBytes)
    && (forall st, h, s {:trigger inv(Taint(st, s), h + [Lost(s)])} :: inv(st, h) ==> inv(Taint(st, s), h + [Lost(s)]))
    && (forall st, h, n: nat {:trigger inv(st.(junkBytes := n), h)} :: inv(st, h) ==> inv(st.(junkBytes := n), h))
    && (forall st, h :: inv(st, h) ==> st.pages == PageCount(h))
  }

  ghost function Followed(): (State, seq<Event>) -> bool { (st: State, h: seq<Event>) => Follows(st, h) }

  ghost function ByTheRules(): Finder { (h: seq<Event>, page: RawPage) => Findings(h, page) }

  lemma JunkFollows(st: State, h: seq<Event>, n: nat)
    requires Follows(st, h)
    ensures Follows(st.(junkBytes := n), h)
  {}

  lemma CheckPageObeys()
    ensures Obeys(CheckPage, Followed(), ByTheRules())
  {
    forall st, h, page | Followed()(st, h)
      ensures CheckPage(st, page).1 == ByTheRules()(h, page) && Followed()(CheckPage(st, page).0, h + [Came(page)])
      ensures CheckPage(st, page).0.junkBytes == st.junkBytes
    {
      PageFollows(st, h, page, Came(page));
    }
    forall st, h, s | Followed()(st, h)
      ensures Followed()(Taint(st, s), h + [Lost(s)])
    {
      LostFollows(st, h, s, Lost(s));
    }
    forall st, h, n: nat | Followed()(st, h)
      ensures Followed()(st.(junkBytes := n), h)
    {
      JunkFollows(st, h, n);
    }
  }

  /** One turn of the walk is one piece. */
  lemma VisitIsPiece(check: Checker, inv: (State, seq<Event>) -> bool, finds: Finder, at: PageAt, resume: nat, pos: nat,
          st: State, h: seq<Event>, piece: Piece)
    requires Obeys(check, inv, finds) && inv(st, h) && pos < resume
    requires piece == Piece(pos, at, V.Visit(check, at, resume, pos, st).next)
    ensures var v := V.Visit(check, at, resume, pos, st);
            && v.issues == FoundIn(finds, h, piece) && inv(v.st, h + EventsIn(piece))
            && v.st.junkBytes == st.junkBytes + if at.NoCapture? then piece.end - pos else 0
  {
    PlusNil(h);
    assert inv(Taint(st, 0), h + [Lost(0)]);
    match at
    case Accepted(page, _) => assert inv(Taint(st, page.serial), h + [Lost(page.serial)]);
    case Damaged(serial, _) => assert inv(Taint(st, serial), h + [Lost(serial)]);
    case NoCapture => assert inv(st.(junkBytes := st.junkBytes + (resume - pos)), h);
    case Cut(_, _) =>
  }

  /** No page fits in the last four bytes. */
  lemma TailTooShort(data: seq<byte>, i: nat)
    requires i <= |data| && i + 4 > |data|
    ensures !ScanOf(data)[i].Accepted?
  {
    assert !ReadAt(data, i).Accepted?;
  }

  lemma {:induction false} NoneValid(scan: Scan, from: nat)
    requires NextValid(scan, from).None?
    requires forall i :: from <= i < |scan| && i + 4 > |scan| - 1 ==> !scan[i].Accepted?
    ensures forall i :: from <= i < |scan| ==> !scan[i].Accepted?
    decreases |scan| - from
  {
    if from + 4 <= |scan| - 1 {
      NoneValid(scan, from + 1);
    }
  }

  lemma ResumeEnds(data: seq<byte>, scan: Scan, piece: Piece)
    requires scan == ScanOf(data) && piece.pos < |data| && piece.what == scan[piece.pos]
    requires piece.end == if piece.what.Accepted? then piece.what.next else ResumeAt(scan, piece.pos)
    ensures EndsRight(scan, piece)
  {
    if NextValid(scan, piece.pos + 1).None? {
      forall i | piece.pos < i < |scan| && i + 4 > |scan| - 1
        ensures !scan[i].Accepted?
      {
        TailTooShort(data, i);
      }
      NoneValid(scan, piece.pos + 1);
    }
  }

  /** What the pieces so far have come to. */
  ghost predicate SoFar(check: Checker, inv: (State, seq<Event>) -> bool, finds: Finder, data: seq<byte>,
          pieces: seq<Piece>, pos: nat, st: State)
  {
    && pos <= |data| && Tiled(ScanOf(data), pieces, pos) && inv(st, History(pieces)) && st.junkBytes == Junk(pieces)
    && Walk(check, ScanOf(data), 0, START)
    == (Walk(check, ScanOf(data), pos, st).0, Reported(finds, pieces) + Walk(check, ScanOf(data), pos, st).1)
  }

  lemma OnePieceOn(check: Checker, inv: (State, seq<Event>) -> bool, finds: Finder, data: seq<byte>,
          pieces: seq<Piece>, pos: nat, st: State) returns (piece: Piece, v: V.Visited)
    requires Obeys(check, inv, finds) && SoFar(check, inv, finds, data, pieces, pos, st) && pos < |data|
    ensures pos < v.next && SoFar(check, inv, finds, data, pieces + [piece], v.next, v.st)
  {
    var scan := ScanOf(data);
    v := V.Visit(check, scan[pos], ResumeAt(scan, pos), pos, st);
    piece := Piece(pos, scan[pos], v.next);
    V.WalkIsVisits(check, scan, pos, st);
    VisitIsPiece(check, inv, finds, scan[pos], ResumeAt(scan, pos), pos, st, History(pieces), piece);
    ResumeEnds(data, scan, piece);
    UnSnoc(pieces, piece);
    Assoc(Reported(finds, pieces), v.issues, Walk(check, scan, v.next, v.st).1);
  }

  lemma {:induction false} ToTheEnd(check: Checker, inv: (State, seq<Event>) -> bool, finds: Finder, data: seq<byte>,
          before: seq<Piece>, pos: nat, st: State) returns (pieces: seq<Piece>, end: State)
    requires Obeys(check, inv, finds) && SoFar(check, inv, finds, data, before, pos, st)
    ensures SoFar(check, inv, finds, data, pieces, |data|, end)
    decreases |data| - pos
  {
    if pos == |data| {
      pieces, end := before, st;
    } else {
      var piece, v := OnePieceOn(check, inv, finds, data, before, pos, st);
      pieces, end := ToTheEnd(check, inv, finds, data, before + [piece], v.next, v.st);
    }
  }

  predicate Climbs(serials: seq<u32>) { forall i, j :: 0 <= i < j < |serials| ==> serials[i] < serials[j] }

  lemma {:induction false} AscendingMeans(s: set<u32>)
    ensures Climbs(Ascending(s)) && forall x :: x in Ascending(s) <==> x in s
  {
    if s != {} {
      var m, rest := Least(s), Ascending(s - {Least(s)});
      AscendingMeans(s - {m});
      forall i, j | 0 <= i < j < |[m] + rest|
        ensures ([m] + rest)[i] < ([m] + rest)[j]
      {
        assert rest[j - 1] in s - {m};
      }
    }
  }

  /** Exactly the bitstreams still running, by rising serial. */
  ghost predicate StillRunning(h: seq<Event>, serials: seq<u32>)
  {
    Climbs(serials) && forall s: u32 :: s in serials <==> Running(Life(h, s))
  }

  lemma UnclosedAreRunning(st: State, h: seq<Event>)
    requires Follows(st, h)
    ensures StillRunning(h, Ascending(Unclosed(st.live)))
  {
    AscendingMeans(Unclosed(st.live));
    RunningMeans(st.live, h);
    forall s: u32
      ensures s in Ascending(Unclosed(st.live)) <==> Running(Life(h, s))
    {
      assert s in Unclosed(st.live) <==> s in st.live && !st.live[s].eos;
    }
  }

  /**
   The report on any bytes: piece by piece what is wrong with it after the pages before, then a note
   if there was nothing at all, and one for each bitstream that never ended; and what it counts.
   */
  lemma ReportIs(data: seq<byte>) returns (pieces: seq<Piece>, serials: seq<u32>)
    ensures Tiled(ScanOf(data), pieces, |data|) && StillRunning(History(pieces), serials)
    ensures Issues(data)
         == Reported(ByTheRules(), pieces) + When(data == [], Issue(Truncated, 0, None, None))
            + MissingEosIssues(serials, |data|)
    ensures var st, h := Walk(CheckPage, ScanOf(data), 0, START).0, History(pieces);
            && st.pages == PageCount(h) && st.links == LinkCount(h) && st.junkBytes == Junk(pieces)
            && st.streams == Min(StreamCount(h), TWO32 - 1)
  {
    CheckPageObeys();
    StartFollows();
    var check, inv, finds: Finder := CheckPage, Followed(), ByTheRules();
    var scan := ScanOf(data);
    var st: State;
    assert [] + Walk(check, scan, 0, START).1 == Walk(check, scan, 0, START).1;
    pieces, st := ToTheEnd(check, inv, finds, data, [], 0, START);
    PlusNil(Reported(finds, pieces));
    serials := Ascending(Unclosed(st.live));
    UnclosedAreRunning(st, History(pieces));
  }
}
