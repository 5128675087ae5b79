/** The keyframe index the muxer collects while writing, and the page it rewrites in place at the end. */
module AutoIndex {
  import opened Bytes
  import opened Pages
  import opened Segments
  import opened SkeletonIndex

  /** The collector's settings; `gapMs` is over 1000, timestamps are over `denominator`. */
  datatype Config = Config(maxKeypoints: nat, minByteGap: u64, minTimeGapMs: u64)

  /** A page just reached the wire at `offset` and starts a keyframe presented at `timestamp`. */
  datatype Collector = Collector(config: Config, denominator: i64, keypoints: seq<KeyPoint>)

  const MAX_KEYPOINTS := (255 * 255 - 42) / 20

  // ----- which candidates are kept -----

  /** The gap test as the code computes it: the difference of two 64-bit times wraps. */
  predicate FarEnough(c: Collector, last: KeyPoint, next: KeyPoint)
  {
    && last.offset < next.offset && last.timestamp <= next.timestamp
    && next.offset - last.offset >= c.config.minByteGap
    && WrapI64(next.timestamp - last.timestamp) * 1000 >= c.config.minTimeGapMs * c.denominator
  }

  function Offer(c: Collector, kp: KeyPoint): Collector
  {
    if |c.keypoints| >= c.config.maxKeypoints then c
    else if c.keypoints != [] && !FarEnough(c, c.keypoints[|c.keypoints| - 1], kp) then c
    else c.(keypoints := c.keypoints + [kp])
  }

  function OfferAll(c: Collector, offers: seq<KeyPoint>): Collector
  {
    if offers == [] then c else Offer(OfferAll(c, offers[..|offers| - 1]), offers[|offers| - 1])
  }

  /** Two keypoints apart by both configured gaps, in exact arithmetic. */
  predicate Spaced(c: Collector, a: KeyPoint, b: KeyPoint)
  {
    && a.offset < b.offset && a.timestamp <= b.timestamp
    && b.offset - a.offset >= c.config.minByteGap
    && (b.timestamp - a.timestamp) * 1000 >= c.config.minTimeGapMs * c.denominator
  }

  predicate WellSpaced(c: Collector)
  {
    && |c.keypoints| <= c.config.maxKeypoints
    && forall i, j :: 0 <= i < |c.keypoints| && j == i + 1 && j < |c.keypoints| ==>
         Spaced(c, c.keypoints[i], c.keypoints[j])
  }

  /** Wrapping never lets a pair through that is too close. */
  lemma FarIsSpaced(c: Collector, a: KeyPoint, b: KeyPoint)
    requires FarEnough(c, a, b)
    ensures Spaced(c, a, b)
  {
    assert WrapI64(b.timestamp - a.timestamp) <= b.timestamp - a.timestamp;
  }

  /**
   But it does turn some away: a pair apart by both gaps is refused exactly when its times are 2^63 or
   more apart and the wrapped difference falls short.
   */
  lemma SpacedButRefused(c: Collector, a: KeyPoint, b: KeyPoint)
    requires Spaced(c, a, b) && c.denominator > 0
    ensures FarEnough(c, a, b) <==> b.timestamp - a.timestamp < TWO63
  {
    if b.timestamp - a.timestamp >= TWO63 {
      assert WrapI64(b.timestamp - a.timestamp) == b.timestamp - a.timestamp - TWO64;
      NonNegative(c.config.minTimeGapMs, c.denominator);
    }
  }

  /** A collector without gaps to keep, holding one keypoint at the earliest time there is. */
  const EARLIEST := KeyPoint(0, -TWO63)
  const GAPLESS := Collector(Config(2, 0, 0), 1000, [EARLIEST])

  /** It turns away a keypoint at time 0, further on in the file. */
  lemma RefusedAt()
    ensures Spaced(GAPLESS, EARLIEST, KeyPoint(1, 0)) && |GAPLESS.keypoints| < GAPLESS.config.maxKeypoints
    ensures Offer(GAPLESS, KeyPoint(1, 0)) == GAPLESS
  {
    SpacedButRefused(GAPLESS, EARLIEST, KeyPoint(1, 0));
  }

  lemma NonNegative(a: nat, b: nat)
    ensures a * b >= 0
  {}

  lemma OfferKeeps(c: Collector, kp: KeyPoint)
    requires WellSpaced(c)
    ensures WellSpaced(Offer(c, kp)) && c.keypoints <= Offer(c, kp).keypoints
    ensures Offer(c, kp).config == c.config && Offer(c, kp).denominator == c.denominator
  {
    if c.keypoints != [] && FarEnough(c, c.keypoints[|c.keypoints| - 1], kp) {
      FarIsSpaced(c, c.keypoints[|c.keypoints| - 1], kp);
    }
  }

  /** Any run of offers keeps the limit, the order and both gaps; what is collected stays collected. */
  lemma {:induction false} OffersKeep(c: Collector, offers: seq<KeyPoint>)
    requires WellSpaced(c)
    ensures WellSpaced(OfferAll(c, offers)) && c.keypoints <= OfferAll(c, offers).keypoints
    ensures OfferAll(c, offers).config == c.config && OfferAll(c, offers).denominator == c.denominator
  {
    if offers != [] {
      OffersKeep(c, offers[..|offers| - 1]);
      OfferKeeps(OfferAll(c, offers[..|offers| - 1]), offers[|offers| - 1]);
    }
  }

  predicate Subsequence(a: seq<KeyPoint>, b: seq<KeyPoint>)
    decreases |b|
  {
    if b == [] then a == []
    else Subsequence(a, b[..|b| - 1])
         || (a != [] && a[|a| - 1] == b[|b| - 1] && Subsequence(a[..|a| - 1], b[..|b| - 1]))
  }

  /** Only offered keypoints are collected, each at most once and in the order offered. */
  lemma {:induction false} CollectedWereOffered(config: Config, denominator: i64, offers: seq<KeyPoint>)
    ensures Subsequence(OfferAll(Collector(config, denominator, []), offers).keypoints, offers)
  {
    if offers != [] {
      var before := OfferAll(Collector(config, denominator, []), offers[..|offers| - 1]);
      CollectedWereOffered(config, denominator, offers[..|offers| - 1]);
      UnSnoc(before.keypoints, offers[|offers| - 1]);
    }
  }

  /** How many of the offers taken come before offer `k`. */
  function Earlier(taken: seq<nat>, k: nat): (n: nat)
    ensures n <= |taken|
  {
    if taken == [] then 0
    else if taken[|taken| - 1] < k then |taken|
    else Earlier(taken[..|taken| - 1], k)
  }

  /** Far enough from `a` by both gaps, yet less than 2^63 units of time from it. */
  predicate Clear(c: Collector, a: KeyPoint, b: KeyPoint) { Spaced(c, a, b) && b.timestamp - a.timestamp < TWO63 }

  predicate Within(taken: seq<nat>, n: nat) { forall j :: 0 <= j < |taken| ==> taken[j] < n }

  /** There is room for offer `k`, and it is clear of the last offer taken before it. */
  predicate Worth(c: Collector, offers: seq<KeyPoint>, taken: seq<nat>, k: nat)
    requires k < |offers| && Within(taken, |offers|)
  {
    var n := Earlier(taken, k);
    n < c.config.maxKeypoints && (n > 0 ==> Clear(c, offers[taken[n - 1]], offers[k]))
  }

  lemma EarlierOfSnoc(taken: seq<nat>, m: nat, k: nat)
    requires k <= m
    ensures Earlier(taken + [m], k) == Earlier(taken, k)
  {
    UnSnoc(taken, m);
  }

  lemma AllEarlier(taken: seq<nat>, n: nat)
    requires Within(taken, n)
    ensures Earlier(taken, n) == |taken| && n !in taken
  {}

  lemma FarIsClear(c: Collector, a: KeyPoint, b: KeyPoint)
    requires c.denominator > 0
    ensures FarEnough(c, a, b) <==> Clear(c, a, b)
  {
    if FarEnough(c, a, b) {
      FarIsSpaced(c, a, b);
    }
    if Spaced(c, a, b) {
      SpacedButRefused(c, a, b);
    }
  }

  /** `kept` are the offers `taken`, in the order they came. */
  predicate Chosen(offers: seq<KeyPoint>, taken: seq<nat>, kept: seq<KeyPoint>)
  {
    && Within(taken, |offers|) && (forall j, k :: 0 <= j < k < |taken| ==> taken[j] < taken[k])
    && |kept| == |taken| && forall j :: 0 <= j < |kept| ==> kept[j] == offers[taken[j]]
  }

  /** The offers taken are exactly those worth taking. */
  predicate Judged(c: Collector, offers: seq<KeyPoint>, taken: seq<nat>)
  {
    Within(taken, |offers|) && forall k :: 0 <= k < |offers| ==> JudgedAt(c, offers, taken, k)
  }

  /** Offer `k` is taken if and only if it is worth it. */
  predicate JudgedAt(c: Collector, offers: seq<KeyPoint>, taken: seq<nat>, k: nat)
    requires k < |offers| && Within(taken, |offers|)
  {
    k in taken <==> Worth(c, offers, taken, k)
  }

  lemma JudgedOn(c: Collector, offers: seq<KeyPoint>, kp: KeyPoint, taken: seq<nat>, taken': seq<nat>, k: nat)
    requires k < |offers| && Within(taken, |offers|) && JudgedAt(c, offers, taken, k)
    requires taken' == taken || taken' == taken + [|offers|]
    ensures Within(taken', |offers + [kp]|) && JudgedAt(c, offers + [kp], taken', k)
  {
    EarlierOfSnoc(taken, |offers|, k);
  }

  /** The offer on hand is worth taking after `taken`. */
  predicate WorthNow(c: Collector, offers: seq<KeyPoint>, taken: seq<nat>, kp: KeyPoint)
    requires Within(taken, |offers|)
  {
    |taken| < c.config.maxKeypoints && (taken != [] ==> Clear(c, offers[taken[|taken| - 1]], kp))
  }

  lemma JudgedLast(c: Collector, offers: seq<KeyPoint>, kp: KeyPoint, taken: seq<nat>, taken': seq<nat>)
    requires Within(taken, |offers|)
    requires taken' == if WorthNow(c, offers, taken, kp) then taken + [|offers|] else taken
    ensures Within(taken', |offers + [kp]|) && JudgedAt(c, offers + [kp], taken', |offers|)
  {
    var n, all := |offers|, offers + [kp];
    AllEarlier(taken, n);
    EarlierOfSnoc(taken, n, n);
    assert all[n] == kp && (taken != [] ==> all[taken[|taken| - 1]] == offers[taken[|taken| - 1]]);
    assert Worth(c, all, taken', n) == WorthNow(c, offers, taken, kp);
  }

  lemma JudgedSnoc(c: Collector, offers: seq<KeyPoint>, kp: KeyPoint, taken: seq<nat>, taken': seq<nat>)
    requires Judged(c, offers, taken)
    requires taken' == if WorthNow(c, offers, taken, kp) then taken + [|offers|] else taken
    ensures Judged(c, offers + [kp], taken')
  {
    JudgedLast(c, offers, kp, taken, taken');
    forall k | 0 <= k < |offers|
      ensures JudgedAt(c, offers + [kp], taken', k)
    {
      JudgedOn(c, offers, kp, taken, taken', k);
    }
  }

  lemma OfferIsJudged(c: Collector, c1: Collector, offers: seq<KeyPoint>, taken: seq<nat>, kp: KeyPoint)
    requires c1 == c.(keypoints := c1.keypoints) && c.denominator > 0 && Chosen(offers, taken, c1.keypoints)
    ensures Offer(c1, kp).keypoints == if WorthNow(c, offers, taken, kp) then c1.keypoints + [kp] else c1.keypoints
  {
    if taken != [] {
      FarIsClear(c1, c1.keypoints[|taken| - 1], kp);
    }
  }

  lemma ChosenSnoc(offers: seq<KeyPoint>, kp: KeyPoint, taken: seq<nat>, kept: seq<KeyPoint>)
    requires Chosen(offers, taken, kept)
    ensures Chosen(offers + [kp], taken, kept) && Chosen(offers + [kp], taken + [|offers|], kept + [kp])
  {}

  lemma OneMoreOffer(c: Collector, offers: seq<KeyPoint>, kp: KeyPoint, taken: seq<nat>) returns (taken': seq<nat>)
    requires c.denominator > 0 && c.keypoints == []
    requires Chosen(offers, taken, OfferAll(c, offers).keypoints) && Judged(c, offers, taken)
    ensures Chosen(offers + [kp], taken', Offer(OfferAll(c, offers), kp).keypoints)
    ensures Judged(c, offers + [kp], taken')
  {
    var c1 := OfferAll(c, offers);
    OffersKeep(c, offers);
    taken' := if WorthNow(c, offers, taken, kp) then taken + [|offers|] else taken;
    JudgedSnoc(c, offers, kp, taken, taken');
    OfferIsJudged(c, c1, offers, taken, kp);
    ChosenSnoc(offers, kp, taken, c1.keypoints);
  }

  /**
   The keypoints collected over any run of offers: an offer is taken if and only if the collector is not
   full and the offer is clear of the last one taken before it - the first one always is.
   */
  lemma {:induction false} CollectedGreedily(c: Collector, offers: seq<KeyPoint>) returns (taken: seq<nat>)
    requires c.keypoints == [] && c.denominator > 0
    ensures Chosen(offers, taken, OfferAll(c, offers).keypoints) && Judged(c, offers, taken)
  {
    if offers == [] {
      taken := [];
    } else {
      var front, kp := offers[..|offers| - 1], offers[|offers| - 1];
      SplitLast(offers);
      var before := CollectedGreedily(c, front);
      taken := OneMoreOffer(c, front, kp, before);
    }
  }

  lemma {:induction false} SpacedIsRising(c: Collector, i: nat, from: u64)
    requires WellSpaced(c) && i <= |c.keypoints|
    requires i < |c.keypoints| ==> from <= c.keypoints[i].offset
    ensures Rising(from, c.keypoints[i..])
    decreases |c.keypoints| - i
  {
    if i < |c.keypoints| {
      var j := i + 1;
      if j < |c.keypoints| {
        assert Spaced(c, c.keypoints[i], c.keypoints[j]);
      }
      SpacedIsRising(c, j, c.keypoints[i].offset);
      assert c.keypoints[i..][1..] == c.keypoints[j..];
    }
  }

  // ----- the reserved packet -----

  function Reserved(config: Config): nat { PREFIX + 20 * config.maxKeypoints }

  /** `Vec::resize` with zeros: cut short or padded. */
  function Resize(data: seq<byte>, n: nat): (r: seq<byte>)
    ensures |r| == n
  {
    if n <= |data| then data[..n] else data + seq(n - |data|, _ => 0)
  }

  /** The finished packet: the collected keypoints, padded to the reservation. */
  function FinishedPacket(c: Collector, serial: u32, first: i64, last: i64): seq<byte>
  {
    Resize(IndexBytes(Index(serial, c.denominator, first, last, c.keypoints)), Reserved(c.config))
  }

  function PlaceholderPacket(c: Collector, serial: u32): seq<byte>
  {
    Resize(IndexBytes(Index(serial, c.denominator, 0, 0, [])), Reserved(c.config))
  }

  lemma PaddedParses(idx: Index, n: nat)
    requires |IndexBytes(idx)| <= n && |idx.keypoints| < TWO64 && Rising(0, idx.keypoints)
    ensures IndexFrom(Resize(IndexBytes(idx), n)) == Some(idx)
  {
    var padding := seq(n - |IndexBytes(idx)|, _ => 0);
    IndexRoundTrip(idx, padding);
    PlusNil(IndexBytes(idx));
    if n == |IndexBytes(idx)| {
      IndexRoundTrip(idx, []);
    }
  }

  /** The reservation always suffices, and the padded packet reads back as what was collected. */
  lemma ReservationHolds(c: Collector, serial: u32, first: i64, last: i64)
    requires WellSpaced(c) && c.config.maxKeypoints < TWO64
    ensures |IndexBytes(Index(serial, c.denominator, first, last, c.keypoints))| <= Reserved(c.config)
    ensures IndexFrom(FinishedPacket(c, serial, first, last))
        == Some(Index(serial, c.denominator, first, last, c.keypoints))
  {
    var idx := Index(serial, c.denominator, first, last, c.keypoints);
    SpacedIsRising(c, 0, 0);
    assert c.keypoints[0..] == c.keypoints;
    IndexRoundTrip(idx, []);
    PaddedParses(idx, Reserved(c.config));
  }

  // ----- the page it rides on -----

  /** A Skeleton packet on a page of its own. */
  function SkeletonPage(flags: byte, serial: u32, seqNo: u32, packet: seq<byte>): Page
  {
    Page(flags, 0, serial, seqNo, Lace(|packet|), packet)
  }

  /** A packet fits one page exactly when it is shorter than 255 full segments. */
  lemma OnePage(flags: byte, serial: u32, seqNo: u32, packet: seq<byte>)
    ensures WellFormed(SkeletonPage(flags, serial, seqNo, packet)) <==> |packet| < 255 * 255
  {
    LaceMeaning(|packet|);
  }

  /** The limit on keypoints is the exact one: the reservation fits a page up to it and not beyond. */
  lemma LimitIsExact(c: Collector, skeleton: u32, serial: u32, seqNo: u32)
    ensures WellFormed(SkeletonPage(0, skeleton, seqNo, PlaceholderPacket(c, serial)))
       <==> c.config.maxKeypoints <= MAX_KEYPOINTS
  {
    OnePage(0, skeleton, seqNo, PlaceholderPacket(c, serial));
  }

  lemma SameSize(a: seq<byte>, b: seq<byte>, skeleton: u32, seqNo: u32)
    requires |a| == |b|
    ensures Size(SkeletonPage(0, skeleton, seqNo, a)) == Size(SkeletonPage(0, skeleton, seqNo, b))
  {}

  // ----- rewriting pages inside a finished file -----

  /** A page number and the page that is to replace it. */
  datatype Patch = Patch(at: nat, page: Page)

  /** Each patch addresses a page of its own length. */
  predicate Fits(pages: seq<Page>, patches: seq<Patch>)
  {
    forall i :: 0 <= i < |patches| ==>
      patches[i].at < |pages| && Size(patches[i].page) == Size(pages[patches[i].at])
  }

  function Patched(pages: seq<Page>, patches: seq<Patch>): (r: seq<Page>)
    requires Fits(pages, patches)
    ensures |r| == |pages|
  {
    if patches == [] then pages
    else
      var front, last := patches[..|patches| - 1], patches[|patches| - 1];
      Patched(pages, front)[last.at := last.page]
  }

  /** Seek to the offset recorded for the page and write over what is there. */
  function Overwrite(file: seq<byte>, at: nat, bytes: seq<byte>): seq<byte>
  {
    if at + |bytes| <= |file| then Pages.Splice(file, at, bytes)
    else if at <= |file| then file[..at] + bytes
    else file + seq(at - |file|, _ => 0) + bytes
  }

  /** Where page `at` starts in the file as first written. */
  function OffsetOf(pages: seq<Page>, at: nat): nat
    requires at <= |pages|
  {
    TotalSize(pages[..at])
  }

  function Rewritten(file: seq<byte>, pages: seq<Page>, patches: seq<Patch>): seq<byte>
    requires Fits(pages, patches)
  {
    if patches == [] then file
    else
      var front, last := patches[..|patches| - 1], patches[|patches| - 1];
      Overwrite(Rewritten(file, pages, front), OffsetOf(pages, last.at), ToBytes(last.page))
  }

  lemma {:induction false} PatchedSizes(pages: seq<Page>, patches: seq<Patch>, i: nat)
    requires Fits(pages, patches) && i < |pages|
    ensures Size(Patched(pages, patches)[i]) == Size(pages[i])
    decreases |patches|
  {
    if patches != [] {
      PatchedSizes(pages, patches[..|patches| - 1], i);
    }
  }

  lemma {:induction false} SameSizes(a: seq<Page>, b: seq<Page>)
    requires |a| == |b| && forall i :: 0 <= i < |a| ==> Size(a[i]) == Size(b[i])
    ensures TotalSize(a) == TotalSize(b)
  {
    if a != [] {
      SameSizes(a[1..], b[1..]);
    }
  }

  lemma SpliceMiddle(front: seq<byte>, was: seq<byte>, now: seq<byte>, back: seq<byte>)
    requires |was| == |now|
    ensures Pages.Splice(front + was + back, |front|, now) == front + now + back
  {}

  lemma UpdateSplit<T>(s: seq<T>, at: nat, x: T)
    requires at < |s|
    ensures s[at := x] == s[..at] + [x] + s[at + 1..]
  {}

  lemma AroundPage(pages: seq<Page>, at: nat, p: Page)
    requires at < |pages|
    ensures AllBytes(pages[at := p]) == AllBytes(pages[..at]) + ToBytes(p) + AllBytes(pages[at + 1..])
  {
    AllBytesSnoc(pages[..at], p);
    AllBytesConcat(pages[..at] + [p], pages[at + 1..]);
    UpdateSplit(pages, at, p);
  }

  lemma OverwritePage(pages: seq<Page>, at: nat, p: Page, offset: nat)
    requires at < |pages| && Size(p) == Size(pages[at]) && offset == TotalSize(pages[..at])
    ensures Overwrite(AllBytes(pages), offset, ToBytes(p)) == AllBytes(pages[at := p])
  {
    var front, back := AllBytes(pages[..at]), AllBytes(pages[at + 1..]);
    AroundPage(pages, at, pages[at]);
    AroundPage(pages, at, p);
    assert pages[at := pages[at]] == pages;
    SpliceMiddle(front, ToBytes(pages[at]), ToBytes(p), back);
  }

  lemma {:induction false} TakeSameSizes(a: seq<Page>, b: seq<Page>, n: nat)
    requires |a| == |b| && n <= |a| && forall i :: 0 <= i < |a| ==> Size(a[i]) == Size(b[i])
    ensures TotalSize(a[..n]) == TotalSize(b[..n])
  {
    SameSizes(a[..n], b[..n]);
  }

  /** One rewrite, in a file whose earlier pages may have been rewritten already. */
  lemma BackfillOne(pages: seq<Page>, now: seq<Page>, file: seq<byte>, at: nat, p: Page)
    requires |now| == |pages| && forall i :: 0 <= i < |pages| ==> Size(now[i]) == Size(pages[i])
    requires at < |pages| && Size(p) == Size(pages[at]) && file == AllBytes(now)
    ensures Overwrite(file, OffsetOf(pages, at), ToBytes(p)) == AllBytes(now[at := p])
  {
    TakeSameSizes(now, pages, at);
    OverwritePage(now, at, p, OffsetOf(pages, at));
  }

  /**
   Rewriting any number of pages in place at their recorded offsets leaves a file of whole pages: the
   same ones, except those rewritten.
   */
  lemma {:induction false} BackfillIsLocal(pages: seq<Page>, patches: seq<Patch>)
    requires Fits(pages, patches)
    ensures Rewritten(AllBytes(pages), pages, patches) == AllBytes(Patched(pages, patches))
    decreases |patches|
  {
    if patches != [] {
      var front, last := patches[..|patches| - 1], patches[|patches| - 1];
      BackfillIsLocal(pages, front);
      forall i | 0 <= i < |pages| ensures Size(Patched(pages, front)[i]) == Size(pages[i]) {
        PatchedSizes(pages, front, i);
      }
      BackfillOne(pages, Patched(pages, front), Rewritten(AllBytes(pages), pages, front), last.at, last.page);
    }
  }

  /** What the index page holds once the offers are in: it fits, keeps its length, and reads back. */
  lemma FinishedReadsBack(config: Config, denominator: i64, serial: u32, skeleton: u32, seqNo: u32,
                          offers: seq<KeyPoint>, first: i64, last: i64)
    requires config.maxKeypoints <= MAX_KEYPOINTS
    ensures var start := Collector(config, denominator, []);
            var c := OfferAll(start, offers);
            var finished := SkeletonPage(0, skeleton, seqNo, FinishedPacket(c, serial, first, last));
            && WellFormed(finished)
            && Size(finished) == Size(SkeletonPage(0, skeleton, seqNo, PlaceholderPacket(start, serial)))
            && IndexFrom(finished.data) == Some(Index(serial, denominator, first, last, c.keypoints))
  {
    var start := Collector(config, denominator, []);
    var c := OfferAll(start, offers);
    OffersKeep(start, offers);
    ReservationHolds(c, serial, first, last);
    OnePage(0, skeleton, seqNo, FinishedPacket(c, serial, first, last));
    SameSize(PlaceholderPacket(start, serial), FinishedPacket(c, serial, first, last), skeleton, seqNo);
  }

  /**
   The whole life of one index page: reserved up front as page `at`, rewritten at trailer time. The file
   is the same pages with that one replaced, and it now holds exactly what was collected.
   */
  lemma IndexPageRewritten(pages: seq<Page>, at: nat, config: Config, denominator: i64, serial: u32, skeleton: u32,
                           seqNo: u32, offers: seq<KeyPoint>, first: i64, last: i64, finished: Page, file: seq<byte>)
    requires at < |pages| && config.maxKeypoints <= MAX_KEYPOINTS && file == AllBytes(pages)
    requires pages[at]
        == SkeletonPage(0, skeleton, seqNo, PlaceholderPacket(Collector(config, denominator, []), serial))
    requires finished.data == FinishedPacket(OfferAll(Collector(config, denominator, []), offers), serial, first, last)
    requires finished == SkeletonPage(0, skeleton, seqNo, finished.data)
    ensures Overwrite(file, OffsetOf(pages, at), ToBytes(finished)) == AllBytes(pages[at := finished])
    ensures |AllBytes(pages[at := finished])| == |file| && WellFormed(finished)
    ensures IndexFrom(finished.data) == Some(Index(serial, denominator, first, last,
              OfferAll(Collector(config, denominator, []), offers).keypoints))
  {
    FinishedReadsBack(config, denominator, serial, skeleton, seqNo, offers, first, last);
    BackfillOne(pages, pages, file, at, finished);
    SameSizes(pages, pages[at := finished]);
  }

  // ----- the collector as the muxer keeps it -----

  class AutoIndexState {
    const serial: u32
    const denominator: i64
    const config: Config
    var keypoints: seq<KeyPoint>
    var firstTs: Option<i64>
    var lastTs: Option<i64>

    function State(): Collector
      reads this
    {
      Collector(config, denominator, keypoints)
    }

    constructor (serial: u32, denominator: i64, config: Config)
      ensures this.serial == serial && State() == Collector(config, denominator, [])
      ensures firstTs == None && lastTs == None
    {
      this.serial, this.denominator, this.config := serial, denominator, config;
      keypoints, firstTs, lastTs := [], None, None;
    }

    method NotePts(ts: i64)
      modifies this`firstTs, this`lastTs
      ensures firstTs == if old(firstTs).None? then Some(ts) else old(firstTs)
      ensures lastTs == Some(ts)
    {
      if firstTs.None? {
        firstTs := Some(ts);
      }
      lastTs := Some(ts);
    }

    method OfferKeypoint(offset: u64, ts: i64)
      modifies this`keypoints
      ensures State() == Offer(old(State()), KeyPoint(offset, ts))
    {
      if |keypoints| >= config.maxKeypoints {
        return;
      }
      if keypoints != [] {
        var last := keypoints[|keypoints| - 1];
        if offset <= last.offset || ts < last.timestamp {
          return;
        }
        if offset - last.offset < config.minByteGap {
          return;
        }
        var dt := WrapI64(ts - last.timestamp);
        if dt * 1000 < config.minTimeGapMs * denominator {
          return;
        }
      }
      keypoints := keypoints + [KeyPoint(offset, ts)];
    }

    /** The packet rewritten at trailer time. */
    method Finish() returns (data: seq<byte>)
      ensures data == FinishedPacket(State(), serial, if firstTs.Some? then firstTs.value else 0,
                                     if lastTs.Some? then lastTs.value else 0)
    {
      var first := if firstTs.Some? then firstTs.value else 0;
      var last := if lastTs.Some? then lastTs.value else 0;
      data := WriteIndex(Index(serial, denominator, first, last, keypoints));
      var reserved := Reserved(config);
      data := Resize(data, reserved);
    }
  }
}
