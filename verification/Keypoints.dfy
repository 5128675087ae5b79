/**
 The keyframe index over a muxer run: each page on the wire that is noted with a keyframe is offered
 at its byte offset, and what is collected leads back to those pages in the finished file.
 */
module Keypoints {
  import opened Bytes
  import opened Pages
  import opened Grammar
  import opened Muxing
  import opened MuxWire
  import opened KeyNotes
  import opened SkeletonIndex
  import opened AutoIndex
  import Framing
  import MuxHistory
  import MuxKeys
  import MuxStamps
  import MuxTheorems
  import RoundTrip

  /** A released page offered: which it is on the wire and in its stream, where it begins, and its time. */
  datatype Candidate = Candidate(at: nat, page: nat, offset: nat, time: i64)

  /** A time over the stream's time base, kept within 64 bits. */
  function Scaled(pts: i64, num: i64): i64 { Max(-TWO63, Min(pts * num, TWO63 - 1)) }

  /** What the page `p` offers when it goes on the wire after `base` and `front`. */
  function Latest(base: seq<Page>, front: seq<Page>, p: Page, serial: u32, notes: seq<Option<i64>>, start: nat,
          num: i64): seq<Candidate>
  {
    var n := |Proj(base + front, serial)|;
    if p.serial == serial && n < |notes| && notes[n].Some?
    then [Candidate(|front|, n, start + TotalSize(front), Scaled(notes[n].value, num))] else []
  }

  /**
   The pages `q` go on the wire after `base`, the first at byte `start`; `notes` are those of the pages
   of `serial`, in the order of the stream.
   */
  function Candidates(base: seq<Page>, q: seq<Page>, serial: u32, notes: seq<Option<i64>>, start: nat,
          num: i64): seq<Candidate>
  {
    if q == [] then []
    else
      var front, p := q[..|q| - 1], q[|q| - 1];
      Candidates(base, front, serial, notes, start, num) + Latest(base, front, p, serial, notes, start, num)
  }

  /** `c` is page `c.at` of those released, noted with a time. */
  predicate Offered(base: seq<Page>, q: seq<Page>, serial: u32, notes: seq<Option<i64>>, start: nat, num: i64,
          c: Candidate)
  {
    && c.at < |q| && q[c.at].serial == serial && c.page == |Proj(base + q[..c.at], serial)|
    && c.page < |notes| && notes[c.page].Some? && c.time == Scaled(notes[c.page].value, num)
    && c.offset == start + TotalSize(q[..c.at])
  }

  lemma OfferedLater(base: seq<Page>, front: seq<Page>, p: Page, serial: u32, notes: seq<Option<i64>>, start: nat,
          num: i64, c: Candidate)
    requires c.at < |front|
    ensures Offered(base, front + [p], serial, notes, start, num, c)
         == Offered(base, front, serial, notes, start, num, c)
  {
    var q := front + [p];
    assert q[..c.at] == front[..c.at] && q[c.at] == front[c.at];
  }

  lemma LatestMeans(base: seq<Page>, front: seq<Page>, p: Page, serial: u32, notes: seq<Option<i64>>, start: nat,
          num: i64, c: Candidate)
    ensures c in Latest(base, front, p, serial, notes, start, num)
       <==> c.at == |front| && Offered(base, front + [p], serial, notes, start, num, c)
  {
    var q := front + [p];
    assert q[..|front|] == front && q[|front|] == p;
  }

  /** Exactly the noted pages of the stream are offered. */
  lemma {:induction false} CandidatesMean(base: seq<Page>, q: seq<Page>, serial: u32, notes: seq<Option<i64>>,
          start: nat, num: i64, c: Candidate)
    ensures c in Candidates(base, q, serial, notes, start, num) <==> Offered(base, q, serial, notes, start, num, c)
  {
    if q != [] {
      var m := |q| - 1;
      var front, p := q[..m], q[m];
      assert front + [p] == q;
      CandidatesMean(base, front, serial, notes, start, num, c);
      LatestMeans(base, front, p, serial, notes, start, num, c);
      if c.at < m {
        OfferedLater(base, front, p, serial, notes, start, num, c);
      }
      InEither(Candidates(base, front, serial, notes, start, num),
               Latest(base, front, p, serial, notes, start, num), c);
    }
  }

  lemma InEither<T>(a: seq<T>, b: seq<T>, x: T)
    ensures x in a + b <==> x in a || x in b
  {}

  predicate AllBelow(cs: seq<Candidate>, limit: nat) { forall k :: 0 <= k < |cs| ==> cs[k].offset < limit }

  function KeyPointsOf(cs: seq<Candidate>): (r: seq<KeyPoint>)
    requires AllBelow(cs, TWO64)
    ensures |r| == |cs| && forall k :: 0 <= k < |r| ==> r[k] == KeyPoint(cs[k].offset, cs[k].time)
  {
    seq(|cs|, k requires 0 <= k < |cs| => KeyPoint(cs[k].offset, cs[k].time))
  }

  lemma {:induction false} SizeOfPrefix(q: seq<Page>, n: nat)
    requires n <= |q|
    ensures TotalSize(q[..n]) <= TotalSize(q)
  {
    assert q == q[..n] + q[n..];
    AllBytesConcat(q[..n], q[n..]);
  }

  lemma CandidatesFit(base: seq<Page>, q: seq<Page>, serial: u32, notes: seq<Option<i64>>, start: nat, num: i64)
    requires start + TotalSize(q) < TWO64
    ensures AllBelow(Candidates(base, q, serial, notes, start, num), TWO64)
  {
    var cs := Candidates(base, q, serial, notes, start, num);
    forall k | 0 <= k < |cs|
      ensures cs[k].offset < TWO64
    {
      CandidatesMean(base, q, serial, notes, start, num, cs[k]);
      SizeOfPrefix(q, cs[k].at);
    }
  }

  lemma {:induction false} SubsequenceMember(a: seq<KeyPoint>, b: seq<KeyPoint>, x: KeyPoint)
    requires Subsequence(a, b) && x in a
    ensures x in b
    decreases |b|
  {
    if b != [] && !Subsequence(a, b[..|b| - 1]) {
      if x != b[|b| - 1] {
        assert x in a[..|a| - 1];
        SubsequenceMember(a[..|a| - 1], b[..|b| - 1], x);
      }
    } else if b != [] {
      SubsequenceMember(a, b[..|b| - 1], x);
    }
  }

  lemma FromOffset(before: seq<byte>, a: seq<byte>, b: seq<byte>, offset: nat)
    requires offset == |before| + |a|
    ensures (before + (a + b))[offset..] == b
  {}

  lemma PageReads(p: Page, rest: seq<Page>, bytes: seq<byte>)
    requires WellFormed(p) && AllWellFormed(rest) && bytes == AllBytes([p] + rest)
    ensures Parse(bytes) == Ok((p, Size(p)))
  {
    Framing.HeadBytes(p, rest);
    ParseOfToBytes(p, AllBytes(rest));
  }

  /** At a candidate's offset its page is read back, whatever the bytes before the pages. */
  lemma CandidateReads(before: seq<byte>, q: seq<Page>, c: Candidate)
    requires AllWellFormed(q) && c.at < |q| && c.offset == |before| + TotalSize(q[..c.at])
    ensures var file := before + AllBytes(q);
            c.offset <= |file| && Parse(file[c.offset..]) == Ok((q[c.at], Size(q[c.at])))
  {
    var head, p, rest := q[..c.at], q[c.at], q[c.at + 1..];
    assert q == head + ([p] + rest);
    AllBytesConcat(head, [p] + rest);
    FromOffset(before, AllBytes(head), AllBytes([p] + rest), c.offset);
    PageReads(p, rest, AllBytes([p] + rest));
  }

  /** A page released is the next of its stream's pages. */
  lemma ReleasedPage(base: seq<Page>, q: seq<Page>, serial: u32, at: nat, n: nat)
    requires at < |q| && q[at].serial == serial && n == |Proj(base + q[..at], serial)|
    ensures n < |Proj(base + q, serial)| && Proj(base + q, serial)[n] == q[at]
  {
    var upTo, rest := base + q[..at], q[at + 1..];
    assert base + q == (upTo + [q[at]]) + rest;
    ProjConcat(upTo + [q[at]], rest, serial);
    ProjSnoc(upTo, q[at], serial);
  }

  // ----- over a run -----

  /** The run is over: its header section, the pages released since, and one of its streams. */
  predicate Over(infos: seq<StreamInfo>, calls: seq<Call>, i: u32, d: Mux, base: seq<Page>, q: seq<Page>)
  {
    && MuxTheorems.WellUsed(infos, calls) && |infos| < TWO32 && MuxKeys.OneLink(calls) && i in Opened(infos).writers
    && d == FinishLink(After(infos, calls)) && i in d.writers
    && base == MuxHistory.LinkStart(infos, calls).wire && q == PagesOf(d.released)
  }

  lemma TailWellFormed(base: seq<Page>, q: seq<Page>)
    requires AllWellFormed(base + q)
    ensures AllWellFormed(q)
  {
    forall k | 0 <= k < |q|
      ensures WellFormed(q[k])
    {
      assert (base + q)[|base| + k] == q[k];
    }
  }

  lemma OverWire(infos: seq<StreamInfo>, calls: seq<Call>, i: u32, d: Mux, base: seq<Page>, q: seq<Page>)
    requires Over(infos, calls, i, d, base, q)
    ensures d.wire == base + q && AllWellFormed(d.wire)
  {
    RoundTrip.EveryRunIsOrdered(infos, calls, After(infos, calls), d, base);
    RoundTrip.FinalIsTidy(infos, calls, After(infos, calls), d);
    MuxStamps.NeatSerializes(d.wire);
  }

  lemma OverStream(infos: seq<StreamInfo>, calls: seq<Call>, i: u32, d: Mux, base: seq<Page>, q: seq<Page>)
    requires Over(infos, calls, i, d, base, q)
    ensures Proj(d.wire, d.writers[i].serial) == d.writers[i].cut
  {
    MuxKeys.RunTracks(infos, calls, i);
    RoundTrip.EveryPageInTurn(infos, calls, d, i);
  }

  /** What `write_pending_page` offers in the course of the run. */
  function OffersOf(infos: seq<StreamInfo>, calls: seq<Call>, i: u32, d: Mux, base: seq<Page>, q: seq<Page>,
          start: nat, num: i64): seq<Candidate>
    requires Over(infos, calls, i, d, base, q)
  {
    Candidates(base, q, d.writers[i].serial, MuxKeys.FinalNotes(infos, calls, i).pages, start, num)
  }

  /**
   Every keypoint collected over a run stands for a page of its stream: the page is found at its offset in
   the finished file, and its time is that of the first keyframe to end on that page, packet `j` - which
   begins there too if and only if it fits one page. `before` is whatever precedes the data pages.
   */
  lemma CollectedAreKeyframes(infos: seq<StreamInfo>, calls: seq<Call>, i: u32, d: Mux, base: seq<Page>,
          q: seq<Page>, before: seq<byte>, config: Config, denominator: i64, num: i64, cs: seq<Candidate>, kp: KeyPoint)
    returns (c: Candidate, j: nat)
    requires Over(infos, calls, i, d, base, q)
    requires cs == OffersOf(infos, calls, i, d, base, q, |before|, num) && AllBelow(cs, TWO64)
    requires kp in OfferAll(Collector(config, denominator, []), KeyPointsOf(cs)).keypoints
    ensures c in cs && kp == KeyPoint(c.offset, c.time)
    ensures var w, file := d.writers[i], before + AllBytes(q);
            && c.at < |q| && kp.offset <= |file| && Parse(file[kp.offset..]) == Ok((q[c.at], Size(q[c.at])))
            && c.page < |w.cut| && w.cut[c.page] == q[c.at]
    ensures var w, times := d.writers[i], MuxKeys.TimesAfter(infos, calls, i);
            && MuxKeys.FirstKey(w.cut, times, c.page, j) && kp.timestamp == Scaled(times[j].value, num)
            && j < |w.packets| && (BeginsFrom(w.cut, w.packets, j, c.page) <==> |w.packets[j]| < TOO_LONG)
  {
    var w := d.writers[i];
    c := CollectedIsOffered(config, denominator, cs, kp);
    CandidatesMean(base, q, w.serial, MuxKeys.FinalNotes(infos, calls, i).pages, |before|, num, c);
    OverWire(infos, calls, i, d, base, q);
    OverStream(infos, calls, i, d, base, q);
    TailWellFormed(base, q);
    CandidateReads(before, q, c);
    ReleasedPage(base, q, w.serial, c.at, c.page);
    j := MuxKeys.NoteMeans(infos, calls, i, d, c.page);
  }

  lemma CollectedIsOffered(config: Config, denominator: i64, cs: seq<Candidate>, kp: KeyPoint) returns (c: Candidate)
    requires AllBelow(cs, TWO64)
    requires kp in OfferAll(Collector(config, denominator, []), KeyPointsOf(cs)).keypoints
    ensures c in cs && kp == KeyPoint(c.offset, c.time)
  {
    var offers := KeyPointsOf(cs);
    CollectedWereOffered(config, denominator, offers);
    SubsequenceMember(OfferAll(Collector(config, denominator, []), offers).keypoints, offers, kp);
    var k :| 0 <= k < |offers| && offers[k] == kp;
    c := cs[k];
  }
}
