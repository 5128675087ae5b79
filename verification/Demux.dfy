/**
 The demuxer's page processing over interleaved logical bitstreams: one reassembly per serial,
 link numbering, header capture and delivery, for linear reading without a Skeleton stream.
 */
module Demux {
  import opened Bytes
  import opened Pages
  import opened Segments
  import Validation
  import opened Grammar
  import F = Framing
  import R = Reassembly
  import Loss
  import PreRegistered
  import DamageMarks
  import Splice

  datatype LogicalStream = LogicalStream(re: R.Stream, link: nat, headersRemaining: nat, headerPackets: seq<Packet>)

  /** A content packet handed to the caller; `unitBoundary` marks the last one ending on its page. */
  datatype Delivered = Delivered(serial: u32, data: Packet, unitBoundary: bool)

  datatype State = State(
    streams: map<u32, LogicalStream>,
    nextLink: nat,
    seenNonBos: bool,
    holes: nat,
    framingErrors: nat,
    duplicates: nat,
    out: seq<Delivered>)

  const START := State(map[], 0, false, 0, 0, 0, [])

  /** How many header packets the codec of an identification packet has. */
  type HeaderCount = Packet -> nat

  /** The page's first packet, as much of it as the page holds. */
  function FirstFragment(page: Page): Packet
  {
    var fed := Feed(FRESH, PageSegs(page));
    if fed.packets != [] then fed.packets[0] else fed.pending
  }

  predicate IsDuplicate(d: State, page: Page)
  {
    page.serial in d.streams && d.streams[page.serial].re.bosProcessed
  }

  /** A BOS page of a new or repeated bitstream after data pages opens the next link. */
  function TurnLink(d: State, page: Page): State
  {
    if (page.serial !in d.streams || IsDuplicate(d, page)) && d.seenNonBos
    then d.(nextLink := Validation.SaturatingInc(d.nextLink), seenNonBos := false)
    else d
  }

  function Registered(headersOf: HeaderCount, page: Page, link: nat): LogicalStream
  {
    LogicalStream(R.REGISTERED.(bosProcessed := true), link,
                  if PageSegs(page) == [] then 0 else headersOf(FirstFragment(page)), [])
  }

  /** BOS bookkeeping: register, restart, or mark as seen. */
  function EnterBos(headersOf: HeaderCount, d: State, page: Page): State
  {
    var s := page.serial;
    var d1 := TurnLink(d, page);
    if s !in d.streams then
      if PageSegs(page) == [] then d1 else d1.(streams := d.streams[s := Registered(headersOf, page, d1.nextLink)])
    else if IsDuplicate(d, page) then
      d1.(streams := d.streams[s := Registered(headersOf, page, d1.nextLink)], duplicates := d.duplicates + 1)
    else
      d1.(streams := d.streams[s := d.streams[s].(re := d.streams[s].re.(bosProcessed := true))])
  }

  function Deliveries(serial: u32, packets: seq<Packet>): seq<Delivered>
  {
    seq(|packets|, i requires 0 <= i < |packets| => Delivered(serial, packets[i], i == |packets| - 1))
  }

  /** Header packets still wanted are kept back, the rest is delivered. */
  function TakeIn(d: State, page: Page): State
    requires page.serial in d.streams
  {
    var s := page.serial;
    var l := d.streams[s];
    var (re, e) := R.Absorb(l.re, page);
    var h := Min(l.headersRemaining, |e.packets|);
    d.(streams := d.streams[s := LogicalStream(re, l.link, l.headersRemaining - h, l.headerPackets + e.packets[..h])],
       holes := d.holes + R.Count(e.hole),
       framingErrors := d.framingErrors + R.Count(e.framingError),
       out := d.out + Deliveries(s, e.packets[h..]))
  }

  /** `process_page`; an unregistrable BOS page is refused, other pages of unknown serials skipped. */
  function ProcessPage(headersOf: HeaderCount, d: State, page: Page): State
  {
    var d1 := if IsFirst(page) then EnterBos(headersOf, d, page) else d.(seenNonBos := true);
    if page.serial in d1.streams then TakeIn(d1, page) else d1
  }

  /** The error return: a BOS page with no segment cannot be registered. */
  predicate Refuses(d: State, page: Page)
  {
    IsFirst(page) && page.serial !in d.streams && PageSegs(page) == []
  }

  function ProcessAll(headersOf: HeaderCount, ps: seq<Page>): State
  {
    if ps == [] then START else ProcessPage(headersOf, ProcessAll(headersOf, ps[..|ps| - 1]), ps[|ps| - 1])
  }

  /** Pages coming in when some streams may be registered already, by a scan of the file for instance. */
  function ProcessFrom(headersOf: HeaderCount, d: State, ps: seq<Page>): State
  {
    if ps == [] then d else ProcessPage(headersOf, ProcessFrom(headersOf, d, ps[..|ps| - 1]), ps[|ps| - 1])
  }

  // ----- each serial on its own -----

  function KnownAs(d: State, s: u32): Option<R.Stream>
  {
    if s in d.streams then Some(d.streams[s].re) else None
  }

  /** The content packets delivered for one serial. */
  function DataOf(out: seq<Delivered>, s: u32): seq<Packet>
  {
    if out == [] then []
    else
      var last := out[|out| - 1];
      DataOf(out[..|out| - 1], s) + if last.serial == s then [last.data] else []
  }

  lemma {:induction false} DataConcat(a: seq<Delivered>, b: seq<Delivered>, s: u32)
    ensures DataOf(a + b, s) == DataOf(a, s) + DataOf(b, s)
  {
    if b == [] {
      assert a + b == a;
    } else {
      ConcatFront(a, b);
      DataConcat(a, b[..|b| - 1], s);
      Assoc(DataOf(a, s), DataOf(b[..|b| - 1], s), if b[|b| - 1].serial == s then [b[|b| - 1].data] else []);
    }
  }

  lemma {:induction false} DataIs(out: seq<Delivered>, s: u32, t: u32, packets: seq<Packet>)
    requires |out| == |packets| && forall i :: 0 <= i < |out| ==> out[i].serial == s && out[i].data == packets[i]
    ensures DataOf(out, t) == if s == t then packets else []
  {
    if out != [] {
      var front := packets[..|packets| - 1];
      DataIs(out[..|out| - 1], s, t, front);
      assert front + [packets[|packets| - 1]] == packets;
    }
  }

  /** What one page means to the serial it belongs to, in one step of that serial's reassembly. */
  lemma OwnStep(headersOf: HeaderCount, d: State, page: Page)
    ensures var d' := ProcessPage(headersOf, d, page);
            var (known, e) := R.Process(KnownAs(d, page.serial), page);
            && KnownAs(d', page.serial) == known
            && d'.holes == d.holes + R.Count(e.hole)
            && d'.framingErrors == d.framingErrors + R.Count(e.framingError)
            && d'.duplicates == d.duplicates + R.Count(e.duplicate)
            && Refuses(d, page) == e.refused
  {}

  lemma DeliveriesOf(serial: u32, packets: seq<Packet>, out: seq<Delivered>, s: u32)
    ensures DataOf(out + Deliveries(serial, packets), s) == DataOf(out, s) + if s == serial then packets else []
  {
    DataIs(Deliveries(serial, packets), serial, s, packets);
    DataConcat(out, Deliveries(serial, packets), s);
  }

  lemma TakeInElsewhere(d: State, page: Page, s: u32)
    requires page.serial in d.streams && s != page.serial
    ensures var d' := TakeIn(d, page);
            && (s in d'.streams <==> s in d.streams) && (s in d.streams ==> d'.streams[s] == d.streams[s])
            && DataOf(d'.out, s) == DataOf(d.out, s)
  {
    var l := d.streams[page.serial];
    var e := R.Absorb(l.re, page).1;
    DeliveriesOf(page.serial, e.packets[Min(l.headersRemaining, |e.packets|)..], d.out, s);
    PlusNil(DataOf(d.out, s));
  }

  /** No other serial notices. */
  lemma OthersUnchanged(headersOf: HeaderCount, d: State, page: Page, s: u32)
    requires s != page.serial
    ensures var d' := ProcessPage(headersOf, d, page);
            && (s in d'.streams <==> s in d.streams) && (s in d.streams ==> d'.streams[s] == d.streams[s])
            && DataOf(d'.out, s) == DataOf(d.out, s)
  {
    var d1 := if IsFirst(page) then EnterBos(headersOf, d, page) else d.(seenNonBos := true);
    if page.serial in d1.streams {
      TakeInElsewhere(d1, page, s);
    }
  }

  // ----- a whole run, serial by serial -----

  /** The header count read off the page that registered the stream `q`. */
  function HeaderTotal(headersOf: HeaderCount, q: seq<Page>): nat
  {
    if q == [] then 0
    else
      var front, last := q[..|q| - 1], q[|q| - 1];
      if R.RunOf(front).known.None? && IsFirst(last) && PageSegs(last) != [] then headersOf(FirstFragment(last))
      else HeaderTotal(headersOf, front)
  }

  /**
   Serial `s` stands where the reassembly `r` of its own pages does; of its packets the first
   `total` were kept as headers and the rest delivered, as long as the serial was not reused.
   */
  predicate Mirrors(d: State, s: u32, r: R.Run, total: nat)
  {
    var data := DataOf(d.out, s);
    && KnownAs(d, s) == r.known
    && (r.known.None? ==> r.packets == [] && data == [] && r.duplicates == 0)
    && (forall x :: x in data ==> x in r.packets)
    && (r.known.Some? && r.duplicates == 0 ==>
          var n := Min(total, |r.packets|);
          var l := d.streams[s];
          l.headerPackets == r.packets[..n] && data == r.packets[n..] && l.headersRemaining == total - n)
  }

  lemma SplitOn(packets: seq<Packet>, more: seq<Packet>, total: nat)
    ensures var n, n' := Min(total, |packets|), Min(total, |packets + more|);
            var h := Min(total - n, |more|);
            && n' == n + h
            && (packets + more)[..n'] == packets[..n] + more[..h] && (packets + more)[n'..] == packets[n..] + more[h..]
  {}

  lemma TakeInOwn(d: State, page: Page)
    requires page.serial in d.streams
    ensures var l := d.streams[page.serial];
            var (re, e) := R.Absorb(l.re, page);
            var h := Min(l.headersRemaining, |e.packets|);
            var d' := TakeIn(d, page);
            && d'.streams[page.serial].headerPackets == l.headerPackets + e.packets[..h]
            && d'.streams[page.serial].headersRemaining == l.headersRemaining - h
            && DataOf(d'.out, page.serial) == DataOf(d.out, page.serial) + e.packets[h..]
  {
    var l := d.streams[page.serial];
    var e := R.Absorb(l.re, page).1;
    DeliveriesOf(page.serial, e.packets[Min(l.headersRemaining, |e.packets|)..], d.out, page.serial);
  }

  /** Taking in a page splits its packets between headers and deliveries. */
  lemma TakeInMirrors(d: State, page: Page, packets: seq<Packet>, total: nat)
    requires page.serial in d.streams
    requires var n := Min(total, |packets|);
             var l := d.streams[page.serial];
             && l.headerPackets == packets[..n] && DataOf(d.out, page.serial) == packets[n..]
             && l.headersRemaining == total - n
    ensures var d' := TakeIn(d, page);
            var all := packets + R.Absorb(d.streams[page.serial].re, page).1.packets;
            var n := Min(total, |all|);
            var l := d'.streams[page.serial];
            && l.headerPackets == all[..n] && DataOf(d'.out, page.serial) == all[n..] && l.headersRemaining == total - n
  {
    TakeInOwn(d, page);
    SplitOn(packets, R.Absorb(d.streams[page.serial].re, page).1.packets, total);
  }

  lemma TakeInDelivers(d: State, page: Page, packets: seq<Packet>)
    requires page.serial in d.streams && forall x :: x in DataOf(d.out, page.serial) ==> x in packets
    ensures var all := packets + R.Absorb(d.streams[page.serial].re, page).1.packets;
            forall x :: x in DataOf(TakeIn(d, page).out, page.serial) ==> x in all
  {
    TakeInOwn(d, page);
  }

  lemma OwnMirrors(headersOf: HeaderCount, d: State, page: Page, r: R.Run, total: nat, total': nat)
    requires Mirrors(d, page.serial, r, total)
    requires total'
        == if r.known.None? && IsFirst(page) && PageSegs(page) != [] then headersOf(FirstFragment(page)) else total
    ensures Mirrors(ProcessPage(headersOf, d, page), page.serial, R.Advance(r, page), total')
  {
    OwnStep(headersOf, d, page);
    PlusNil(r.packets);
    var d1 := if IsFirst(page) then EnterBos(headersOf, d, page) else d.(seenNonBos := true);
    if page.serial in d1.streams {
      TakeInDelivers(d1, page, r.packets);
      if R.Advance(r, page).duplicates == 0 {
        TakeInMirrors(d1, page, r.packets, total');
      }
    }
  }

  lemma ElsewhereMirrors(headersOf: HeaderCount, d: State, page: Page, s: u32, r: R.Run, total: nat)
    requires Mirrors(d, s, r, total) && s != page.serial
    ensures Mirrors(ProcessPage(headersOf, d, page), s, r, total)
  {
    OthersUnchanged(headersOf, d, page, s);
  }

  /** However its pages are interleaved with others', a serial fares as it would on its own. */
  lemma {:induction false} RunMirrors(headersOf: HeaderCount, ps: seq<Page>, s: u32)
    ensures Mirrors(ProcessAll(headersOf, ps), s, R.RunOf(Proj(ps, s)), HeaderTotal(headersOf, Proj(ps, s)))
  {
    if ps != [] {
      var front, p := ps[..|ps| - 1], ps[|ps| - 1];
      var q := Proj(front, s);
      var d := ProcessAll(headersOf, front);
      RunMirrors(headersOf, front, s);
      if p.serial == s {
        UnSnoc(q, p);
        OwnMirrors(headersOf, d, p, R.RunOf(q), HeaderTotal(headersOf, q), HeaderTotal(headersOf, q + [p]));
      } else {
        PlusNil(q);
        ElsewhereMirrors(headersOf, d, p, s, R.RunOf(q), HeaderTotal(headersOf, q));
      }
    }
  }

  lemma MirrorsAll(d: State, s: u32, r: R.Run, total: nat)
    requires Mirrors(d, s, r, total) && r.known.Some?
    ensures s in d.streams && forall x :: x in DataOf(d.out, s) ==> x in r.packets
    ensures r.duplicates == 0 ==> d.streams[s].headerPackets + DataOf(d.out, s) == r.packets
  {
    var n := Min(total, |r.packets|);
    assert r.packets[..n] + r.packets[n..] == r.packets;
  }

  // ----- the damage counters of a file -----

  predicate AllDiffer(serials: seq<u32>) { forall i, j :: 0 <= i < j < |serials| ==> serials[i] != serials[j] }

  predicate Among(ps: seq<Page>, serials: seq<u32>) { forall k :: 0 <= k < |ps| ==> ps[k].serial in serials }

  function TotalOf(serials: seq<u32>, count: u32 -> nat): nat
  {
    if serials == [] then 0 else TotalOf(serials[..|serials| - 1], count) + count(serials[|serials| - 1])
  }

  lemma {:induction false} TotalMoves(serials: seq<u32>, before: u32 -> nat, after: u32 -> nat, s: u32, more: nat)
    requires AllDiffer(serials) && after(s) == before(s) + more
    requires forall t :: t in serials && t != s ==> after(t) == before(t)
    ensures TotalOf(serials, after) == TotalOf(serials, before) + if s in serials then more else 0
  {
    if serials != [] {
      var front, last := serials[..|serials| - 1], serials[|serials| - 1];
      assert serials == front + [last];
      TotalMoves(front, before, after, s, more);
    }
  }

  /** The damage each serial's own pages show. */
  function HolesOf(ps: seq<Page>): u32 -> nat { (s: u32) => R.RunOf(Proj(ps, s)).holes }

  function FramingErrorsOf(ps: seq<Page>): u32 -> nat { (s: u32) => R.RunOf(Proj(ps, s)).framingErrors }

  function DuplicatesOf(ps: seq<Page>): u32 -> nat { (s: u32) => R.RunOf(Proj(ps, s)).duplicates }

  lemma OneRunFurther(front: seq<Page>, p: Page, ps: seq<Page>, s: u32)
    requires ps == front + [p]
    ensures R.RunOf(Proj(ps, s))
         == if s == p.serial then R.Advance(R.RunOf(Proj(front, s)), p) else R.RunOf(Proj(front, s))
  {
    ProjSnoc(front, p, s);
    R.RunSnoc(R.IDLE, Proj(front, s), p);
    PlusNil(Proj(front, s));
  }

  lemma TotalsMove(front: seq<Page>, p: Page, ps: seq<Page>, serials: seq<u32>, e: R.Effect)
    requires ps == front + [p] && AllDiffer(serials) && p.serial in serials
    requires e == R.Process(R.RunOf(Proj(front, p.serial)).known, p).1
    ensures TotalOf(serials, HolesOf(ps)) == TotalOf(serials, HolesOf(front)) + R.Count(e.hole)
    ensures TotalOf(serials, FramingErrorsOf(ps)) == TotalOf(serials, FramingErrorsOf(front)) + R.Count(e.framingError)
    ensures TotalOf(serials, DuplicatesOf(ps)) == TotalOf(serials, DuplicatesOf(front)) + R.Count(e.duplicate)
  {
    forall t
      ensures R.RunOf(Proj(ps, t))
           == if t == p.serial then R.Advance(R.RunOf(Proj(front, t)), p) else R.RunOf(Proj(front, t))
    {
      OneRunFurther(front, p, ps, t);
    }
    TotalMoves(serials, HolesOf(front), HolesOf(ps), p.serial, R.Count(e.hole));
    TotalMoves(serials, FramingErrorsOf(front), FramingErrorsOf(ps), p.serial, R.Count(e.framingError));
    TotalMoves(serials, DuplicatesOf(front), DuplicatesOf(ps), p.serial, R.Count(e.duplicate));
  }

  lemma {:induction false} NoPagesNoDamage(serials: seq<u32>)
    ensures TotalOf(serials, HolesOf([])) == TotalOf(serials, FramingErrorsOf([])) == 0
    ensures TotalOf(serials, DuplicatesOf([])) == 0
  {
    if serials != [] {
      NoPagesNoDamage(serials[..|serials| - 1]);
    }
  }

  /** Whatever pages come in, the file's damage is that of its serials taken one by one. */
  lemma {:induction false} DamageAddsUp(headersOf: HeaderCount, ps: seq<Page>, serials: seq<u32>)
    requires AllDiffer(serials) && Among(ps, serials)
    ensures var d := ProcessAll(headersOf, ps);
            && d.holes == TotalOf(serials, HolesOf(ps))
            && d.framingErrors == TotalOf(serials, FramingErrorsOf(ps))
            && d.duplicates == TotalOf(serials, DuplicatesOf(ps))
  {
    if ps == [] {
      NoPagesNoDamage(serials);
    } else {
      var front, p := ps[..|ps| - 1], ps[|ps| - 1];
      assert ps == front + [p];
      DamageAddsUp(headersOf, front, serials);
      RunMirrors(headersOf, front, p.serial);
      OwnStep(headersOf, ProcessAll(headersOf, front), p);
      TotalsMove(front, p, ps, serials, R.Process(R.RunOf(Proj(front, p.serial)).known, p).1);
    }
  }

  // ----- pages lost from a file -----

  /** Which pages of `s` got through. */
  function KeptOf(ps: seq<Page>, keep: seq<bool>, s: u32): (r: seq<bool>)
    requires |keep| == |ps|
    ensures |r| == |Proj(ps, s)|
  {
    if ps == [] then []
    else
      var n := |ps| - 1;
      KeptOf(ps[..n], keep[..n], s) + if ps[n].serial == s then [keep[n]] else []
  }

  lemma ReceivedSnoc(q: seq<Page>, keep: seq<bool>, p: Page, b: bool)
    requires |keep| == |q|
    ensures Loss.Received(q + [p], keep + [b]) == Loss.Received(q, keep) + if b then [p] else []
  {
    UnSnoc(q, p);
    UnSnoc(keep, b);
  }

  /** Losing pages from the file loses them from each stream. */
  lemma {:induction false} ReceivedOf(ps: seq<Page>, keep: seq<bool>, s: u32)
    requires |keep| == |ps|
    ensures Proj(Loss.Received(ps, keep), s) == Loss.Received(Proj(ps, s), KeptOf(ps, keep, s))
  {
    if ps != [] {
      var n := |ps| - 1;
      var front, p, some := ps[..n], ps[n], Loss.Received(ps[..n], keep[..n]);
      ReceivedOf(front, keep[..n], s);
      ProjSnoc(some, p, s);
      PlusNil(some);
      PlusNil(Proj(front, s));
      PlusNil(KeptOf(front, keep[..n], s));
      PlusNil(Proj(some, s));
      ReceivedSnoc(Proj(front, s), KeptOf(front, keep[..n], s), p, keep[n]);
    }
  }

  /**
   Drop any pages of an interleaved file. A stream that lost no first page gives up exactly the
   packets some page of which is gone, whatever the other streams lost.
   */
  lemma FileLossExactness(headersOf: HeaderCount, ps: seq<Page>, keep: seq<bool>, s: u32, q: seq<Page>, kept: seq<bool>)
    requires |keep| == |ps| && q == Proj(ps, s) && kept == KeptOf(ps, keep, s)
    requires Loss.Numbered(q) && F.Contiguous(q) && q != [] && kept[0]
    ensures var d := ProcessAll(headersOf, Loss.Received(ps, keep));
            && s in d.streams
            && d.streams[s].headerPackets + DataOf(d.out, s) == Loss.Survivors(Loss.TrackPages(q).done, kept)
  {
    var some, own := Loss.Received(ps, keep), Loss.Received(q, kept);
    ReceivedOf(ps, keep, s);
    Loss.LossInStep(q, kept);
    RunMirrors(headersOf, some, s);
    MirrorsAll(ProcessAll(headersOf, some), s, R.RunOf(own), HeaderTotal(headersOf, own));
  }

  /** Per serial: the gaps received pages follow, and the continuations orphaned without one. */
  function GapsOf(ps: seq<Page>, keep: seq<bool>): u32 -> nat
    requires |keep| == |ps|
  {
    (s: u32) => Loss.Gaps(KeptOf(ps, keep, s))
  }

  function OrphansOf(ps: seq<Page>, keep: seq<bool>): u32 -> nat
    requires |keep| == |ps|
  {
    (s: u32) => Loss.Orphans(Proj(ps, s), KeptOf(ps, keep, s))
  }

  lemma {:induction false} TotalAgrees(serials: seq<u32>, a: u32 -> nat, b: u32 -> nat)
    requires forall s :: s in serials ==> a(s) == b(s)
    ensures TotalOf(serials, a) == TotalOf(serials, b)
  {
    if serials != [] {
      TotalAgrees(serials[..|serials| - 1], a, b);
    }
  }

  /** Pages of the serial are numbered from 0 and marked as they should be, and the first got through. */
  predicate LosesLater(ps: seq<Page>, keep: seq<bool>, s: u32)
    requires |keep| == |ps|
  {
    var q := Proj(ps, s);
    Loss.Numbered(q) && F.Contiguous(q) && (q != [] ==> KeptOf(ps, keep, s)[0])
  }

  lemma StreamDamage(ps: seq<Page>, keep: seq<bool>, some: seq<Page>, s: u32)
    requires |keep| == |ps| && some == Loss.Received(ps, keep) && LosesLater(ps, keep, s)
    ensures HolesOf(some)(s) == GapsOf(ps, keep)(s) && FramingErrorsOf(some)(s) == OrphansOf(ps, keep)(s)
    ensures DuplicatesOf(some)(s) == 0
  {
    ReceivedOf(ps, keep, s);
    Loss.LossExactness(Proj(ps, s), KeptOf(ps, keep, s));
  }

  lemma {:induction false} ReceivedAmong(ps: seq<Page>, keep: seq<bool>, serials: seq<u32>)
    requires |keep| == |ps| && Among(ps, serials)
    ensures Among(Loss.Received(ps, keep), serials)
  {
    if ps != [] {
      var n := |ps| - 1;
      var some := Loss.Received(ps[..n], keep[..n]);
      ReceivedAmong(ps[..n], keep[..n], serials);
      assert Loss.Received(ps, keep) == some + if keep[n] then [ps[n]] else [];
      PlusNil(some);
    }
  }

  lemma {:induction false} TotalNone(serials: seq<u32>, count: u32 -> nat)
    requires forall s :: s in serials ==> count(s) == 0
    ensures TotalOf(serials, count) == 0
  {
    if serials != [] {
      TotalNone(serials[..|serials| - 1], count);
    }
  }

  /**
   The counters of a file that lost pages: as many holes as its streams have gaps that a received page
   follows, and as many framing errors as they have orphaned continuations without a gap in front.
   */
  lemma FileDamage(headersOf: HeaderCount, ps: seq<Page>, keep: seq<bool>, serials: seq<u32>)
    requires |keep| == |ps| && AllDiffer(serials) && Among(ps, serials)
    requires forall s :: s in serials ==> LosesLater(ps, keep, s)
    ensures var d := ProcessAll(headersOf, Loss.Received(ps, keep));
            && d.holes == TotalOf(serials, GapsOf(ps, keep))
            && d.framingErrors == TotalOf(serials, OrphansOf(ps, keep)) && d.duplicates == 0
  {
    var some := Loss.Received(ps, keep);
    ReceivedAmong(ps, keep, serials);
    DamageAddsUp(headersOf, some, serials);
    forall s | s in serials
      ensures HolesOf(some)(s) == GapsOf(ps, keep)(s) && FramingErrorsOf(some)(s) == OrphansOf(ps, keep)(s)
      ensures DuplicatesOf(some)(s) == 0
    {
      StreamDamage(ps, keep, some, s);
    }
    TotalAgrees(serials, HolesOf(some), GapsOf(ps, keep));
    TotalAgrees(serials, FramingErrorsOf(some), OrphansOf(ps, keep));
    TotalNone(serials, DuplicatesOf(some));
  }

  // ----- the damage counters of any file -----

  /** The pages of `s` from the one on that registers it. */
  function LiveOf(ps: seq<Page>, s: u32): seq<Page> { DamageMarks.Live(Proj(ps, s)) }

  /** Of those, the ones that leave a gap behind them, are wrong about the packet under way, or repeat the BOS. */
  ghost function HoleMarksOf(ps: seq<Page>): u32 -> nat
  {
    (s: u32) => DamageMarks.Tally(|LiveOf(ps, s)|, DamageMarks.Holes(LiveOf(ps, s)))
  }

  ghost function MismatchesOf(ps: seq<Page>): u32 -> nat
  {
    (s: u32) => DamageMarks.Tally(|LiveOf(ps, s)|, DamageMarks.Mismatches(LiveOf(ps, s)))
  }

  ghost function RepeatsOf(ps: seq<Page>): u32 -> nat
  {
    (s: u32) => DamageMarks.Tally(|LiveOf(ps, s)|, DamageMarks.Repeats(LiveOf(ps, s)))
  }

  /** Whatever pages come in, the file's counters are the marks its serials' own pages show. */
  lemma MarksAddUp(headersOf: HeaderCount, ps: seq<Page>, serials: seq<u32>)
    requires AllDiffer(serials) && Among(ps, serials)
    ensures var d := ProcessAll(headersOf, ps);
            && d.holes == TotalOf(serials, HoleMarksOf(ps))
            && d.framingErrors == TotalOf(serials, MismatchesOf(ps))
            && d.duplicates == TotalOf(serials, RepeatsOf(ps))
  {
    DamageAddsUp(headersOf, ps, serials);
    forall s | s in serials
      ensures HolesOf(ps)(s) == HoleMarksOf(ps)(s) && FramingErrorsOf(ps)(s) == MismatchesOf(ps)(s)
      ensures DuplicatesOf(ps)(s) == RepeatsOf(ps)(s)
    {
      DamageMarks.OwnMarksAreCounted(Proj(ps, s));
    }
    TotalAgrees(serials, HolesOf(ps), HoleMarksOf(ps));
    TotalAgrees(serials, FramingErrorsOf(ps), MismatchesOf(ps));
    TotalAgrees(serials, DuplicatesOf(ps), RepeatsOf(ps));
  }

  // ----- what one page delivers -----

  /** Only the last one is marked: the next one comes off another page. */
  predicate LastMarked(more: seq<Delivered>)
  {
    forall i :: 0 <= i < |more| ==> (more[i].unitBoundary <==> i == |more| - 1)
  }

  lemma DeliveriesAre(serial: u32, packets: seq<Packet>, h: nat, more: seq<Delivered>)
    requires h <= |packets| && more == Deliveries(serial, packets[h..])
    ensures LastMarked(more) && |more| == |packets| - h
    ensures forall i :: 0 <= i < |more| ==> more[i].serial == serial && more[i].data == packets[|packets| - |more| + i]
  {}

  lemma TakeInOut(d: State, page: Page, packets: seq<Packet>) returns (h: nat)
    requires page.serial in d.streams && packets == R.Absorb(d.streams[page.serial].re, page).1.packets
    ensures h <= |packets| && TakeIn(d, page).out == d.out + Deliveries(page.serial, packets[h..])
  {
    h := Min(d.streams[page.serial].headersRemaining, |packets|);
  }

  lemma AbsorbedPackets(headersOf: HeaderCount, d: State, page: Page, packets: seq<Packet>)
    requires packets == R.Process(KnownAs(d, page.serial), page).1.packets
    ensures var d1 := if IsFirst(page) then EnterBos(headersOf, d, page) else d.(seenNonBos := true);
            && d1.out == d.out
            && if page.serial in d1.streams then R.Absorb(d1.streams[page.serial].re, page).1.packets == packets
               else ProcessPage(headersOf, d, page) == d1
  {}

  /** A page delivers packets of its own stream, the last ones to end on it, and marks the last. */
  lemma PageDelivers(headersOf: HeaderCount, d: State, page: Page, packets: seq<Packet>) returns (more: seq<Delivered>)
    requires packets == R.Process(KnownAs(d, page.serial), page).1.packets
    ensures ProcessPage(headersOf, d, page).out == d.out + more && LastMarked(more) && |more| <= |packets|
    ensures forall i :: 0 <= i < |more| ==>
              more[i].serial == page.serial && more[i].data == packets[|packets| - |more| + i]
  {
    var d1 := if IsFirst(page) then EnterBos(headersOf, d, page) else d.(seenNonBos := true);
    AbsorbedPackets(headersOf, d, page, packets);
    if page.serial in d1.streams {
      var h := TakeInOut(d1, page, packets);
      more := Deliveries(page.serial, packets[h..]);
      DeliveriesAre(page.serial, packets, h, more);
    } else {
      more := [];
      PlusNil(d.out);
    }
  }

  /** Two streams that differ in their link only take a page in alike. */
  lemma TakeInAlike(a: State, b: State, page: Page, s: u32)
    requires s == page.serial && s in a.streams && s in b.streams
    requires a.streams[s] == b.streams[s].(link := a.streams[s].link) && DataOf(b.out, s) == []
    ensures var a', b' := TakeIn(a, page).streams[s], TakeIn(b, page).streams[s];
            a' == b'.(link := a'.link) && a'.link == a.streams[s].link
    ensures DataOf(TakeIn(a, page).out, s) == DataOf(a.out, s) + DataOf(TakeIn(b, page).out, s)
  {
    TakeInOwn(a, page);
    TakeInOwn(b, page);
  }

  lemma EnteredAgain(headersOf: HeaderCount, d: State, page: Page, s: u32)
    requires s == page.serial && IsFirst(page) && IsDuplicate(d, page) && PageSegs(page) != []
    ensures var again, anew := EnterBos(headersOf, d, page), EnterBos(headersOf, START, page);
            && s in again.streams && s in anew.streams && again.streams[s] == anew.streams[s].(link := again.nextLink)
            && again.streams[s].link == again.nextLink && again.out == d.out && anew.out == []
  {}

  /** A stream whose BOS page comes again fares from there as one registered by that page. */
  lemma RestartIsFresh(headersOf: HeaderCount, d: State, page: Page, s: u32)
    requires s == page.serial && IsFirst(page) && IsDuplicate(d, page) && PageSegs(page) != []
    ensures var again, anew := ProcessPage(headersOf, d, page), ProcessPage(headersOf, START, page);
            && s in again.streams && s in anew.streams
            && again.streams[s] == anew.streams[s].(link := again.nextLink)
            && DataOf(again.out, s) == DataOf(d.out, s) + DataOf(anew.out, s)
  {
    EnteredAgain(headersOf, d, page, s);
    TakeInAlike(EnterBos(headersOf, d, page), EnterBos(headersOf, START, page), page, s);
  }

  // ----- BOS pages without a segment -----

  lemma {:induction false} EmptyBosRun(q: seq<Page>)
    requires forall k :: 0 <= k < |q| && IsFirst(q[k]) ==> PageSegs(q[k]) == []
    ensures R.RunOf(q) == R.IDLE
  {
    if q != [] {
      EmptyBosRun(q[..|q| - 1]);
      PlusNil(R.IDLE.packets);
    }
  }

  /**
   A stream whose BOS page has no segment is never registered: its BOS page is refused, all its
   pages are skipped and nothing of it is delivered, though the validator has nothing against it.
   */
  lemma EmptyBosIsLost(headersOf: HeaderCount, ps: seq<Page>, s: u32, q: seq<Page>)
    requires q == Proj(ps, s) && forall k :: 0 <= k < |q| && IsFirst(q[k]) ==> PageSegs(q[k]) == []
    ensures var d := ProcessAll(headersOf, ps);
            && s !in d.streams && DataOf(d.out, s) == []
            && forall p: Page :: p.serial == s && IsFirst(p) ==> (Refuses(d, p) <==> PageSegs(p) == [])
  {
    EmptyBosRun(q);
    RunMirrors(headersOf, ps, s);
  }

  const EMPTY_STREAM := Page(FIRST_PAGE + LAST_PAGE, -1, 7, 0, [], [])

  lemma ProjOne(p: Page, s: u32)
    ensures Proj([p], s) == if s == p.serial then [p] else []
  {
    ProjSnoc([], p, s);
    assert [] + [p] == [p];
  }

  lemma OnePageCloses(p: Page)
    requires IsLast(p)
    ensures AllClosed([p])
  {
    forall s | Proj([p], s) != []
      ensures Closed(Proj([p], s))
    {
      ProjOne(p, s);
    }
  }

  lemma OnePageConforms(p: Page)
    requires MayFollow([], p)
    ensures Conforms([p])
  {
    ConformsSnoc([], p);
    assert [] + [p] == [p];
  }

  /** Such a stream may be all there is to a file the validator finds nothing wrong with. */
  lemma EmptyBosIsPhysical(headersOf: HeaderCount, ps: seq<Page>)
    requires ps == [EMPTY_STREAM]
    ensures Physical(ps) && WellFormed(EMPTY_STREAM) && 7 !in ProcessAll(headersOf, ps).streams
  {
    OnePageConforms(EMPTY_STREAM);
    OnePageCloses(EMPTY_STREAM);
    RunIsPhysical(ps);
    EmptyBosIsLost(headersOf, ps, 7, Proj(ps, 7));
  }

  // ----- no splicing across serials -----

  lemma GenuineEach(l: Splice.Layout, packets: seq<Packet>, spans: seq<Splice.Span>)
    requires Splice.AllGenuine(l, packets, spans)
    ensures forall x :: x in packets ==> exists span :: Splice.Genuine(l, x, span)
  {
    forall x | x in packets
      ensures exists span :: Splice.Genuine(l, x, span)
    {
      var i :| 0 <= i < |packets| && packets[i] == x;
      assert Splice.Genuine(l, x, spans[i]);
    }
  }

  lemma CompletedAreGenuine(q: seq<Page>, l: Splice.Layout)
    requires l == Splice.LayoutOf(q)
    ensures forall x :: x in R.RunOf(q).packets ==> exists span :: Splice.Genuine(l, x, span)
  {
    var spans := Splice.NoSplice(q);
    GenuineEach(l, R.RunOf(q).packets, spans);
  }

  /** Whatever pages come in, in whatever order, each packet delivered for `s` is genuine in `s`'s own pages. */
  lemma DeliveredAreGenuine(headersOf: HeaderCount, ps: seq<Page>, s: u32, l: Splice.Layout)
    requires l == Splice.LayoutOf(Proj(ps, s))
    ensures forall x :: x in DataOf(ProcessAll(headersOf, ps).out, s) ==> exists span :: Splice.Genuine(l, x, span)
  {
    RunMirrors(headersOf, ps, s);
    CompletedAreGenuine(Proj(ps, s), l);
  }

  /** A serial registered ahead fares as its own pages do from that state on. */
  lemma {:induction false} RegisteredMirrors(headersOf: HeaderCount, d: State, ps: seq<Page>, s: u32, r: R.Run,
          total: nat)
    requires Mirrors(d, s, r, total) && r.known.Some?
    ensures Mirrors(ProcessFrom(headersOf, d, ps), s, R.RunFrom(r, Proj(ps, s)), total)
    ensures R.RunFrom(r, Proj(ps, s)).known.Some?
  {
    if ps != [] {
      var front, p := ps[..|ps| - 1], ps[|ps| - 1];
      var q, d' := Proj(front, s), ProcessFrom(headersOf, d, front);
      RegisteredMirrors(headersOf, d, front, s, r, total);
      if p.serial == s {
        R.RunSnoc(r, q, p);
        OwnMirrors(headersOf, d', p, R.RunFrom(r, q), total, total);
      } else {
        PlusNil(q);
        ElsewhereMirrors(headersOf, d', p, s, R.RunFrom(r, q), total);
      }
    }
  }

  /** Serial `s` is registered, its BOS page still to come and none of its packets out. */
  predicate Awaits(d: State, s: u32)
  {
    && s in d.streams && DataOf(d.out, s) == [] && d.streams[s].headerPackets == []
    && PreRegistered.Awaiting(RunFor(d, s))
  }

  /** The reassembly of `s` alone, from where it stands. */
  function RunFor(d: State, s: u32): R.Run { R.Run(KnownAs(d, s), [], 0, 0, 0) }

  lemma AwaitsMirrors(d: State, s: u32)
    requires Awaits(d, s)
    ensures Mirrors(d, s, RunFor(d, s), d.streams[s].headersRemaining)
  {}

  /** Its headers and then the packets delivered are those of its own pages, unless the serial is reused. */
  lemma RegisteredDelivers(headersOf: HeaderCount, d: State, ps: seq<Page>, s: u32, r: R.Run, d': State)
    requires Awaits(d, s) && r == R.RunFrom(RunFor(d, s), Proj(ps, s)) && d' == ProcessFrom(headersOf, d, ps)
    ensures s in d'.streams && forall x :: x in DataOf(d'.out, s) ==> x in r.packets
    ensures r.duplicates == 0 ==> d'.streams[s].headerPackets + DataOf(d'.out, s) == r.packets
  {
    var total := d.streams[s].headersRemaining;
    AwaitsMirrors(d, s);
    RegisteredMirrors(headersOf, d, ps, s, RunFor(d, s), total);
    MirrorsAll(d', s, r, total);
  }

  lemma UnsplicedAreGenuine(r0: R.Run, q: seq<Page>, l: Splice.Layout)
    requires PreRegistered.Awaiting(r0) && l == Splice.LayoutOf(q) && !PreRegistered.Spliced(q)
    ensures forall x :: x in R.RunFrom(r0, q).packets ==> exists span :: Splice.Genuine(l, x, span)
  {
    PreRegistered.RegisteredIsExact(r0, q, l);
    var spans :| Splice.AllGenuine(l, R.RunFrom(r0, q).packets, spans) && Splice.InOrder(spans, |l.segs|);
    GenuineEach(l, R.RunFrom(r0, q).packets, spans);
  }

  /**
   With `s` registered ahead every packet delivered is genuine unless one under way goes on over
   the stream's first BOS page; headers and packets all are, in order, only then, unless the serial is reused.
   */
  lemma RegisteredAreGenuine(headersOf: HeaderCount, d: State, ps: seq<Page>, s: u32, q: seq<Page>, l: Splice.Layout)
    requires Awaits(d, s) && q == Proj(ps, s) && l == Splice.LayoutOf(q)
    ensures s in ProcessFrom(headersOf, d, ps).streams
    ensures !PreRegistered.Spliced(q) ==>
              forall x :: x in DataOf(ProcessFrom(headersOf, d, ps).out, s) ==>
                exists span :: Splice.Genuine(l, x, span)
    ensures R.RunFrom(RunFor(d, s), q).duplicates == 0 ==>
              var d' := ProcessFrom(headersOf, d, ps);
              var all := d'.streams[s].headerPackets + DataOf(d'.out, s);
              PreRegistered.AllAreGenuine(l, all) <==> !PreRegistered.Spliced(q)
  {
    var r0 := RunFor(d, s);
    RegisteredDelivers(headersOf, d, ps, s, R.RunFrom(r0, q), ProcessFrom(headersOf, d, ps));
    PreRegistered.RegisteredIsExact(r0, q, l);
    if !PreRegistered.Spliced(q) {
      UnsplicedAreGenuine(r0, q, l);
    }
  }

  // ----- quiet serials make a quiet run -----

  predicate Quiet(r: R.Run) { r.holes == r.framingErrors == r.duplicates == 0 }

  lemma {:induction false} QuietPrefix(q: seq<Page>, p: Page)
    requires Quiet(R.RunOf(q + [p]))
    ensures Quiet(R.RunOf(q))
  {
    R.RunSnoc(R.IDLE, q, p);
  }

  /** The damage counters stay at zero when every serial's own do. */
  lemma {:induction false} QuietRun(headersOf: HeaderCount, ps: seq<Page>)
    requires forall s :: Quiet(R.RunOf(Proj(ps, s)))
    ensures var d := ProcessAll(headersOf, ps); d.holes == d.framingErrors == d.duplicates == 0
  {
    if ps != [] {
      var front, p := ps[..|ps| - 1], ps[|ps| - 1];
      assert ps == front + [p];
      forall s
        ensures Quiet(R.RunOf(Proj(front, s)))
      {
        ProjSnoc(front, p, s);
        if s == p.serial {
          QuietPrefix(Proj(front, s), p);
        } else {
          PlusNil(Proj(front, s));
        }
      }
      QuietRun(headersOf, front);
      RunMirrors(headersOf, front, p.serial);
      OwnStep(headersOf, ProcessAll(headersOf, front), p);
      R.RunSnoc(R.IDLE, Proj(front, p.serial), p);
      assert Quiet(R.RunOf(Proj(ps, p.serial)));
    }
  }

  // ----- link numbers -----

  /** Each serial met is registered if its BOS page could be; streams not yet ended are in the current link. */
  ghost predicate LinkOf(d: State, s: u32, q: seq<Page>)
  {
    && (s in d.streams <==> q != [] && PageSegs(q[0]) != [])
    && (s in d.streams ==> d.streams[s].re.bosProcessed && (Closed(q) || d.streams[s].link == d.nextLink))
  }

  predicate FiledUnder(d: State, s: u32, link: nat)
  {
    s in d.streams ==> d.streams[s].re.bosProcessed && d.streams[s].link == link
  }

  ghost predicate InLinks(d: State, ps: seq<Page>)
  {
    && d.nextLink == Max(|Links(ps)| - 1, 0)
    && d.seenNonBos == DataBegun(ps)
    && d.duplicates == 0
    && forall s :: LinkOf(d, s, Proj(ps, s))
  }

  lemma LinksSnoc(ps: seq<Page>, p: Page)
    ensures |Links(ps + [p])| == |Links(ps)| + if OpensLink(ps, p) then 1 else 0
    ensures DataBegun(ps + [p]) == !IsFirst(p)
  {
    UnSnoc(ps, p);
  }

  lemma BosLink(headersOf: HeaderCount, d: State, ps: seq<Page>, p: Page)
    requires InLinks(d, ps) && Admits(ps, p) && IsFirst(p) && |Links(ps + [p])| <= TWO32
    ensures var d' := ProcessPage(headersOf, d, p);
            && d'.nextLink == |Links(ps + [p])| - 1 && !d'.seenNonBos && d'.duplicates == 0
            && (d'.nextLink == d.nextLink || forall s :: Proj(ps, s) != [] ==> Closed(Proj(ps, s)))
            && FiledUnder(d', p.serial, d'.nextLink)
            && (p.serial in d'.streams <==> if IsFirst(p) then PageSegs(p) != [] else p.serial in d.streams)
  {
    LinksSnoc(ps, p);
    assert LinkOf(d, p.serial, Proj(ps, p.serial));
  }

  lemma DataLink(headersOf: HeaderCount, d: State, ps: seq<Page>, p: Page)
    requires InLinks(d, ps) && Admits(ps, p) && !IsFirst(p)
    ensures var d' := ProcessPage(headersOf, d, p);
            && d'.nextLink == d.nextLink == |Links(ps + [p])| - 1 && d'.seenNonBos && d'.duplicates == 0
            && FiledUnder(d', p.serial, d'.nextLink)
            && (p.serial in d'.streams <==> if IsFirst(p) then PageSegs(p) != [] else p.serial in d.streams)
  {
    LinksSnoc(ps, p);
    assert LinkOf(d, p.serial, Proj(ps, p.serial));
  }

  /** The page's own stream is filed under the current link, which is the validator's. */
  lemma OwnLink(headersOf: HeaderCount, d: State, ps: seq<Page>, p: Page)
    requires InLinks(d, ps) && Admits(ps, p) && |Links(ps + [p])| <= TWO32
    ensures var d' := ProcessPage(headersOf, d, p);
            && d'.nextLink == |Links(ps + [p])| - 1 && d'.seenNonBos == DataBegun(ps + [p]) && d'.duplicates == 0
            && (d'.nextLink == d.nextLink || forall s :: Proj(ps, s) != [] ==> Closed(Proj(ps, s)))
            && FiledUnder(d', p.serial, d'.nextLink)
            && (p.serial in d'.streams <==> if IsFirst(p) then PageSegs(p) != [] else p.serial in d.streams)
  {
    LinksSnoc(ps, p);
    if IsFirst(p) {
      BosLink(headersOf, d, ps, p);
    } else {
      DataLink(headersOf, d, ps, p);
    }
  }

  lemma OtherLink(headersOf: HeaderCount, d: State, d': State, ps: seq<Page>, p: Page, s: u32)
    requires d' == ProcessPage(headersOf, d, p) && s != p.serial && LinkOf(d, s, Proj(ps, s))
    requires d'.nextLink == d.nextLink || (Proj(ps, s) != [] ==> Closed(Proj(ps, s)))
    ensures LinkOf(d', s, Proj(ps + [p], s))
  {
    ProjSnoc(ps, p, s);
    OthersUnchanged(headersOf, d, p, s);
    PlusNil(Proj(ps, s));
  }

  lemma SameLink(d: State, d': State, q: seq<Page>, p: Page)
    requires LinkOf(d, p.serial, q) && FiledUnder(d', p.serial, d'.nextLink)
    requires p.serial in d'.streams <==> if IsFirst(p) then PageSegs(p) != [] else p.serial in d.streams
    requires q == [] <==> IsFirst(p)
    ensures LinkOf(d', p.serial, q + [p])
  {}

  lemma LinkStep(headersOf: HeaderCount, d: State, ps: seq<Page>, p: Page)
    requires InLinks(d, ps) && Admits(ps, p) && |Links(ps + [p])| <= TWO32
    ensures InLinks(ProcessPage(headersOf, d, p), ps + [p])
    ensures FiledUnder(ProcessPage(headersOf, d, p), p.serial, |Links(ps + [p])| - 1)
  {
    var d' := ProcessPage(headersOf, d, p);
    OwnLink(headersOf, d, ps, p);
    forall s
      ensures LinkOf(d', s, Proj(ps + [p], s))
    {
      assert LinkOf(d, s, Proj(ps, s));
      if s != p.serial {
        OtherLink(headersOf, d, d', ps, p, s);
      } else {
        ProjSnoc(ps, p, s);
        SameLink(d, d', Proj(ps, s), p);
      }
    }
  }

  /**
   On pages in order, granules aside, the reader is in the link the validator counts, every page's stream
   is filed under it if it could be registered, and no serial is taken for a repeated one.
   */
  lemma {:induction false} LinksAgree(headersOf: HeaderCount, ps: seq<Page>)
    requires Orderly(ps) && |Links(ps)| <= TWO32
    ensures InLinks(ProcessAll(headersOf, ps), ps)
    ensures ps != [] ==> FiledUnder(ProcessAll(headersOf, ps), ps[|ps| - 1].serial, |Links(ps)| - 1)
  {
    if ps != [] {
      var front, p := ps[..|ps| - 1], ps[|ps| - 1];
      assert ps == front + [p];
      LinksSnoc(front, p);
      LinksAgree(headersOf, front);
      LinkStep(headersOf, ProcessAll(headersOf, front), front, p);
    }
  }

  /** The BOS pages that come right after a data page. */
  function TurnCount(ps: seq<Page>): nat
  {
    if ps == [] then 0
    else
      var front, last := ps[..|ps| - 1], ps[|ps| - 1];
      TurnCount(front) + if IsFirst(last) && DataBegun(front) then 1 else 0
  }

  function LinkNumber(ps: seq<Page>): nat { Min(TurnCount(ps), TWO32 - 1) }

  /** The link of the latest BOS page of `s` that registers it, or comes after one that did. */
  function LatestLink(ps: seq<Page>, s: u32): Option<nat>
  {
    if ps == [] then None
    else
      var front, last := ps[..|ps| - 1], ps[|ps| - 1];
      if last.serial == s && IsFirst(last) && (PageSegs(last) != [] || LatestLink(front, s).Some?)
      then Some(LinkNumber(ps)) else LatestLink(front, s)
  }

  predicate FiledRight(d: State, ps: seq<Page>, s: u32)
  {
    && (s in d.streams <==> LatestLink(ps, s).Some?)
    && (s in d.streams ==> d.streams[s].re.bosProcessed && d.streams[s].link == LatestLink(ps, s).value)
  }

  /** A stream registered ahead stays where it was filed when its BOS page comes, and no link begins with it. */
  lemma ExpectedBosStays(headersOf: HeaderCount, d: State, page: Page, s: u32)
    requires s == page.serial && s in d.streams && !d.streams[s].re.bosProcessed && IsFirst(page)
    ensures var d' := ProcessPage(headersOf, d, page);
            && d'.nextLink == d.nextLink && d'.seenNonBos == d.seenNonBos && d'.duplicates == d.duplicates
            && s in d'.streams && d'.streams[s].link == d.streams[s].link && d'.streams[s].re.bosProcessed
  {
    var d1 := EnterBos(headersOf, d, page);
    assert d1.streams[s] == d.streams[s].(re := d.streams[s].re.(bosProcessed := true));
  }

  lemma LinkTurns(headersOf: HeaderCount, d: State, front: seq<Page>, p: Page, ps: seq<Page>)
    requires ps == front + [p] && d.nextLink == LinkNumber(front) && d.seenNonBos == DataBegun(front)
    requires FiledRight(d, front, p.serial)
    ensures var d' := ProcessPage(headersOf, d, p);
            d'.nextLink == LinkNumber(ps) && d'.seenNonBos == DataBegun(ps) && FiledRight(d', ps, p.serial)
  {
    UnSnoc(front, p);
  }

  /**
   Links on any pages whatsoever: a link begins with each BOS page that comes right after a data page, and a
   stream is filed under the link of its latest BOS page.
   */
  lemma {:induction false} LinksOnAnyPages(headersOf: HeaderCount, ps: seq<Page>)
    ensures var d := ProcessAll(headersOf, ps);
            && d.nextLink == LinkNumber(ps) && d.seenNonBos == DataBegun(ps)
            && forall s: u32 :: FiledRight(d, ps, s)
  {
    if ps != [] {
      var front, p := ps[..|ps| - 1], ps[|ps| - 1];
      var d := ProcessAll(headersOf, front);
      SplitLast(ps);
      LinksOnAnyPages(headersOf, front);
      LinkTurns(headersOf, d, front, p, ps);
      forall s: u32
        ensures FiledRight(ProcessAll(headersOf, ps), ps, s)
      {
        assert FiledRight(d, front, s);
        if s != p.serial {
          OthersUnchanged(headersOf, d, p, s);
        }
      }
    }
  }
}
