/** Page processing as the demuxer runs it: fragments of a page one by one, fields updated in place. */
module Demuxers {
  import opened Bytes
  import opened Pages
  import opened Segments
  import Validation
  import R = Reassembly
  import opened Demux

  // ----- a page's packets, whole or in part -----

  datatype Fragment = Fragment(bytes: Packet, terminated: bool)

  function Ended(packets: seq<Packet>): (r: seq<Fragment>)
    ensures |r| == |packets| && forall i :: 0 <= i < |r| ==> r[i] == Fragment(packets[i], true)
  {
    seq(|packets|, i requires 0 <= i < |packets| => Fragment(packets[i], true))
  }

  /** The packets ending on the page, then the one left open, if any. */
  function Fragments(segs: seq<Segment>): seq<Fragment>
  {
    var fed := Feed(FRESH, segs);
    Ended(fed.packets) + if fed.open then [Fragment(fed.pending, false)] else []
  }

  function TakeFragment(h: R.Hold, f: Fragment): R.Hold
  {
    if f.terminated then
      R.Hold(if h.mode == R.Orphan then h.packets else h.packets + [h.pending + f.bytes], [], R.Between)
    else if h.mode == R.Orphan then h
    else R.Hold(h.packets, h.pending + f.bytes, R.Inside)
  }

  function TakeFragments(h: R.Hold, fs: seq<Fragment>): R.Hold
  {
    if fs == [] then h else TakeFragment(TakeFragments(h, fs[..|fs| - 1]), fs[|fs| - 1])
  }

  lemma TakeFragmentsSnoc(h: R.Hold, fs: seq<Fragment>, f: Fragment)
    ensures TakeFragments(h, fs + [f]) == TakeFragment(TakeFragments(h, fs), f)
  {
    UnSnoc(fs, f);
  }

  /** The fragments of packets that ended, and of the one left open. */
  function AllFragments(fed: Assembly): seq<Fragment>
  {
    Ended(fed.packets) + if fed.open then [Fragment(fed.pending, false)] else []
  }

  lemma TakeAll(h: R.Hold, fed: Assembly)
    ensures TakeFragments(h, AllFragments(fed))
         == if fed.open then TakeFragment(TakeFragments(h, Ended(fed.packets)), Fragment(fed.pending, false))
            else TakeFragments(h, Ended(fed.packets))
  {
    if fed.open {
      TakeFragmentsSnoc(h, Ended(fed.packets), Fragment(fed.pending, false));
    } else {
      PlusNil(Ended(fed.packets));
    }
  }

  lemma ShortMore(h: R.Hold, fed: Assembly, s: Segment)
    requires (!fed.open ==> fed.pending == []) && |s| < 255
    ensures TakeFragments(h, AllFragments(FeedOne(fed, s))) == R.TakeOne(TakeFragments(h, AllFragments(fed)), s)
  {
    var whole, bytes := Ended(fed.packets), fed.pending + s;
    var h1 := TakeFragments(h, whole);
    TakeAll(h, fed);
    TakeAll(h, FeedOne(fed, s));
    assert Ended(fed.packets + [bytes]) == whole + [Fragment(bytes, true)];
    TakeFragmentsSnoc(h, whole, Fragment(bytes, true));
    Assoc(h1.pending, fed.pending, s);
    if !fed.open {
      assert [] + s == s;
    }
  }

  lemma FullMore(h: R.Hold, fed: Assembly, s: Segment)
    requires (!fed.open ==> fed.pending == []) && |s| >= 255
    ensures TakeFragments(h, AllFragments(FeedOne(fed, s))) == R.TakeOne(TakeFragments(h, AllFragments(fed)), s)
  {
    var h1 := TakeFragments(h, Ended(fed.packets));
    TakeAll(h, fed);
    TakeAll(h, FeedOne(fed, s));
    Assoc(h1.pending, fed.pending, s);
    if !fed.open {
      assert [] + s == s;
    }
  }

  /** One more segment either extends the open fragment or starts the next one. */
  lemma OneSegmentMore(h: R.Hold, fed: Assembly, s: Segment)
    requires !fed.open ==> fed.pending == []
    ensures TakeFragments(h, AllFragments(FeedOne(fed, s))) == R.TakeOne(TakeFragments(h, AllFragments(fed)), s)
  {
    if |s| < 255 {
      ShortMore(h, fed, s);
    } else {
      FullMore(h, fed, s);
    }
  }

  lemma {:induction false} OpenHasBytes(segs: seq<Segment>)
    ensures var fed := Feed(FRESH, segs); fed.open <==> fed.pending != []
  {
    if segs != [] {
      OpenHasBytes(segs[..|segs| - 1]);
    }
  }

  /** Going by fragments or by segments comes to the same. */
  lemma {:induction false} FragmentsAreSegments(h: R.Hold, segs: seq<Segment>)
    ensures TakeFragments(h, Fragments(segs)) == R.Take(h, segs)
  {
    if segs == [] {
      assert Fragments(segs) == [];
    } else {
      var front, s := segs[..|segs| - 1], segs[|segs| - 1];
      FragmentsAreSegments(h, front);
      OpenHasBytes(front);
      OneSegmentMore(h, Feed(FRESH, front), s);
    }
  }

  /** Where a packet lies in its page: a segment range, a byte range, and whether it ends there. */
  datatype PacketSegment = PacketSegment(firstSeg: nat, endSeg: nat, from: nat, to: nat, terminated: bool)

  predicate Locates(data: seq<byte>, at: PacketSegment, f: Fragment)
  {
    at.from <= at.to <= |data| && data[at.from..at.to] == f.bytes && at.terminated == f.terminated
  }

  predicate LocateAll(data: seq<byte>, ats: seq<PacketSegment>, fs: seq<Fragment>)
  {
    |ats| == |fs| && forall i :: 0 <= i < |ats| ==> Locates(data, ats[i], fs[i])
  }

  lemma CutAt<T>(s: seq<T>, i: nat)
    requires i < |s|
    ensures s == s[..i] + s[i..] && s[..i + 1] == s[..i] + [s[i]] && s[i..][0] == s[i]
  {}

  lemma FirstSeg(lacing: seq<byte>, data: seq<byte>, n: nat)
    requires lacing != [] && |data| == Sum(lacing) && n == lacing[0]
    ensures n <= |data| && Segs(lacing, data)[0] == data[..n]
  {}

  lemma SumSnoc(l: seq<byte>, n: byte)
    ensures Sum(l + [n]) == Sum(l) + n
  {
    SumConcat(l, [n]);
    assert Sum([n]) == n + Sum([]);
  }

  lemma SegsAt(lacing: seq<byte>, data: seq<byte>, i: nat, pos: nat)
    requires |data| == Sum(lacing) && i < |lacing| && pos == Sum(lacing[..i])
    ensures pos <= |data| && |data[pos..]| == Sum(lacing[i..])
    ensures Segs(lacing, data)[i] == Segs(lacing[i..], data[pos..])[0]
  {
    CutAt(lacing, i);
    SumConcat(lacing[..i], lacing[i..]);
    assert data == data[..pos] + data[pos..];
    SegsConcat(lacing[..i], data[..pos], lacing[i..], data[pos..]);
  }

  lemma SliceTwice<T>(s: seq<T>, lo: nat, n: nat)
    requires lo + n <= |s|
    ensures s[lo..][..n] == s[lo..lo + n]
  {}

  lemma SegAt(page: Page, i: nat, pos: nat)
    requires WellFormed(page) && i < |page.lacing| && pos == Sum(page.lacing[..i])
    ensures pos + page.lacing[i] <= |page.data|
    ensures Sum(page.lacing[..i + 1]) == pos + page.lacing[i]
    ensures PageSegs(page)[i] == page.data[pos..pos + page.lacing[i]]
  {
    CutAt(page.lacing, i);
    SumSnoc(page.lacing[..i], page.lacing[i]);
    SegsAt(page.lacing, page.data, i, pos);
    FirstSeg(page.lacing[i..], page.data[pos..], page.lacing[i]);
    SliceTwice(page.data, pos, page.lacing[i]);
  }

  lemma NextFeed(segs: seq<Segment>, i: nat)
    requires i < |segs|
    ensures Feed(FRESH, segs[..i + 1]) == FeedOne(Feed(FRESH, segs[..i]), segs[i])
  {
    assert segs[..i + 1] == segs[..i] + [segs[i]];
    FeedSnoc(FRESH, segs[..i], segs[i]);
  }

  lemma LocatedOneMore(data: seq<byte>, ats: seq<PacketSegment>, packets: seq<Packet>, at: PacketSegment,
          packet: Packet)
    requires LocateAll(data, ats, Ended(packets)) && Locates(data, at, Fragment(packet, true))
    ensures LocateAll(data, ats + [at], Ended(packets + [packet]))
  {}

  lemma PieceGrows(page: Page, i: nat, from: nat, pos: nat, next: nat, pending: Packet)
    requires WellFormed(page) && i < |page.lacing| && from <= pos == Sum(page.lacing[..i])
    requires pos <= |page.data| && page.data[from..pos] == pending && next == pos + page.lacing[i]
    ensures pos <= next <= |page.data| && next == Sum(page.lacing[..i + 1])
    ensures page.data[from..next] == pending + PageSegs(page)[i] && |PageSegs(page)[i]| == page.lacing[i]
  {
    SegAt(page, i, pos);
    assert page.data[from..next] == page.data[from..pos] + page.data[pos..next];
  }

  /** What the walk over the lacing table has cut off, and the piece it is in. */
  ghost predicate Cutting(page: Page, i: nat, out: seq<PacketSegment>, startSeg: nat, from: nat, pos: nat)
    requires WellFormed(page) && i <= |page.lacing|
  {
    var fed := Feed(FRESH, PageSegs(page)[..i]);
    && from <= pos <= |page.data| && pos == Sum(page.lacing[..i])
    && LocateAll(page.data, out, Ended(fed.packets))
    && page.data[from..pos] == fed.pending && startSeg <= i && (fed.open <==> startSeg < i)
  }

  lemma CutStart(page: Page)
    requires WellFormed(page)
    ensures Cutting(page, 0, [], 0, 0, 0)
  {
    assert PageSegs(page)[..0] == [] && page.lacing[..0] == [];
  }

  lemma CutShort(page: Page, i: nat, out: seq<PacketSegment>, startSeg: nat, from: nat, pos: nat, next: nat)
    requires WellFormed(page) && i < |page.lacing| && Cutting(page, i, out, startSeg, from, pos)
    requires next == pos + page.lacing[i] && page.lacing[i] < 255
    ensures Cutting(page, i + 1, out + [PacketSegment(startSeg, i + 1, from, next, true)], i + 1, next, next)
  {
    var fed := Feed(FRESH, PageSegs(page)[..i]);
    NextFeed(PageSegs(page), i);
    PieceGrows(page, i, from, pos, next, fed.pending);
    LocatedOneMore(page.data, out, fed.packets, PacketSegment(startSeg, i + 1, from, next, true),
                   fed.pending + PageSegs(page)[i]);
  }

  lemma CutFull(page: Page, i: nat, out: seq<PacketSegment>, startSeg: nat, from: nat, pos: nat, next: nat)
    requires WellFormed(page) && i < |page.lacing| && Cutting(page, i, out, startSeg, from, pos)
    requires next == pos + page.lacing[i] && page.lacing[i] == 255
    ensures Cutting(page, i + 1, out, startSeg, from, next)
  {
    NextFeed(PageSegs(page), i);
    PieceGrows(page, i, from, pos, next, Feed(FRESH, PageSegs(page)[..i]).pending);
  }

  lemma CutAll(page: Page, out: seq<PacketSegment>, startSeg: nat, from: nat, pos: nat)
    requires WellFormed(page) && Cutting(page, |page.lacing|, out, startSeg, from, pos)
    ensures LocateAll(page.data,
                      if startSeg < |page.lacing| then out + [PacketSegment(startSeg, |page.lacing|, from, pos, false)]
                      else out,
                      Fragments(PageSegs(page)))
  {
    assert PageSegs(page)[..|page.lacing|] == PageSegs(page);
    PlusNil(Ended(Feed(FRESH, PageSegs(page)).packets));
  }

  /** `packet_segments`: cut the page at every lacing value below 255. */
  method PacketSegments(page: Page) returns (out: seq<PacketSegment>)
    requires WellFormed(page)
    ensures LocateAll(page.data, out, Fragments(PageSegs(page)))
  {
    out := [];
    var startSeg: nat, dataOff: nat, packetOff: nat, packetLen: nat := 0, 0, 0, 0;
    CutStart(page);
    for i := 0 to |page.lacing|
      invariant packetOff + packetLen == dataOff && Cutting(page, i, out, startSeg, packetOff, dataOff)
    {
      var lv: int := page.lacing[i];
      var next: nat := dataOff + lv;
      packetLen := packetLen + lv;
      if lv < 255 {
        CutShort(page, i, out, startSeg, packetOff, dataOff, next);
        var end := packetOff + packetLen;
        out := out + [PacketSegment(startSeg, i + 1, packetOff, end, true)];
        startSeg := i + 1;
        packetOff := next;
        packetLen := 0;
      } else {
        CutFull(page, i, out, startSeg, packetOff, dataOff, next);
      }
      dataOff := next;
    }
    var end := packetOff + packetLen;
    CutAll(page, out, startSeg, packetOff, end);
    if startSeg < |page.lacing| {
      out := out + [PacketSegment(startSeg, |page.lacing|, packetOff, end, false)];
    }
  }

  // ----- the reassembly loop -----

  /** Completed packets whose head was held; the others are garbage. */
  function Held(completed: seq<(Packet, bool)>): seq<Packet>
  {
    if completed == [] then []
    else
      var last := completed[|completed| - 1];
      Held(completed[..|completed| - 1]) + if last.1 then [last.0] else []
  }

  lemma HeldSnoc(completed: seq<(Packet, bool)>, c: (Packet, bool))
    ensures Held(completed + [c]) == Held(completed) + if c.1 then [c.0] else []
  {
    UnSnoc(completed, c);
  }

  /** The partial packet and the packets completed, before fragment `i` of the page. */
  predicate Collecting(st: R.Stream, continued: bool, i: nat, h: R.Hold, pending: Packet, valid: bool,
          completed: seq<(Packet, bool)>)
  {
    && Held(completed) == h.packets
    && (if i == 0 then pending == st.pending && valid == st.pendingValid && h == R.Entry(st, continued)
        else pending == h.pending && valid == (h.mode == R.Inside))
    && (h.mode == R.Between ==> h.pending == [])
    && (h.mode == R.Orphan ==> h.pending == [])
  }

  lemma OnlyLastOpen(segs: seq<Segment>, i: nat)
    requires i < |Fragments(segs)| - 1
    ensures Fragments(segs)[i].terminated
  {}

  /** One fragment in: appended to its packet, or dropped for want of the packet's head. */
  method CollectOne(continued: bool, i: nat, payload: Packet, terminated: bool, pending: Packet, valid: bool,
                    completed: seq<(Packet, bool)>, ghost st: R.Stream, ghost h: R.Hold)
    returns (pending': Packet, valid': bool, completed': seq<(Packet, bool)>)
    requires Collecting(st, continued, i, h, pending, valid, completed)
    requires i > 0 ==> h.mode == R.Between
    ensures var h' := TakeFragment(h, Fragment(payload, terminated));
            && Collecting(st, continued, i + 1, h', pending', valid', completed')
            && (terminated ==> h'.mode == R.Between)
  {
    pending', valid', completed' := pending, valid, completed;
    if i == 0 && continued {
      pending' := if valid then pending + payload else [];
    } else {
      pending' := payload;
      valid' := true;
      PlusNil(payload);
    }
    if terminated {
      HeldSnoc(completed, (pending', valid'));
      PlusNil(Held(completed));
      completed' := completed + [(pending', valid')];
      pending' := [];
      valid' := false;
    }
  }

  /** Every packet that ends on the page, and the partial one left behind. */
  method Collect(st: R.Stream, page: Page) returns (pending: Packet, valid: bool, packets: seq<Packet>)
    requires WellFormed(page)
    ensures var h := R.Take(R.Entry(st, IsContinued(page)), PageSegs(page));
            && packets == h.packets
            && (PageSegs(page) == [] ==> pending == st.pending && valid == st.pendingValid)
            && (PageSegs(page) != [] ==> pending == h.pending && valid == (h.mode == R.Inside))
  {
    var segs := PacketSegments(page);
    ghost var fs := Fragments(PageSegs(page));
    ghost var entry := R.Entry(st, IsContinued(page));
    FragmentsAreSegments(entry, PageSegs(page));
    SomeFragment(PageSegs(page));
    var completed: seq<(Packet, bool)> := [];
    pending, valid := st.pending, st.pendingValid;
    ghost var h := entry;
    assert fs[..0] == [];
    for i := 0 to |segs|
      invariant h == TakeFragments(entry, fs[..i]) && Collecting(st, IsContinued(page), i, h, pending, valid, completed)
      invariant 0 < i < |segs| ==> h.mode == R.Between
    {
      var payload := page.data[segs[i].from..segs[i].to];
      assert Locates(page.data, segs[i], fs[i]);
      NextFragment(entry, fs, i);
      if i + 1 < |segs| {
        OnlyLastOpen(PageSegs(page), i);
      }
      pending, valid, completed := CollectOne(IsContinued(page), i, payload, segs[i].terminated, pending, valid,
                                              completed, st, h);
      h := TakeFragment(h, fs[i]);
    }
    assert fs[..|segs|] == fs;
    packets := Filter(completed);
  }

  lemma NextFragment(h: R.Hold, fs: seq<Fragment>, i: nat)
    requires i < |fs|
    ensures TakeFragments(h, fs[..i + 1]) == TakeFragment(TakeFragments(h, fs[..i]), fs[i])
  {
    assert fs[..i + 1] == fs[..i] + [fs[i]];
    TakeFragmentsSnoc(h, fs[..i], fs[i]);
  }

  lemma SomeFragment(segs: seq<Segment>)
    ensures Fragments(segs) == [] <==> segs == []
  {
    if segs != [] {
      var s := segs[|segs| - 1];
      var fed := Feed(FRESH, segs[..|segs| - 1]);
      assert Feed(FRESH, segs) == FeedOne(fed, s);
    }
  }

  method Filter(completed: seq<(Packet, bool)>) returns (packets: seq<Packet>)
    ensures packets == Held(completed)
  {
    packets := [];
    assert completed[..0] == [];
    for i := 0 to |completed|
      invariant packets == Held(completed[..i])
    {
      assert completed[..i + 1] == completed[..i] + [completed[i]];
      HeldSnoc(completed[..i], completed[i]);
      if completed[i].1 {
        packets := packets + [completed[i].0];
      }
    }
    assert completed[..|completed|] == completed;
  }

  lemma NothingFromNoSegments(st: R.Stream, continued: bool)
    ensures R.Take(R.Entry(st, continued), []).packets == []
  {}

  /** Sequence and continuity checks, then the reassembly loop. */
  method Absorb(before: R.Stream, page: Page)
    returns (st: R.Stream, packets: seq<Packet>, hole: bool, framingError: bool)
    requires WellFormed(page)
    ensures R.Absorb(before, page) == (st, R.Effect(packets, hole, framingError, false, false))
  {
    st := before;
    var continued := IsContinued(page);
    hole := !IsFirst(page) && st.lastSeq.Some? && page.seqNo != NextU32(st.lastSeq.value);
    if hole {
      st := st.(pending := [], pendingValid := false);
    }
    framingError := false;
    if !hole && !IsFirst(page) {
      var havePending := st.pending != [] && st.pendingValid;
      if continued && !havePending {
        framingError := true;
      } else if !continued && havePending {
        framingError := true;
      }
    }
    NothingFromNoSegments(st, continued);
    var pending, valid;
    pending, valid, packets := Collect(st, page);
    st := st.(pending := pending, pendingValid := valid, lastSeq := Some(page.seqNo));
  }

  class Demuxer {
    const headersOf: HeaderCount
    var streams: map<u32, LogicalStream>
    var nextLink: nat
    var seenNonBos: bool
    var holes: nat
    var framingErrors: nat
    var duplicates: nat
    var outQueue: seq<Delivered>

    ghost function Now(): State
      reads this
    {
      State(streams, nextLink, seenNonBos, holes, framingErrors, duplicates, outQueue)
    }

    constructor (headersOf: HeaderCount)
      ensures Now() == START && this.headersOf == headersOf
    {
      this.headersOf := headersOf;
      streams, nextLink, seenNonBos := map[], 0, false;
      holes, framingErrors, duplicates, outQueue := 0, 0, 0, [];
    }

    /** The BOS page's first packet, or as much of it as the page holds. */
    method FirstPacket(page: Page) returns (first: Option<Packet>)
      requires WellFormed(page)
      ensures first == if PageSegs(page) == [] then None else Some(FirstFragment(page))
    {
      var segs := PacketSegments(page);
      SomeFragment(PageSegs(page));
      if segs == [] {
        return None;
      }
      assert Locates(page.data, segs[0], Fragments(PageSegs(page))[0]);
      return Some(page.data[segs[0].from..segs[0].to]);
    }

    /** A new serial's BOS page; refused if it holds no packet. */
    method RegisterStream(page: Page) returns (ok: bool)
      requires WellFormed(page)
      modifies this`streams
      ensures ok == (PageSegs(page) != [])
      ensures streams
          == if ok then old(streams)[page.serial := Registered(headersOf, page, nextLink).(re := R.REGISTERED)]
             else old(streams)
    {
      var first := FirstPacket(page);
      if first.None? {
        return false;
      }
      streams := streams[page.serial := LogicalStream(R.REGISTERED, nextLink, headersOf(first.value), [])];
      return true;
    }

    /** A serial whose BOS shows up again starts over, its old partial packet and headers dropped. */
    method RestartSerial(page: Page)
      requires WellFormed(page) && page.serial in streams
      modifies this`streams, this`duplicates
      ensures duplicates == old(duplicates) + 1
      ensures streams == old(streams)[page.serial := Registered(headersOf, page, nextLink).(re := R.REGISTERED)]
    {
      var first := FirstPacket(page);
      duplicates := duplicates + 1;
      var count := if first.None? then 0 else headersOf(first.value);
      streams := streams[page.serial := LogicalStream(R.REGISTERED, nextLink, count, [])];
    }

    method EnterBosPage(page: Page) returns (ok: bool)
      requires WellFormed(page) && IsFirst(page)
      modifies this
      ensures ok == !Refuses(old(Now()), page)
      ensures Now() == EnterBos(headersOf, old(Now()), page)
    {
      var known := page.serial in streams;
      var duplicate := known && streams[page.serial].re.bosProcessed;
      if (!known || duplicate) && seenNonBos {
        nextLink := Validation.SaturatingInc(nextLink);
        seenNonBos := false;
      }
      if !known {
        ok := RegisterStream(page);
        if !ok {
          return;
        }
      } else if duplicate {
        RestartSerial(page);
      }
      var l := streams[page.serial];
      streams := streams[page.serial := l.(re := l.re.(bosProcessed := true))];
      return true;
    }

    /** Keep the first packets as headers while any are wanted, queue the others. */
    method Deliver(serial: u32, packets: seq<Packet>)
      requires serial in streams
      modifies this`streams, this`outQueue
      ensures var l := old(streams)[serial];
              var h := Min(l.headersRemaining, |packets|);
              && streams == old(streams)[serial := l.(headersRemaining := l.headersRemaining - h,
                                                      headerPackets := l.headerPackets + packets[..h])]
              && outQueue == old(outQueue) + Deliveries(serial, packets[h..])
    {
      var l := streams[serial];
      ghost var h := Min(l.headersRemaining, |packets|);
      ghost var all := Deliveries(serial, packets[h..]);
      var remaining, kept := l.headersRemaining, l.headerPackets;
      var i := 0;
      while i < |packets| && remaining > 0
        invariant 0 <= i <= h && remaining == l.headersRemaining - i && kept == l.headerPackets + packets[..i]
      {
        kept := kept + [packets[i]];
        remaining := remaining - 1;
        i := i + 1;
      }
      assert i == h && kept == l.headerPackets + packets[..h];
      while i < |packets|
        invariant h <= i <= |packets| && outQueue == old(outQueue) + all[..i - h] && streams == old(streams)
      {
        assert all[..i - h + 1] == all[..i - h] + [Delivered(serial, packets[i], i == |packets| - 1)];
        outQueue := outQueue + [Delivered(serial, packets[i], i == |packets| - 1)];
        i := i + 1;
      }
      assert all[..|all|] == all;
      streams := streams[serial := l.(headersRemaining := remaining, headerPackets := kept)];
    }

    method TakeInPage(page: Page)
      requires WellFormed(page) && page.serial in streams
      modifies this
      ensures Now() == TakeIn(old(Now()), page)
    {
      var l := streams[page.serial];
      var st, packets, hole, framingError := Absorb(l.re, page);
      if hole {
        holes := holes + 1;
      }
      if framingError {
        framingErrors := framingErrors + 1;
      }
      streams := streams[page.serial := l.(re := st)];
      Deliver(page.serial, packets);
    }

    /** `process_page`; false is its error return. */
    method ProcessPage(page: Page) returns (ok: bool)
      requires WellFormed(page)
      modifies this
      ensures ok == !Refuses(old(Now()), page)
      ensures Now() == Demux.ProcessPage(headersOf, old(Now()), page)
    {
      if IsFirst(page) {
        ok := EnterBosPage(page);
        if !ok {
          return;
        }
      } else {
        seenNonBos := true;
      }
      if page.serial in streams {
        TakeInPage(page);
      }
      return true;
    }
  }
}
