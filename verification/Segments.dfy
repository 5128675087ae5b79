/** Lacing and reassembly (section 5 of RFC 3533): packets, their segments, and back. */
module Segments {
  import opened Bytes
  import opened Pages

  type Packet = seq<byte>
  type Segment = seq<byte>

  // ----- a page body as its segments -----

  function Segs(lacing: seq<byte>, data: seq<byte>): (r: seq<Segment>)
    requires |data| == Sum(lacing)
    ensures |r| == |lacing|
    ensures forall i :: 0 <= i < |r| ==> |r[i]| == lacing[i]
  {
    if lacing == [] then [] else [data[..lacing[0]]] + Segs(lacing[1..], data[lacing[0]..])
  }

  lemma CutConcat<T>(d: seq<T>, d': seq<T>, n: nat)
    requires n <= |d|
    ensures (d + d')[n..] == d[n..] + d' && (d + d')[..n] == d[..n]
  {}

  lemma OneSeg(s: Segment)
    requires |s| <= 255
    ensures |s| == Sum([|s|]) && Segs([|s|], s) == [s]
  {
    assert Sum([|s|]) == |s| + Sum([]);
    assert Segs([|s|], s) == [s[..|s|]] + Segs([], s[|s|..]);
    assert s[..|s|] == s;
  }

  lemma {:induction false} SegsConcat(l: seq<byte>, d: seq<byte>, l': seq<byte>, d': seq<byte>)
    requires |d| == Sum(l) && |d'| == Sum(l')
    ensures |d + d'| == Sum(l + l')
    ensures Segs(l + l', d + d') == Segs(l, d) + Segs(l', d')
  {
    SumConcat(l, l');
    if l == [] {
      assert l + l' == l' && d + d' == d';
    } else {
      var n := l[0];
      ConcatTail(l, l');
      CutConcat(d, d', n);
      SegsConcat(l[1..], d[n..], l', d');
      Assoc([d[..n]], Segs(l[1..], d[n..]), Segs(l', d'));
    }
  }

  function PageSegs(p: Page): seq<Segment>
  {
    if WellFormed(p) then Segs(p.lacing, p.data) else []
  }

  /** The segments of a run of pages, in order. */
  function AllSegs(pages: seq<Page>): seq<Segment>
  {
    if pages == [] then [] else AllSegs(pages[..|pages| - 1]) + PageSegs(pages[|pages| - 1])
  }

  lemma AllSegsSnoc(pages: seq<Page>, p: Page)
    ensures AllSegs(pages + [p]) == AllSegs(pages) + PageSegs(p)
  {
    assert (pages + [p])[..|pages|] == pages;
  }

  // ----- lacing a packet -----

  function Repeat(n: nat): (r: seq<byte>)
    ensures |r| == n && forall i :: 0 <= i < n ==> r[i] == 255
  {
    seq(n, _ => 255)
  }

  /** The lacing table of a packet of `len` bytes. */
  function Lace(len: nat): (r: seq<byte>)
    ensures |r| == len / 255 + 1
  {
    if len == 0 then [0]
    else
      var full, rem := len / 255, len % 255;
      if rem > 0 || full == 0 then Repeat(full) + [rem] else Repeat(full) + [0]
  }

  lemma LaceStep(len: nat)
    ensures len < 255 ==> Lace(len) == [len]
    ensures len >= 255 ==> Lace(len) == [255] + Lace(len - 255)
  {
    if len >= 255 {
      assert Repeat(len / 255) == [255] + Repeat(len / 255 - 1);
    }
  }

  /** Lacing values account for every byte; only the last one ends the packet. */
  lemma {:induction false} LaceMeaning(len: nat)
    ensures Sum(Lace(len)) == len
    ensures var l := Lace(len);
            l[|l| - 1] < 255 && forall i :: 0 <= i < |l| - 1 ==> l[i] == 255
    decreases len
  {
    LaceStep(len);
    if len >= 255 {
      LaceMeaning(len - 255);
      SumConcat([255], Lace(len - 255));
      assert Sum([255]) == 255;
    } else {
      assert Sum([len]) == len + Sum([]);
    }
  }

  function PacketSegs(packet: Packet): seq<Segment>
  {
    LaceMeaning(|packet|);
    Segs(Lace(|packet|), packet)
  }

  function AllPacketSegs(packets: seq<Packet>): seq<Segment>
  {
    if packets == [] then [] else AllPacketSegs(packets[..|packets| - 1]) + PacketSegs(packets[|packets| - 1])
  }

  lemma AllPacketSegsSnoc(packets: seq<Packet>, p: Packet)
    ensures AllPacketSegs(packets + [p]) == AllPacketSegs(packets) + PacketSegs(p)
  {
    assert (packets + [p])[..|packets|] == packets;
  }

  // ----- reassembly -----

  /** Packets completed so far, the bytes of the one under way, and whether one is. */
  datatype Assembly = Assembly(packets: seq<Packet>, pending: Packet, open: bool)

  const FRESH := Assembly([], [], false)

  /** A segment shorter than 255 bytes ends its packet. */
  function FeedOne(a: Assembly, s: Segment): Assembly
  {
    if |s| < 255 then Assembly(a.packets + [a.pending + s], [], false)
    else Assembly(a.packets, a.pending + s, true)
  }

  function Feed(a: Assembly, segs: seq<Segment>): Assembly
  {
    if segs == [] then a else FeedOne(Feed(a, segs[..|segs| - 1]), segs[|segs| - 1])
  }

  lemma FeedSnoc(a: Assembly, segs: seq<Segment>, s: Segment)
    ensures Feed(a, segs + [s]) == FeedOne(Feed(a, segs), s)
  {
    assert (segs + [s])[..|segs|] == segs;
  }

  lemma {:induction false} FeedConcat(a: Assembly, x: seq<Segment>, y: seq<Segment>)
    ensures Feed(a, x + y) == Feed(Feed(a, x), y)
  {
    if y == [] {
      assert x + y == x;
    } else {
      var front := y[..|y| - 1];
      assert (x + y)[..|x + y| - 1] == x + front;
      FeedConcat(a, x, front);
    }
  }

  /** Packets already out never influence the rest of the reassembly. */
  lemma {:induction false} FeedFrame(a: Assembly, done: seq<Packet>, segs: seq<Segment>)
    ensures Feed(Assembly(done + a.packets, a.pending, a.open), segs)
         == Assembly(done + Feed(a, segs).packets, Feed(a, segs).pending, Feed(a, segs).open)
  {
    if segs != [] {
      var front := segs[..|segs| - 1];
      FeedFrame(a, done, front);
      var f := Feed(a, front);
      var s := segs[|segs| - 1];
      assert done + (f.packets + [f.pending + s]) == done + f.packets + [f.pending + s];
    }
  }

  lemma PacketSegsStep(packet: Packet)
    requires |packet| >= 255
    ensures PacketSegs(packet) == [packet[..255]] + PacketSegs(packet[255..])
  {
    var head, tail := packet[..255], packet[255..];
    assert packet == head + tail;
    LaceStep(|packet|);
    LaceMeaning(|tail|);
    OneSeg(head);
    SegsConcat([255], head, Lace(|tail|), tail);
  }

  lemma FeedHead(a: Assembly, head: Segment, segs: seq<Segment>)
    ensures Feed(a, [head] + segs) == Feed(FeedOne(a, head), segs)
  {
    FeedConcat(a, [head], segs);
    FeedSnoc(a, [], head);
    PlusNil([head]);
  }

  lemma ShortPacketSegs(packet: Packet)
    requires |packet| < 255
    ensures PacketSegs(packet) == [packet]
  {
    LaceStep(|packet|);
    LaceMeaning(|packet|);
    OneSeg(packet);
  }

  lemma CutPacket(packet: Packet)
    requires |packet| >= 255
    ensures packet == packet[..255] + packet[255..]
  {}

  /** Feeding a packet's own segments completes exactly that packet. */
  lemma {:induction false} FeedPacket(a: Assembly, packet: Packet)
    ensures Feed(a, PacketSegs(packet)) == Assembly(a.packets + [a.pending + packet], [], false)
    decreases |packet|
  {
    if |packet| < 255 {
      ShortPacketSegs(packet);
      FeedHead(a, packet, []);
      PlusNil([packet]);
    } else {
      var head, tail := packet[..255], packet[255..];
      PacketSegsStep(packet);
      FeedHead(a, head, PacketSegs(tail));
      FeedPacket(FeedOne(a, head), tail);
      CutPacket(packet);
      Assoc(a.pending, head, tail);
    }
  }

  /** Reassembling the segments of any packets gives back exactly those packets. */
  lemma {:induction false} FeedAllPackets(packets: seq<Packet>)
    ensures Feed(FRESH, AllPacketSegs(packets)) == Assembly(packets, [], false)
  {
    if packets != [] {
      var front, last := packets[..|packets| - 1], packets[|packets| - 1];
      FeedAllPackets(front);
      FeedConcat(FRESH, AllPacketSegs(front), PacketSegs(last));
      FeedPacket(Assembly(front, [], false), last);
      PlusNil(last);
      SplitLast(packets);
    }
  }

  // ----- how many packets end on a page -----

  function CompletedCount(lacing: seq<byte>): nat
  {
    if lacing == [] then 0
    else CompletedCount(lacing[..|lacing| - 1]) + if lacing[|lacing| - 1] < 255 then 1 else 0
  }

  predicate Completes(lacing: seq<byte>) { CompletedCount(lacing) > 0 }

  lemma {:induction false} CompletesMeaning(lacing: seq<byte>)
    ensures Completes(lacing) <==> exists i :: 0 <= i < |lacing| && lacing[i] < 255
  {
    if lacing != [] {
      var front := lacing[..|lacing| - 1];
      CompletesMeaning(front);
      if Completes(front) {
        var i :| 0 <= i < |front| && front[i] < 255;
        assert lacing[i] < 255;
      }
      if exists i :: 0 <= i < |lacing| && lacing[i] < 255 {
        var i :| 0 <= i < |lacing| && lacing[i] < 255;
        if i < |front| {
          assert front[i] < 255;
        }
      }
    }
  }

  function ShortCount(segs: seq<Segment>): nat
  {
    if segs == [] then 0 else ShortCount(segs[..|segs| - 1]) + if |segs[|segs| - 1]| < 255 then 1 else 0
  }

  lemma {:induction false} ShortIsCompleted(lacing: seq<byte>, segs: seq<Segment>)
    requires |segs| == |lacing| && forall i :: 0 <= i < |segs| ==> |segs[i]| == lacing[i]
    ensures ShortCount(segs) == CompletedCount(lacing)
  {
    if lacing != [] {
      ShortIsCompleted(lacing[..|lacing| - 1], segs[..|segs| - 1]);
    }
  }

  lemma {:induction false} FeedCounts(a: Assembly, segs: seq<Segment>)
    ensures |Feed(a, segs).packets| == |a.packets| + ShortCount(segs)
    ensures a.packets <= Feed(a, segs).packets
    ensures segs != [] ==> Feed(a, segs).open == (|segs[|segs| - 1]| == 255 || |segs[|segs| - 1]| > 255)
    ensures segs != [] && !Feed(a, segs).open ==> Feed(a, segs).pending == []
  {
    if segs != [] {
      FeedCounts(a, segs[..|segs| - 1]);
    }
  }
}
