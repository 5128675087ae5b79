/** What each stream's writer keeps while packets go in: all their segments, stamped, and nothing else. */
module MuxFill {
  import opened Bytes
  import opened Pages
  import opened Segments
  import opened Grammar
  import opened Paging
  import opened Muxing
  import opened MuxWire

  /** The writer has cut and holds exactly the segments `segs`, each packet that ends stamped. */
  predicate Holds(w: StreamWriter, segs: seq<Segment>)
  {
    && Framed(w.cut, w.serial, w.buffered, segs, w.stamps)
    && w.seqNo == |w.cut| % TWO32
    && (w.bosEmitted <==> w.cut != [])
  }

  /** Between packets. */
  predicate HoldsPackets(w: StreamWriter)
  {
    Holds(w, AllPacketSegs(w.packets))
  }

  lemma QueueIsAside(w: StreamWriter, queue: seq<Pending>, segs: seq<Segment>)
    requires Holds(w, segs)
    ensures Holds(w.(queue := queue), segs)
  {}

  lemma NothingOpen(w: StreamWriter)
    requires HoldsPackets(w)
    ensures !EndsOpen(w.buffered.lacing) && (w.buffered.lacing == [] ==> !LeftOpen(w.cut))
  {
    FeedAllPackets(w.packets);
    BetweenPackets(w.cut, w.serial, w.buffered, AllPacketSegs(w.packets), w.stamps);
  }

  // ----- cutting a page -----

  lemma CutHolds(w: StreamWriter, segs: seq<Segment>)
    requires Holds(w, segs) && w.buffered.lacing != []
    ensures Holds(CutAndQueue(w), segs)
  {
    CutFramed(w.cut, w.serial, w.buffered, segs, w.stamps);
    ModStep(|w.cut|);
  }

  lemma CutCarried(wire: seq<Page>, w: StreamWriter)
    requires Carried(wire, w) && Proj(wire, w.serial) != [] && Fitting(CutAndQueue(w).cut)
    ensures Carried(wire, CutAndQueue(w))
  {
    var w' := CutAndQueue(w);
    assert PagesOf(w'.queue) == PagesOf(w.queue) + [PageOut(w)];
    Assoc(Proj(wire, w.serial), PagesOf(w.queue), [PageOut(w)]);
  }

  // ----- appending segments -----

  lemma AppendOpenHolds(w: StreamWriter, segs: seq<Segment>, lacing: seq<byte>, data: seq<byte>)
    requires Holds(w, segs) && |w.buffered.lacing| + |lacing| <= 255
    requires |data| == Sum(lacing) && CompletedCount(lacing) == 0
    ensures Holds(AppendTo(w, lacing, data), segs + Segs(lacing, data))
  {
    AppendOpen(w.cut, w.serial, w.buffered, segs, w.stamps, lacing, data);
  }

  /** The end of a packet and its stamp go in together. */
  lemma AppendEndHolds(w: StreamWriter, segs: seq<Segment>, lacing: seq<byte>, data: seq<byte>, packet: Packet, g: i64)
    requires Holds(w, segs) && |w.buffered.lacing| + |lacing| <= 255
    requires |data| == Sum(lacing) && CompletedCount(lacing) == 1
    ensures Holds(Stamped(AppendTo(w, lacing, data), packet, g), segs + Segs(lacing, data))
  {
    AppendEnd(w.cut, w.serial, w.buffered, segs, w.stamps, lacing, data, g);
  }

  // ----- lacing tables in chunks -----

  /** Every value but the last is full: the tail of a packet's lacing table. */
  predicate PacketTail(lacing: seq<byte>)
  {
    lacing != [] && lacing[|lacing| - 1] < 255 && forall k :: 0 <= k < |lacing| - 1 ==> lacing[k] == 255
  }

  lemma {:induction false} AllFullCount(lacing: seq<byte>)
    requires forall k :: 0 <= k < |lacing| ==> lacing[k] == 255
    ensures CompletedCount(lacing) == 0
  {
    if lacing != [] {
      AllFullCount(lacing[..|lacing| - 1]);
    }
  }

  lemma TailCount(lacing: seq<byte>)
    requires PacketTail(lacing)
    ensures CompletedCount(lacing) == 1
  {
    AllFullCount(lacing[..|lacing| - 1]);
  }

  /** Cutting 255 segments off a packet's tail leaves a packet's tail. */
  lemma ChunkOff(lacing: seq<byte>, data: seq<byte>, n: nat)
    requires PacketTail(lacing) && |lacing| > 255 && |data| == Sum(lacing) && n == Sum(lacing[..255])
    ensures CompletedCount(lacing[..255]) == 0 && PacketTail(lacing[255..])
    ensures n <= |data| && |data[n..]| == Sum(lacing[255..])
    ensures Segs(lacing, data) == Segs(lacing[..255], data[..n]) + Segs(lacing[255..], data[n..])
  {
    assert lacing == lacing[..255] + lacing[255..];
    SumConcat(lacing[..255], lacing[255..]);
    AllFullCount(lacing[..255]);
    assert data == data[..n] + data[n..];
    SegsConcat(lacing[..255], data[..n], lacing[255..], data[n..]);
  }
}
