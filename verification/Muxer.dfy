/** The muxer as it runs: bytes in queues and in the output, patched and appended in place. */
module Muxers {
  import opened Bytes
  import opened Pages
  import opened Segments
  import opened Paging
  import opened Muxing
  import Validation
  import MuxLinks
  import MuxTheorems
  import MuxStamps
  import MuxWire
  import Theora

  datatype PendingBytes = PendingBytes(bytes: seq<byte>, time: real)

  /** `StreamWriter` with its queue as bytes and without its history. */
  datatype ByteWriter = ByteWriter(
    serial: u32,
    seqNo: u32,
    buffered: Builder,
    headersRemaining: nat,
    bosEmitted: bool,
    queue: seq<PendingBytes>,
    newestTime: real,
    lastGranule: i64,
    tick: real,
    theora: Option<TheoraState>)

  /** The bytes are those of the page. */
  predicate Encodes(b: PendingBytes, p: Pending)
  {
    WellFormed(p.page) && b.bytes == ToBytes(p.page) && b.time == p.time
  }

  predicate EncodesAll(queue: seq<PendingBytes>, pages: seq<Pending>)
  {
    |queue| == |pages| && forall k :: 0 <= k < |queue| ==> Encodes(queue[k], pages[k])
  }

  predicate BuilderOk(b: Builder) { |b.lacing| <= 255 && |b.data| == Sum(b.lacing) }

  /** `v` without its history and its queue. */
  function Bare(w: StreamWriter, queue: seq<PendingBytes>): ByteWriter
  {
    ByteWriter(w.serial, w.seqNo, w.buffered, w.headersRemaining, w.bosEmitted, queue, w.newestTime, w.lastGranule,
               w.tick, w.theora)
  }

  predicate Refines(v: ByteWriter, w: StreamWriter)
  {
    v == Bare(w, v.queue) && EncodesAll(v.queue, w.queue) && BuilderOk(w.buffered)
  }

  predicate AllRefine(perStream: map<u32, ByteWriter>, writers: map<u32, StreamWriter>)
  {
    perStream.Keys == writers.Keys && forall i :: i in perStream ==> Refines(perStream[i], writers[i])
  }

  lemma RefineOne(perStream: map<u32, ByteWriter>, writers: map<u32, StreamWriter>, i: u32, v: ByteWriter,
          w: StreamWriter)
    requires AllRefine(perStream, writers) && Refines(v, w)
    ensures AllRefine(perStream[i := v], writers[i := w])
  {}

  function TimeOf(v: ByteWriter, granule: i64): real
  {
    PageTime(StreamWriter(v.serial, v.seqNo, v.buffered, v.headersRemaining, v.bosEmitted, [], v.newestTime,
                          v.lastGranule, v.tick, v.theora, [], [], []), granule)
  }

  class OggMuxer {
    var output: seq<byte>
    var infos: seq<StreamInfo>
    var perStream: map<u32, ByteWriter>
    var order: seq<u32>
    var headerWritten: bool
    var trailerWritten: bool
    var used: set<u32>
    var linkIndex: nat
    var contentStarted: bool
    var pageTarget: Option<nat>

    /** The same muxer with pages for bytes, and its history. */
    ghost var model: Mux

    ghost predicate Valid()
      reads this
    {
      && AllRefine(perStream, model.writers)
      && output == AllBytes(model.wire)
      && infos == model.infos && order == model.order
      && headerWritten == model.headerWritten && trailerWritten == model.trailerWritten
      && used == model.used && linkIndex == model.linkIndex
      && contentStarted == model.contentStarted && pageTarget == model.pageTarget
    }

    /** Pop the oldest page of stream `i` off its queue and append it to the output. */
    method WritePendingPage(i: u32)
      requires Valid() && i in perStream && perStream[i].queue != []
      modifies this`output, this`perStream, this`model
      ensures Valid() && i in old(model.writers) && old(model.writers[i].queue) != [] && model == Pop(old(model), i)
    {
      var v := perStream[i];
      ghost var w := model.writers[i];
      assert Refines(v, w) && Encodes(v.queue[0], w.queue[0]);
      AllBytesSnoc(model.wire, w.queue[0].page);
      RefineOne(perStream, model.writers, i, v.(queue := v.queue[1..]), w.(queue := w.queue[1..]));
      output := output + v.queue[0].bytes;
      perStream := perStream[i := v.(queue := v.queue[1..])];
      model := Pop(model, i);
    }

    /** Scan the streams in order for the earliest front page among queues longer than `held`. */
    method FindBest(held: nat) returns (best: Option<u32>)
      requires Valid()
      ensures best == Best(model.writers, model.order, held)
      ensures best.Some? ==> best.value in perStream && |perStream[best.value].queue| > held
    {
      best := None;
      assert order[..0] == [];
      for k := 0 to |order|
        invariant best == Best(model.writers, order[..k], held)
        invariant best.Some? ==> best.value in perStream && |perStream[best.value].queue| > held
      {
        var i := order[k];
        UnSnoc(order[..k], i);
        assert order[..k + 1] == order[..k] + [i];
        if i in perStream && |perStream[i].queue| > held {
          FrontTimes(perStream, model.writers, i);
          if best.None? {
            best := Some(i);
          } else {
            FrontTimes(perStream, model.writers, best.value);
            if !(perStream[best.value].queue[0].time <= perStream[i].queue[0].time) {
              best := Some(i);
            }
          }
        } else if i in perStream {
          assert Refines(perStream[i], model.writers[i]);
        }
      }
      assert order[..|order|] == order;
    }

    /** Whether every other stream that has begun has reached `time`. */
    method IsSettled(i: u32, time: real) returns (settled: bool)
      requires Valid()
      ensures settled == Settled(model, i, time)
    {
      for k := 0 to |order|
        invariant forall j :: 0 <= j < k ==>
                    (order[j] in model.writers && order[j] != i && model.writers[order[j]].bosEmitted ==>
                       model.writers[order[j]].newestTime >= time)
      {
        var o := order[k];
        if o != i && o in perStream {
          assert Refines(perStream[o], model.writers[o]);
          if perStream[o].bosEmitted && !(perStream[o].newestTime >= time) {
            return false;
          }
        }
      }
      return true;
    }

    method ReleaseReadyPages()
      requires Valid()
      modifies this`output, this`perStream, this`model
      ensures Valid() && model == Release(old(model))
    {
      while true
        invariant Valid() && Release(model) == Release(old(model))
        decreases Queued(model.writers, model.order)
      {
        var best := FindBest(1);
        if best.None? {
          return;
        }
        FrontTimes(perStream, model.writers, best.value);
        var settled := IsSettled(best.value, perStream[best.value].queue[0].time);
        if !settled {
          return;
        }
        ghost var w := model.writers[best.value];
        PopShrinks(model.writers, model.order, best.value, w.(queue := w.queue[1..]));
        WritePendingPage(best.value);
      }
    }

    method DrainAllQueued()
      requires Valid()
      modifies this`output, this`perStream, this`model
      ensures Valid() && model == DrainAll(old(model))
    {
      while true
        invariant Valid() && DrainAll(model) == DrainAll(old(model))
        decreases Queued(model.writers, model.order)
      {
        var best := FindBest(0);
        if best.None? {
          return;
        }
        ghost var w := model.writers[best.value];
        PopShrinks(model.writers, model.order, best.value, w.(queue := w.queue[1..]));
        WritePendingPage(best.value);
      }
    }

    /** Close the page being filled for stream `i`, queue its bytes, release what is settled. */
    method FlushPage(i: u32, force: bool)
      requires Valid() && i in perStream
      modifies this`output, this`perStream, this`model
      ensures Valid() && i in old(model).writers && model == Flush(old(model), i, force)
    {
      var v := perStream[i];
      ghost var w := model.writers[i];
      assert Refines(v, w);
      if v.buffered.lacing == [] && !force {
        return;
      }
      var v' := CutBytes(v, w);
      RefineOne(perStream, model.writers, i, v', CutAndQueue(w));
      perStream := perStream[i := v'];
      model := With(model, i, CutAndQueue(w));
      ReleaseReadyPages();
    }

    static method CutBytes(v: ByteWriter, ghost w: StreamWriter) returns (v': ByteWriter)
      requires Refines(v, w)
      ensures Refines(v', CutAndQueue(w))
    {
      var page := Page(Flags(v.buffered.continued, !v.bosEmitted, false), v.buffered.granule, v.serial, v.seqNo,
                       v.buffered.lacing, v.buffered.data);
      var time := MaxReal(v.newestTime, TimeOf(v, page.granule));
      SameTime(v, w, page.granule);
      var entry := Serialize(page, time);
      QueueSnoc(v.queue, w.queue, entry, Pending(page, time));
      v' := v.(seqNo := NextU32(v.seqNo), buffered := Builder([], [], -1, EndsOpen(page.lacing)), bosEmitted := true,
               newestTime := time, lastGranule := if page.granule >= 0 then page.granule else v.lastGranule,
               queue := v.queue + [entry]);
      CutRefines(v, w, page, time, v');
    }

    static method Serialize(page: Page, time: real) returns (entry: PendingBytes)
      requires WellFormed(page)
      ensures Encodes(entry, Pending(page, time)) && entry.time == time
    {
      entry := PendingBytes(ToBytes(page), time);
    }

    /** Segments and their bytes into the builder of stream `i`. */
    method AppendChunk(i: u32, lacing: seq<byte>, data: seq<byte>)
      requires Valid() && i in perStream && |perStream[i].buffered.lacing| + |lacing| <= 255 && |data| == Sum(lacing)
      modifies this`perStream, this`model
      ensures Valid() && i in old(model).writers
      ensures model == With(old(model), i, AppendTo(old(model).writers[i], lacing, data))
    {
      var v := perStream[i];
      ghost var w := model.writers[i];
      assert Refines(v, w);
      SumConcat(v.buffered.lacing, lacing);
      var v' := v.(buffered := v.buffered.(lacing := v.buffered.lacing + lacing, data := v.buffered.data + data));
      RefineOne(perStream, model.writers, i, v', AppendTo(w, lacing, data));
      perStream := perStream[i := v'];
      model := With(model, i, AppendTo(w, lacing, data));
    }

    /** A packet of more than 255 segments: fill a page, flush it, go on; the last part stays in the builder. */
    method AppendPacketSpanning(i: u32, lacing: seq<byte>, data: seq<byte>)
      requires Valid() && i in perStream && perStream[i].buffered.lacing == [] && |data| == Sum(lacing) && lacing != []
      modifies this`output, this`perStream, this`model
      ensures Valid() && i in old(model).writers
      ensures model == Spanned(old(model), i, lacing, data)
    {
      var segOff, dataOff: nat := 0, 0;
      assert lacing[0..] == lacing && data[0..] == data;
      while segOff < |lacing|
        invariant Valid() && i in perStream && 0 <= segOff <= |lacing| && dataOff <= |data|
        invariant |data[dataOff..]| == Sum(lacing[segOff..])
        invariant segOff < |lacing| ==>
                    && perStream[i].buffered.lacing == [] && i in model.writers
                    && Spanned(model, i, lacing[segOff..], data[dataOff..]) == Spanned(old(model), i, lacing, data)
        invariant segOff == |lacing| ==> model == Spanned(old(model), i, lacing, data)
      {
        segOff, dataOff := SpanChunk(i, lacing, data, segOff, dataOff);
      }
    }

    /** One turn of the spanning loop. */
    method SpanChunk(i: u32, lacing: seq<byte>, data: seq<byte>, segOff: nat, dataOff: nat)
      returns (segOff': nat, dataOff': nat)
      requires Valid() && i in perStream && perStream[i].buffered.lacing == []
      requires segOff < |lacing| && dataOff <= |data| && |data[dataOff..]| == Sum(lacing[segOff..])
      modifies this`output, this`perStream, this`model
      ensures Valid() && i in perStream && i in old(model).writers && segOff < segOff' <= |lacing| && dataOff' <= |data|
      ensures |data[dataOff'..]| == Sum(lacing[segOff'..])
      ensures segOff' < |lacing| ==>
                && perStream[i].buffered.lacing == [] && i in model.writers
                && Spanned(model, i, lacing[segOff'..], data[dataOff'..])
                == Spanned(old(model), i, lacing[segOff..], data[dataOff..])
      ensures segOff' == |lacing| ==> model == Spanned(old(model), i, lacing[segOff..], data[dataOff..])
    {
      var room := 255 - |perStream[i].buffered.lacing|;
      var take := Min(room, |lacing| - segOff);
      segOff' := segOff + take;
      var chunk := lacing[segOff..segOff'];
      dataOff' := dataOff + Sum(chunk);
      assert Refines(perStream[i], model.writers[i]);
      SpanTurn(model, i, lacing, segOff, segOff', data, dataOff, dataOff', chunk);
      AppendAndFlush(i, chunk, data[dataOff..dataOff'], segOff' < |lacing|);
      assert Refines(perStream[i], model.writers[i]);
    }

    method AppendAndFlush(i: u32, chunk: seq<byte>, data: seq<byte>, more: bool)
      requires Valid() && i in perStream && |perStream[i].buffered.lacing| + |chunk| <= 255 && |data| == Sum(chunk)
      modifies this`output, this`perStream, this`model
      ensures Valid() && i in old(model).writers && i in perStream && i in model.writers
      ensures var m := With(old(model), i, AppendTo(old(model).writers[i], chunk, data));
              model == if more then Flush(m, i, false) else m
    {
      AppendChunk(i, chunk, data);
      if more {
        FlushPage(i, false);
      }
    }

    /** Replace the writer of stream `i`; queue and builder bytes must go with it. */
    method Store(i: u32, v: ByteWriter, ghost w: StreamWriter)
      requires Valid() && i in perStream && Refines(v, w)
      modifies this`perStream, this`model
      ensures Valid() && i in old(model).writers && model == With(old(model), i, w)
    {
      RefineOne(perStream, model.writers, i, v, w);
      perStream := perStream[i := v];
      model := With(model, i, w);
    }

    /** The packet's bytes go into the builder, after a flush if they do not fit beside what is there. */
    method PlacePacket(i: u32, data: Packet)
      requires Valid() && i in perStream
      modifies this`output, this`perStream, this`model
      ensures Valid() && i in old(model).writers && model == Place(old(model), i, data)
    {
      LaceMeaning(|data|);
      var lacing := Lace(|data|);
      var b := perStream[i].buffered;
      assert Refines(perStream[i], model.writers[i]);
      ghost var start := model;
      if |b.lacing| + |lacing| > 255 && b.lacing != [] {
        FlushEmpties(model, i);
        FlushPage(i, false);
        assert Refines(perStream[i], model.writers[i]);
      }
      assert model == MakeRoom(start, i, |data| / 255 + 1);
      PlaceIs(start, i, data);
      if |lacing| > 255 {
        AppendPacketSpanning(i, lacing, data);
      } else {
        SpanLast(model, i, lacing, data, lacing, data);
        AppendChunk(i, lacing, data);
      }
    }

    /** The stamp of a content packet, and the Theora counters after it. */
    static method MakeStamp(v: ByteWriter, packet: MuxPacket, ghost w: StreamWriter)
      returns (stamp: Stamping, theora: Option<TheoraState>)
      requires v.theora == w.theora
      ensures stamp == StampFor(w, packet) && theora == Counted(w, packet).theora
    {
      if v.theora.None? {
        stamp := if packet.pts.Some? then Give(packet.pts.value) else Carry;
        return stamp, None;
      }
      var th := v.theora.value;
      var frame := if packet.pts.Some? then packet.pts.value else th.nextFrame;
      if packet.keyframe {
        th := th.(lastKf := frame);
      }
      var granule := Theora.Pack(th.gran, frame, th.lastKf);
      if granule.None? || !(-TWO63 <= granule.value < TWO63) {
        return Refuse, Some(th);
      }
      th := th.(nextFrame := WrapI64(frame + 1));
      return Give(granule.value), Some(th);
    }

    /** A header packet ends its page and is stamped 0. */
    method EndHeaderPacket(i: u32, ghost data: Packet)
      requires Valid() && i in perStream
      modifies this`output, this`perStream, this`model
      ensures Valid() && i in old(model).writers && model == EndHeader(old(model), i, data)
    {
      var v := perStream[i];
      ghost var w := model.writers[i];
      assert Refines(v, w);
      var v' := v.(headersRemaining := Max(v.headersRemaining - 1, 0), buffered := v.buffered.(granule := 0));
      Store(i, v', Stamped(w.(headersRemaining := Max(w.headersRemaining - 1, 0)), data, 0));
      FlushPage(i, true);
    }

    /** A content packet's stamp goes on its page; a refused packet stays on the page, without one. */
    method StampContent(packet: MuxPacket) returns (ok: bool)
      requires Valid() && packet.stream in perStream
      modifies this`perStream, this`model, this`contentStarted
      ensures Valid() && packet.stream in old(model).writers && packet.stream in perStream
      ensures ok == !StampFor(old(model).writers[packet.stream], packet).Refuse?
      ensures var w := old(model).writers[packet.stream];
              var stamp := StampFor(w, packet);
              model == if ok then ContentStamped(old(model), packet,
                                                 if stamp.Give? then stamp.granule else w.buffered.granule)
                       else With(old(model), packet.stream, Unstamped(w, packet))
    {
      var i := packet.stream;
      var v := perStream[i];
      ghost var w := model.writers[i];
      assert Refines(v, w);
      var stamp, theora := MakeStamp(v, packet, w);
      if stamp.Refuse? {
        SealRefines(v, w, packet, v.buffered.granule);
        Store(i, v.(theora := theora), Unstamped(w, packet));
        return false;
      }
      SealContent(packet, if stamp.Give? then stamp.granule else v.buffered.granule, theora);
      return true;
    }

    method SealContent(packet: MuxPacket, granule: i64, theora: Option<TheoraState>)
      requires Valid() && packet.stream in perStream && packet.stream in model.writers
      requires theora == Counted(model.writers[packet.stream], packet).theora
      modifies this`perStream, this`model, this`contentStarted
      ensures Valid() && packet.stream in old(model).writers && packet.stream in perStream
      ensures model == ContentStamped(old(model), packet, granule)
    {
      var i := packet.stream;
      var v := perStream[i];
      ghost var w := model.writers[i];
      assert Refines(v, w);
      SealRefines(v, w, packet, granule);
      Store(i, v.(theora := theora, buffered := v.buffered.(granule := granule)),
            Stamped(Counted(w, packet), packet.data, granule));
      contentStarted := true;
      model := model.(contentStarted := true);
    }

    /** The page is cut on request, or at the page target. */
    method CutPageIfDue(i: u32, unitBoundary: bool)
      requires Valid() && i in perStream
      modifies this`output, this`perStream, this`model
      ensures Valid() && i in old(model).writers && model == CutIfDue(old(model), i, unitBoundary)
    {
      assert Refines(perStream[i], model.writers[i]);
      if unitBoundary {
        FlushPage(i, true);
      } else if pageTarget.Some? && |perStream[i].buffered.data| >= pageTarget.value {
        FlushPage(i, false);
      }
    }

    method EndContentPacket(packet: MuxPacket) returns (ok: bool)
      requires Valid() && packet.stream in perStream
      modifies this`output, this`perStream, this`model, this`contentStarted
      ensures Valid() && packet.stream in old(model).writers
      ensures ok == !StampFor(old(model).writers[packet.stream], packet).Refuse?
      ensures model == if ok then EndContent(old(model), packet)
                       else With(old(model), packet.stream, Unstamped(old(model).writers[packet.stream], packet))
    {
      ok := StampContent(packet);
      if ok {
        CutPageIfDue(packet.stream, packet.unitBoundary);
      }
    }

    method WritePacket(packet: MuxPacket) returns (ok: bool)
      requires Valid()
      modifies this`output, this`perStream, this`model, this`contentStarted
      ensures Valid() && (model, ok) == Muxing.WritePacket(old(model), packet)
    {
      var i := packet.stream;
      if !headerWritten || i !in perStream {
        return false;
      }
      assert Refines(perStream[i], model.writers[i]);
      var header := perStream[i].headersRemaining > 0;
      PlacePacket(i, packet.data);
      if header {
        EndHeaderPacket(i, packet.data);
        return true;
      }
      ok := EndContentPacket(packet);
    }

    // ----- the header section -----

    /** The first serial from the stream's index on that nobody has. */
    static method FindSerial(taken: set<u32>, index: u32) returns (serial: u32)
      requires |taken| < TWO32
      ensures serial == FreeSerial(taken, index, 0)
    {
      ghost var n := 0;
      serial := index;
      while serial in taken
        invariant 0 <= n <= TWO32
        invariant (forall k: nat {:trigger Wrapped(index, k)} :: k < n ==> Wrapped(index, k) in taken)
        invariant serial == Wrapped(index, n) && (n == TWO32 ==> serial in taken)
        invariant FreeSerial(taken, index, n) == FreeSerial(taken, index, 0)
        decreases TWO32 - n
      {
        if n == TWO32 {
          NoneLeft(taken, index);
        }
        n := n + 1;
        NextWrapped(index, n, serial);
        serial := NextU32(serial);
      }
    }

    static method BuildLinkWriters(infos: seq<StreamInfo>, used: set<u32>)
      returns (perStream: map<u32, ByteWriter>, taken: set<u32>)
      requires |used| + |infos| < TWO32
      ensures taken == BuildWriters(infos, used).1 && AllRefine(perStream, BuildWriters(infos, used).0)
    {
      perStream, taken := map[], used;
      ghost var writers: map<u32, StreamWriter> := map[];
      assert infos[..0] == [];
      for k := 0 to |infos|
        invariant |taken| + (|infos| - k) < TWO32
        invariant (writers, taken) == BuildWriters(infos[..k], used) && AllRefine(perStream, writers)
      {
        var s := infos[k];
        assert infos[..k + 1] == infos[..k] + [s];
        UnSnoc(infos[..k], s);
        var serial := FindSerial(taken, s.index);
        var v := ByteWriter(serial, 0, EMPTY, s.headerCount, false, [], 0.0, 0, s.tick,
                            if s.isTheora then s.theora else None);
        RefineOne(perStream, writers, s.index, v, Muxing.NewWriter(s, serial));
        perStream := perStream[s.index := v];
        writers := writers[s.index := Muxing.NewWriter(s, serial)];
        taken := taken + {serial};
      }
      assert infos[..|infos|] == infos;
    }

    constructor (infos: seq<StreamInfo>)
      requires |infos| < TWO32
      ensures Valid() && model == BeforeHeaders(infos)
    {
      var perStream0, taken := BuildLinkWriters(infos, {});
      output, perStream := [], perStream0;
      this.infos := infos;
      order := Indices(infos);
      headerWritten, trailerWritten, used, linkIndex, contentStarted := false, false, taken, 0, false;
      pageTarget := None;
      model := Mux(infos, BuildWriters(infos, {}).0, Indices(infos), [], false, false, taken, 0, false, None, [], []);
    }

    method SetPageTarget(bytes: Option<nat>)
      requires Valid()
      modifies this`pageTarget, this`model
      ensures Valid() && model == Apply(old(model), SetTarget(bytes))
    {
      pageTarget := bytes;
      model := model.(pageTarget := bytes);
    }

    /** The identification packet alone on the BOS page, past the queue. */
    method WriteBosPage(s: StreamInfo)
      requires Valid() && FirstFits(s)
      modifies this`output, this`perStream, this`model
      ensures Valid() && model == WriteBos(old(model), s)
    {
      if s.headers == [] || s.index !in perStream || perStream[s.index].headersRemaining == 0 {
        if s.index in perStream {
          assert Refines(perStream[s.index], model.writers[s.index]);
        }
        return;
      }
      var first := s.headers[0];
      var v := perStream[s.index];
      ghost var w := model.writers[s.index];
      assert Refines(v, w);
      var page := Page(FIRST_PAGE, 0, v.serial, v.seqNo, Lace(|first|), first);
      assert page == BosPage(w, first);
      AllBytesSnoc(model.wire, page);
      output := output + ToBytes(page);
      model := model.(wire := model.wire + [page]);
      Store(s.index, v.(seqNo := NextU32(v.seqNo), bosEmitted := true, headersRemaining := v.headersRemaining - 1),
            BosWritten(w, first));
    }

    method WriteHeaderPackets(s: StreamInfo, packets: seq<Packet>)
      requires Valid()
      modifies this`output, this`perStream, this`model, this`contentStarted
      ensures Valid() && model == WriteHeaders(old(model), s, packets)
    {
      assert packets[..0] == [];
      for k := 0 to |packets|
        invariant Valid() && model == WriteHeaders(old(model), s, packets[..k])
      {
        assert packets[..k + 1] == packets[..k] + [packets[k]];
        UnSnoc(packets[..k], packets[k]);
        var _ := WritePacket(HeaderPacket(s, packets[k]));
      }
      assert packets[..|packets|] == packets;
    }

    /** BOS pages together, then every other header packet, then all of it onto the wire. */
    method WriteHeaderSection()
      requires Valid() && forall k :: 0 <= k < |infos| ==> FirstFits(infos[k])
      modifies this`output, this`perStream, this`model, this`contentStarted, this`headerWritten
      ensures Valid() && model == HeaderSection(old(model))
    {
      headerWritten := true;
      model := model.(headerWritten := true);
      var ordered := HeaderOrder(infos);
      OrderedFit(infos);
      WriteBosPages(ordered);
      WriteOtherHeaders(ordered);
      DrainAllQueued();
      model := model.(released := []);
    }

    method WriteBosPages(ordered: seq<StreamInfo>)
      requires Valid() && forall s :: s in ordered ==> FirstFits(s)
      modifies this`output, this`perStream, this`model
      ensures Valid() && model == WriteAllBos(old(model), ordered)
    {
      assert ordered[..0] == [];
      for k := 0 to |ordered|
        invariant Valid() && model == WriteAllBos(old(model), ordered[..k])
      {
        assert ordered[..k + 1] == ordered[..k] + [ordered[k]];
        UnSnoc(ordered[..k], ordered[k]);
        WriteBosPage(ordered[k]);
      }
      assert ordered[..|ordered|] == ordered;
    }

    method WriteOtherHeaders(ordered: seq<StreamInfo>)
      requires Valid()
      modifies this`output, this`perStream, this`model, this`contentStarted
      ensures Valid() && model == WriteAllHeaders(old(model), ordered)
    {
      assert ordered[..0] == [];
      for k := 0 to |ordered|
        invariant Valid() && model == WriteAllHeaders(old(model), ordered[..k])
      {
        assert ordered[..k + 1] == ordered[..k] + [ordered[k]];
        UnSnoc(ordered[..k], ordered[k]);
        var s := ordered[k];
        WriteHeaderPackets(s, if s.headers == [] then [] else s.headers[1..]);
      }
      assert ordered[..|ordered|] == ordered;
    }

    /** `write_header`; false if it was called before. */
    method WriteHeader() returns (ok: bool)
      requires Valid() && forall k :: 0 <= k < |infos| ==> FirstFits(infos[k])
      modifies this`output, this`perStream, this`model, this`contentStarted, this`headerWritten
      ensures Valid() && ok == !old(headerWritten) && model == if ok then HeaderSection(old(model)) else old(model)
    {
      if headerWritten {
        return false;
      }
      WriteHeaderSection();
      return true;
    }

    // ----- the end of a link -----

    /** EOS: onto the newest queued page in place, or onto an empty page if all are written. */
    method CloseQueue(i: u32)
      requires Valid() && i in perStream
      modifies this`perStream, this`model
      ensures Valid() && i in old(model).writers && model == With(old(model), i, Close(old(model).writers[i]))
    {
      var v := perStream[i];
      ghost var w := model.writers[i];
      assert Refines(v, w);
      if v.queue != [] {
        var n := |v.queue| - 1;
        PageBytesLong(v.queue[n], w.queue[n]);
        var patched := v.queue[n].(bytes := PatchEosZeroing(v.queue[n].bytes));
        MarkRefines(v, w, patched);
        Store(i, v.(queue := v.queue[..n] + [patched]), Close(w));
      } else if v.bosEmitted {
        var nil := Page(LAST_PAGE, v.lastGranule, v.serial, v.seqNo, [], []);
        var entry := Serialize(nil, v.newestTime);
        NilRefines(v, w, nil, entry);
        Store(i, v.(seqNo := NextU32(v.seqNo), queue := [entry]), Close(w));
      } else {
        Store(i, v, w);
      }
    }

    /** Cut what is being filled, then EOS. */
    method FinishStream(i: u32)
      requires Valid() && i in perStream
      modifies this`output, this`perStream, this`model
      ensures Valid() && model == CloseStream(old(model), i)
    {
      assert Refines(perStream[i], model.writers[i]);
      if perStream[i].buffered.lacing != [] {
        FlushPage(i, true);
      }
      CloseQueue(i);
    }

    method FinishStreams(streams: seq<u32>)
      requires Valid() && forall k :: 0 <= k < |streams| ==> streams[k] in perStream
      modifies this`output, this`perStream, this`model
      ensures Valid() && model == CloseAll(old(model), streams)
    {
      assert streams[..0] == [];
      for k := 0 to |streams|
        invariant Valid() && model == CloseAll(old(model), streams[..k])
        invariant forall j :: 0 <= j < |streams| ==> streams[j] in perStream
      {
        CloseAllSnoc(old(model), streams, k);
        FinishStream(streams[k]);
      }
      assert streams[..|streams|] == streams;
    }

    method FinalizeCurrentLink()
      requires Valid() && forall k :: 0 <= k < |order| ==> order[k] in perStream
      modifies this`output, this`perStream, this`model
      ensures Valid() && model == FinishLink(old(model))
    {
      FinishStreams(order);
      DrainAllQueued();
    }

    method WriteTrailer()
      requires Valid() && forall k :: 0 <= k < |order| ==> order[k] in perStream
      modifies this`output, this`perStream, this`model, this`trailerWritten
      ensures Valid() && model == Muxing.WriteTrailer(old(model))
    {
      if trailerWritten {
        return;
      }
      FinalizeCurrentLink();
      NoteTrailer();
    }

    method NoteTrailer()
      requires Valid()
      modifies this`trailerWritten, this`model
      ensures Valid() && model == old(model).(trailerWritten := true)
    {
      trailerWritten := true;
      model := model.(trailerWritten := true);
    }

    /** Finish this link, then open the next one with serials of its own; false if it may not begin yet. */
    method BeginNewLink(next: seq<StreamInfo>) returns (ok: bool)
      requires Valid() && (forall k :: 0 <= k < |order| ==> order[k] in perStream)
      requires |used| + |next| < TWO32 && forall k :: 0 <= k < |next| ==> FirstFits(next[k])
      modifies this
      ensures Valid() && ok == MayBeginLink(old(model), next) && model == BeginLink(old(model), next)
    {
      if !headerWritten || trailerWritten || !contentStarted || next == [] {
        return false;
      }
      FinishKeepsUsed(model);
      FinalizeCurrentLink();
      Rearm(next);
      WriteHeaderSection();
      return true;
    }

    method Rearm(next: seq<StreamInfo>)
      requires Valid() && |used| + |next| < TWO32
      modifies this
      ensures Valid() && |old(model).used| + |next| < TWO32 && model == Rearmed(old(model), next)
    {
      ghost var done := WritersOf(model.writers, model.order);
      var perStream', taken := BuildLinkWriters(next, used);
      Install(next, perStream', taken, BuildWriters(next, used).0, done);
    }

    method Install(next: seq<StreamInfo>, streams: map<u32, ByteWriter>, taken: set<u32>,
                   ghost writers: map<u32, StreamWriter>, ghost done: seq<StreamWriter>)
      requires Valid() && AllRefine(streams, writers)
      modifies this
      ensures Valid()
      ensures model == old(model).(infos := next, writers := writers, order := Indices(next), used := taken,
                                   linkIndex := Validation.SaturatingInc(old(model).linkIndex), contentStarted := false,
                                   past := old(model).past + done)
    {
      perStream, used := streams, taken;
      order := Indices(next);
      infos := next;
      linkIndex := Validation.SaturatingInc(linkIndex);
      contentStarted := false;
      model := model.(infos := next, writers := writers, order := Indices(next), used := taken,
                      linkIndex := Validation.SaturatingInc(model.linkIndex), contentStarted := false,
                      past := model.past + done);
    }
  }

  lemma SameTime(v: ByteWriter, w: StreamWriter, granule: i64)
    requires Refines(v, w)
    ensures TimeOf(v, granule) == PageTime(w, granule)
  {}

  lemma QueueSnoc(queue: seq<PendingBytes>, pages: seq<Pending>, b: PendingBytes, p: Pending)
    requires EncodesAll(queue, pages) && Encodes(b, p)
    ensures EncodesAll(queue + [b], pages + [p])
  {}

  lemma CutRefines(v: ByteWriter, w: StreamWriter, page: Page, time: real, v': ByteWriter)
    requires Refines(v, w) && page == PageOut(w) && time == MaxReal(w.newestTime, PageTime(w, page.granule))
    requires EncodesAll(v'.queue, w.queue + [Pending(page, time)])
    requires v'
        == v.(seqNo := NextU32(v.seqNo), buffered := Builder([], [], -1, EndsOpen(page.lacing)), bosEmitted := true,
                      newestTime := time, lastGranule := if page.granule >= 0 then page.granule else v.lastGranule,
                      queue := v'.queue)
    ensures Refines(v', CutAndQueue(w))
  {}

  /** A packet's segments laid out from an empty builder on. */
  function Spanned(m: Mux, i: u32, lacing: seq<byte>, data: seq<byte>): Mux
    requires i in m.writers && |data| == Sum(lacing)
  {
    var (m1, l, d) := SpanOpen(m, i, lacing, data);
    With(m1, i, AppendTo(m1.writers[i], l, d))
  }

  lemma CutSpan(lacing: seq<byte>, segOff: nat, take: nat, data: seq<byte>, dataOff: nat, bytes: nat)
    requires segOff + take <= |lacing| && dataOff <= |data| && |data[dataOff..]| == Sum(lacing[segOff..])
    requires bytes == Sum(lacing[segOff..segOff + take])
    ensures dataOff + bytes <= |data| && |data[dataOff + bytes..]| == Sum(lacing[segOff + take..])
    ensures take > 0 ==> lacing[segOff..segOff + take] == lacing[segOff..][..take]
    ensures lacing[segOff + take..] == lacing[segOff..][take..]
    ensures data[dataOff..dataOff + bytes] == data[dataOff..][..bytes]
    ensures data[dataOff + bytes..] == data[dataOff..][bytes..]
  {
    assert lacing[segOff..] == lacing[segOff..segOff + take] + lacing[segOff + take..];
    SumConcat(lacing[segOff..segOff + take], lacing[segOff + take..]);
  }

  lemma SpanMore(m: Mux, i: u32, lacing: seq<byte>, data: seq<byte>, chunk: seq<byte>, bytes: seq<byte>,
          rest: seq<byte>, more: seq<byte>)
    requires i in m.writers && |data| == Sum(lacing) && |lacing| > 255 && chunk == lacing[..255]
    requires rest == lacing[255..]
    requires Sum(chunk) <= |data| && bytes == data[..Sum(chunk)] && more == data[Sum(chunk)..] && |more| == Sum(rest)
    ensures Spanned(m, i, lacing, data)
        == Spanned(Flush(With(m, i, AppendTo(m.writers[i], chunk, bytes)), i, false), i, rest, more)
  {}

  lemma SpanLast(m: Mux, i: u32, lacing: seq<byte>, data: seq<byte>, chunk: seq<byte>, bytes: seq<byte>)
    requires i in m.writers && |data| == Sum(lacing) && |lacing| <= 255 && chunk == lacing && bytes == data
    ensures Spanned(m, i, lacing, data) == With(m, i, AppendTo(m.writers[i], chunk, bytes))
  {}

  /** What one turn of the spanning loop does to the layout still to come. */
  lemma SpanTurn(m: Mux, i: u32, lacing: seq<byte>, segOff: nat, segOff': nat, data: seq<byte>, dataOff: nat,
          dataOff': nat, chunk: seq<byte>)
    requires i in m.writers && m.writers[i].buffered.lacing == []
    requires segOff < segOff' <= |lacing| && dataOff <= |data| && |data[dataOff..]| == Sum(lacing[segOff..])
    requires segOff' - segOff == Min(255, |lacing| - segOff)
    requires chunk == lacing[segOff..segOff'] && dataOff' == dataOff + Sum(chunk)
    ensures dataOff' <= |data| && |data[dataOff'..]| == Sum(lacing[segOff'..])
    ensures |data[dataOff..dataOff']| == Sum(chunk)
    ensures var m' := With(m, i, AppendTo(m.writers[i], chunk, data[dataOff..dataOff']));
            if segOff' < |lacing| then
              && Flush(m', i, false).writers[i].buffered.lacing == []
              && Spanned(Flush(m', i, false), i, lacing[segOff'..], data[dataOff'..])
              == Spanned(m, i, lacing[segOff..], data[dataOff..])
            else m' == Spanned(m, i, lacing[segOff..], data[dataOff..])
  {
    CutSpan(lacing, segOff, segOff' - segOff, data, dataOff, Sum(chunk));
    var part := data[dataOff..dataOff'];
    if segOff' < |lacing| {
      SpanMore(m, i, lacing[segOff..], data[dataOff..], chunk, part, lacing[segOff'..], data[dataOff'..]);
      FlushEmpties(With(m, i, AppendTo(m.writers[i], chunk, part)), i);
    } else {
      SpanLast(m, i, lacing[segOff..], data[dataOff..], chunk, part);
    }
  }

  lemma PlaceIs(m: Mux, i: u32, data: Packet)
    requires i in m.writers
    ensures |data| == Sum(Lace(|data|))
    ensures Place(m, i, data) == Spanned(MakeRoom(m, i, |data| / 255 + 1), i, Lace(|data|), data)
  {
    LaceMeaning(|data|);
  }

  lemma SealRefines(v: ByteWriter, w: StreamWriter, packet: MuxPacket, granule: i64)
    requires Refines(v, w)
    ensures var w' := Stamped(Counted(w, packet), packet.data, granule);
            Refines(v.(theora := w'.theora, buffered := v.buffered.(granule := granule)), w')
  {}

  lemma NextWrapped(start: u32, n: nat, s: u32)
    requires n > 0 && s == Wrapped(start, n - 1)
    ensures NextU32(s) == Wrapped(start, n)
  {}

  /** The identification packet fits one page; a longer one cannot be serialized as a BOS page. */
  predicate FirstFits(s: StreamInfo) { s.headers != [] ==> |Lace(|s.headers[0]|)| <= 255 }

  lemma OrderedFit(infos: seq<StreamInfo>)
    requires forall k :: 0 <= k < |infos| ==> FirstFits(infos[k])
    ensures forall s :: s in HeaderOrder(infos) ==> FirstFits(s)
  {
    forall s | s in HeaderOrder(infos)
      ensures FirstFits(s)
    {
      MuxLinks.OrderMembers(infos, s);
    }
  }

  lemma MarkRefines(v: ByteWriter, w: StreamWriter, patched: PendingBytes)
    requires Refines(v, w) && v.queue != []
    requires var last := v.queue[|v.queue| - 1];
             |last.bytes| >= HEADER_LEN && patched == last.(bytes := PatchEosZeroing(last.bytes))
    ensures Refines(v.(queue := v.queue[..|v.queue| - 1] + [patched]), Close(w))
  {
    var n := |v.queue| - 1;
    assert Encodes(v.queue[n], w.queue[n]);
    EosPatch(w.queue[n].page);
  }

  lemma NilRefines(v: ByteWriter, w: StreamWriter, nil: Page, entry: PendingBytes)
    requires Refines(v, w) && v.queue == [] && v.bosEmitted
    requires nil == Page(LAST_PAGE, v.lastGranule, v.serial, v.seqNo, [], [])
    requires Encodes(entry, Pending(nil, v.newestTime))
    ensures Refines(v.(seqNo := NextU32(v.seqNo), queue := [entry]), Close(w))
  {}

  lemma PageBytesLong(b: PendingBytes, p: Pending)
    requires Encodes(b, p)
    ensures |b.bytes| >= HEADER_LEN
  {}

  lemma CloseAllSnoc(m: Mux, streams: seq<u32>, k: nat)
    requires k < |streams|
    ensures CloseAll(m, streams[..k + 1]) == CloseStream(CloseAll(m, streams[..k]), streams[k])
  {
    assert streams[..k + 1] == streams[..k] + [streams[k]];
    UnSnoc(streams[..k], streams[k]);
  }

  lemma FlushKeepsUsed(m: Mux, i: u32)
    requires i in m.writers
    ensures Flush(m, i, true).used == m.used && Flush(m, i, true).order == m.order
  {
    MuxWire.ReleaseMoves(With(m, i, CutAndQueue(m.writers[i])));
  }

  lemma {:induction false} CloseKeepsUsed(m: Mux, order: seq<u32>)
    ensures CloseAll(m, order).used == m.used && CloseAll(m, order).order == m.order
  {
    if order != [] {
      var front, i := order[..|order| - 1], order[|order| - 1];
      CloseKeepsUsed(m, front);
      if i in m.writers {
        FlushKeepsUsed(CloseAll(m, front), i);
      }
    }
  }

  lemma FinishKeepsUsed(m: Mux)
    ensures FinishLink(m).used == m.used && FinishLink(m).order == m.order
  {
    CloseKeepsUsed(m, m.order);
    MuxWire.DrainMoves(CloseAll(m, m.order));
  }

  lemma FlushEmpties(m: Mux, i: u32)
    requires i in m.writers && m.writers[i].buffered.lacing != []
    ensures Flush(m, i, false).writers[i].buffered.lacing == []
  {
    MuxWire.ReleaseMoves(With(m, i, CutAndQueue(m.writers[i])));
  }

  lemma FrontTimes(perStream: map<u32, ByteWriter>, writers: map<u32, StreamWriter>, i: u32)
    requires AllRefine(perStream, writers) && i in perStream && perStream[i].queue != []
    ensures i in writers && |writers[i].queue| == |perStream[i].queue|
    ensures writers[i].queue[0].time == perStream[i].queue[0].time
  {
    assert Refines(perStream[i], writers[i]) && Encodes(perStream[i].queue[0], writers[i].queue[0]);
  }

  /** After a well-used run and the trailer, the bytes written are a clean file. */
  lemma FileIsClean(o: OggMuxer, infos: seq<StreamInfo>, calls: seq<Call>)
    requires MuxTheorems.WellUsed(infos, calls) && |infos| < TWO32 && MuxStamps.StampedRun(infos, calls)
    requires o.Valid() && o.model == MuxTheorems.Final(infos, calls)
    ensures Validation.Clean(o.output)
  {
    MuxStamps.EveryRunIsClean(infos, calls, o.model.wire);
  }
}
