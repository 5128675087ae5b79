/** The start of a link: serials nobody has used, BOS pages together, header packets before data. */
module MuxLinks {
  import opened Bytes
  import opened Pages
  import opened Segments
  import opened Grammar
  import opened Paging
  import opened Muxing
  import opened MuxWire
  import opened MuxFill
  import opened MuxSteps

  // ----- serials -----

  predicate DistinctIndices(infos: seq<StreamInfo>)
  {
    forall j, k :: 0 <= j < k < |infos| ==> infos[j].index != infos[k].index
  }

  /** Each stream has a fresh writer with a serial of its own, none of them used before. */
  predicate FreshWriters(infos: seq<StreamInfo>, writers: map<u32, StreamWriter>, used: set<u32>, used': set<u32>)
  {
    && used <= used'
    && (forall i :: i in writers ==> exists k :: 0 <= k < |infos| && infos[k].index == i)
    && (forall k :: 0 <= k < |infos| ==> infos[k].index in writers)
    && (forall k :: 0 <= k < |infos| ==> writers[infos[k].index] == NewWriter(infos[k], writers[infos[k].index].serial))
    && (forall i :: i in writers ==> writers[i].serial !in used && writers[i].serial in used')
    && OwnSerials(writers)
  }

  lemma FreshSnoc(infos: seq<StreamInfo>, writers: map<u32, StreamWriter>, used: set<u32>, used': set<u32>,
          s: StreamInfo, serial: u32)
    requires FreshWriters(infos, writers, used, used') && DistinctIndices(infos + [s]) && serial !in used'
    ensures FreshWriters(infos + [s], writers[s.index := NewWriter(s, serial)], used, used' + {serial})
  {
    var all := infos + [s];
    var writers' := writers[s.index := NewWriter(s, serial)];
    assert all[|infos|] == s;
    forall k | 0 <= k < |all|
      ensures all[k].index in writers' && writers'[all[k].index] == NewWriter(all[k], writers'[all[k].index].serial)
    {
      assert k < |infos| ==> all[k] == infos[k] && all[k].index != all[|infos|].index;
    }
    forall i | i in writers'
      ensures exists k :: 0 <= k < |all| && all[k].index == i
    {
      if i in writers {
        var k :| 0 <= k < |infos| && infos[k].index == i;
        assert all[k].index == i;
      } else {
        assert all[|infos|].index == i;
      }
    }
  }

  lemma DistinctFront(infos: seq<StreamInfo>, s: StreamInfo)
    requires DistinctIndices(infos + [s])
    ensures DistinctIndices(infos) && forall k :: 0 <= k < |infos| ==> infos[k].index != s.index
  {
    var all := infos + [s];
    assert all[|infos|] == s;
    forall k | 0 <= k < |infos|
      ensures infos[k] == all[k] && infos[k].index != s.index
    {
      assert all[k].index != all[|infos|].index;
    }
  }

  /** However the caller numbers its streams, every serial given out is one never used before. */
  lemma {:induction false} SerialsFresh(infos: seq<StreamInfo>, used: set<u32>)
    requires |used| + |infos| < TWO32 && DistinctIndices(infos)
    ensures var (writers, used') := BuildWriters(infos, used);
            FreshWriters(infos, writers, used, used') && |used'| == |used| + |infos|
  {
    if infos != [] {
      var front, s := infos[..|infos| - 1], infos[|infos| - 1];
      SplitLast(infos);
      DistinctFront(front, s);
      SerialsFresh(front, used);
      var (writers, taken) := BuildWriters(front, used);
      FreshSnoc(front, writers, used, taken, s, FreeSerial(taken, s.index, 0));
    }
  }

  /** Serial `s` was used before, or is that of one of the link's first `k` streams. */
  predicate Claimed(infos: seq<StreamInfo>, used: set<u32>, writers: map<u32, StreamWriter>, k: nat, s: u32)
    requires k <= |infos|
  {
    s in used || exists j :: 0 <= j < k && infos[j].index in writers && writers[infos[j].index].serial == s
  }

  /** `s` is the first of `start`, `start + 1` and so on, around the end of the range, that is not taken. */
  ghost predicate FirstFree(start: u32, s: u32, taken: u32 -> bool)
  {
    exists n: nat {:trigger Wrapped(start, n)} ::
      && n < TWO32 && s == Wrapped(start, n) && !taken(s)
      && forall j: nat {:trigger Wrapped(start, j)} :: j < n ==> taken(Wrapped(start, j))
  }

  ghost function ClaimedBefore(infos: seq<StreamInfo>, used: set<u32>, writers: map<u32, StreamWriter>, k: nat)
    : u32 -> bool
    requires k <= |infos|
  {
    (s: u32) => Claimed(infos, used, writers, k, s)
  }

  lemma ClaimedFront(infos: seq<StreamInfo>, used: set<u32>, writers: map<u32, StreamWriter>, s: StreamInfo,
          w: StreamWriter, k: nat, x: u32)
    requires DistinctIndices(infos + [s]) && k <= |infos|
    ensures Claimed(infos + [s], used, writers[s.index := w], k, x) == Claimed(infos, used, writers, k, x)
  {
    var all := infos + [s];
    DistinctFront(infos, s);
    assert forall j :: 0 <= j < k ==> all[j] == infos[j] && all[j].index != s.index;
    if Claimed(infos, used, writers, k, x) && x !in used {
      var j :| 0 <= j < k && infos[j].index in writers && writers[infos[j].index].serial == x;
      assert all[j].index in writers[s.index := w] && writers[s.index := w][all[j].index].serial == x;
    }
  }

  lemma ClaimedLast(infos: seq<StreamInfo>, used: set<u32>, writers: map<u32, StreamWriter>, s: StreamInfo,
          w: StreamWriter, n: nat, x: u32)
    requires DistinctIndices(infos + [s]) && n == |infos| + 1
    ensures Claimed(infos + [s], used, writers[s.index := w], n, x)
       <==> Claimed(infos, used, writers, |infos|, x) || x == w.serial
  {
    var all, after := infos + [s], writers[s.index := w];
    assert all[|infos|] == s;
    ClaimedFront(infos, used, writers, s, w, |infos|, x);
    if Claimed(all, used, after, n, x) && x !in used {
      var j :| 0 <= j < n && all[j].index in after && after[all[j].index].serial == x;
      assert j == |infos| || (j < |infos| && Claimed(all, used, after, |infos|, x));
    }
    if x == w.serial {
      assert all[|infos|].index in after && after[all[|infos|].index].serial == x;
    }
  }

  /** The serials given out are those noted as used. */
  lemma {:induction false} ClaimedMeans(infos: seq<StreamInfo>, used: set<u32>, x: u32)
    requires |used| + |infos| < TWO32 && DistinctIndices(infos)
    ensures var (writers, used') := BuildWriters(infos, used); x in used' <==> Claimed(infos, used, writers, |infos|, x)
  {
    if infos != [] {
      var front, s := infos[..|infos| - 1], infos[|infos| - 1];
      SplitLast(infos);
      DistinctFront(front, s);
      ClaimedMeans(front, used, x);
      var (writers, taken) := BuildWriters(front, used);
      ClaimedLast(front, used, writers, s, NewWriter(s, FreeSerial(taken, s.index, 0)), |infos|, x);
    }
  }

  lemma LastIsFirstFree(start: u32, s: u32, taken: set<u32>, on: u32 -> bool)
    requires |taken| < TWO32 && s == FreeSerial(taken, start, 0) && forall x :: on(x) == (x in taken)
    ensures FirstFree(start, s, on)
  {
    var n: nat {:trigger Wrapped(start, n)} :| n < TWO32 && s == Wrapped(start, n)
         && forall j: nat {:trigger Wrapped(start, j)} :: j < n ==> Wrapped(start, j) in taken;
    assert forall j: nat {:trigger Wrapped(start, j)} :: j < n ==> on(Wrapped(start, j));
  }

  lemma SameFree(start: u32, s: u32, a: u32 -> bool, b: u32 -> bool)
    requires FirstFree(start, s, a) && forall x :: a(x) == b(x)
    ensures FirstFree(start, s, b)
  {
    var n: nat {:trigger Wrapped(start, n)} :| n < TWO32 && s == Wrapped(start, n) && !a(s)
         && forall j: nat {:trigger Wrapped(start, j)} :: j < n ==> a(Wrapped(start, j));
    assert forall j: nat {:trigger Wrapped(start, j)} :: j < n ==> b(Wrapped(start, j));
  }

  /** Stream `k` gets the first serial from its own index on that no link before and no stream before it has. */
  lemma {:induction false} SerialIsFirstFree(infos: seq<StreamInfo>, used: set<u32>, k: nat)
    requires |used| + |infos| < TWO32 && DistinctIndices(infos) && k < |infos|
    ensures var writers := BuildWriters(infos, used).0;
            && infos[k].index in writers
            && FirstFree(infos[k].index, writers[infos[k].index].serial, ClaimedBefore(infos, used, writers, k))
    decreases |infos|
  {
    var n := |infos| - 1;
    var front, s := infos[..n], infos[n];
    SplitLast(infos);
    DistinctFront(front, s);
    var (before, taken) := BuildWriters(front, used);
    var serial := FreeSerial(taken, s.index, 0);
    var w := NewWriter(s, serial);
    var after := before[s.index := w];
    forall x
      ensures ClaimedBefore(infos, used, after, k)(x) == ClaimedBefore(front, used, before, k)(x)
      ensures x in taken <==> Claimed(front, used, before, n, x)
    {
      ClaimedFront(front, used, before, s, w, k, x);
      ClaimedMeans(front, used, x);
    }
    if k < n {
      SerialIsFirstFree(front, used, k);
      SameFree(infos[k].index, before[infos[k].index].serial, ClaimedBefore(front, used, before, k),
               ClaimedBefore(infos, used, after, k));
    } else {
      LastIsFirstFree(s.index, serial, taken, ClaimedBefore(infos, used, after, k));
    }
  }

  lemma FreeIsKept(start: u32, s: u32, taken: u32 -> bool)
    requires FirstFree(start, s, taken)
    ensures s == start <==> !taken(start)
  {
    assert Wrapped(start, 0) == start;
  }

  /** A stream keeps its index for a serial exactly if that is free. */
  lemma IndexIsKept(infos: seq<StreamInfo>, used: set<u32>, k: nat)
    requires |used| + |infos| < TWO32 && DistinctIndices(infos) && k < |infos|
    ensures var writers := BuildWriters(infos, used).0;
            && infos[k].index in writers
            && (writers[infos[k].index].serial == infos[k].index <==> !Claimed(infos, used, writers, k, infos[k].index))
  {
    var writers := BuildWriters(infos, used).0;
    SerialIsFirstFree(infos, used, k);
    FreeIsKept(infos[k].index, writers[infos[k].index].serial, ClaimedBefore(infos, used, writers, k));
  }

  // ----- Theora first -----

  lemma {:induction false} OnlyMembers(infos: seq<StreamInfo>, theora: bool, s: StreamInfo)
    ensures s in Only(infos, theora) <==> s in infos && s.isTheora == theora
  {
    if infos != [] {
      SplitLast(infos);
      OnlyMembers(infos[..|infos| - 1], theora, s);
    }
  }

  lemma OrderMembers(infos: seq<StreamInfo>, s: StreamInfo)
    ensures s in HeaderOrder(infos) <==> s in infos
  {
    OnlyMembers(infos, true, s);
    OnlyMembers(infos, false, s);
  }

  lemma {:induction false} OnlyDistinct(infos: seq<StreamInfo>, theora: bool)
    requires DistinctIndices(infos)
    ensures DistinctIndices(Only(infos, theora))
  {
    if infos != [] {
      var front, s := infos[..|infos| - 1], infos[|infos| - 1];
      SplitLast(infos);
      DistinctFront(front, s);
      OnlyDistinct(front, theora);
      var kept := Only(front, theora);
      forall k | 0 <= k < |kept|
        ensures kept[k].index != s.index
      {
        OnlyMembers(front, theora, kept[k]);
      }
    }
  }

  lemma {:induction false} OnlyCount(infos: seq<StreamInfo>)
    ensures |Only(infos, true)| + |Only(infos, false)| == |infos|
  {
    if infos != [] {
      OnlyCount(infos[..|infos| - 1]);
    }
  }

  lemma MemberIndex(infos: seq<StreamInfo>, a: StreamInfo, b: StreamInfo)
    requires DistinctIndices(infos) && a in infos && b in infos && a.index == b.index
    ensures a == b
  {
    var j :| 0 <= j < |infos| && infos[j] == a;
    var k :| 0 <= k < |infos| && infos[k] == b;
  }

  /** Every stream once, Theora streams ahead of the others. */
  lemma HeaderOrderMeaning(infos: seq<StreamInfo>)
    requires DistinctIndices(infos)
    ensures var r := HeaderOrder(infos);
            && |r| == |infos| && DistinctIndices(r) && (forall s :: s in r <==> s in infos)
            && forall j, k :: 0 <= j < k < |r| && r[k].isTheora ==> r[j].isTheora
  {
    var a, b := Only(infos, true), Only(infos, false);
    OnlyCount(infos);
    OnlyDistinct(infos, true);
    OnlyDistinct(infos, false);
    forall s
      ensures s in HeaderOrder(infos) <==> s in infos
      ensures s in a <==> s in infos && s.isTheora
      ensures s in b <==> s in infos && !s.isTheora
    {
      OrderMembers(infos, s);
      OnlyMembers(infos, true, s);
      OnlyMembers(infos, false, s);
    }
    forall j, k | 0 <= j < |a| && 0 <= k < |b|
      ensures a[j].index != b[k].index
    {
      assert a[j] in a && b[k] in b;
      if a[j].index == b[k].index {
        MemberIndex(infos, a[j], b[k]);
      }
    }
    forall k | 0 <= k < |a|
      ensures a[k].isTheora
    {
      assert a[k] in a;
    }
    forall k | 0 <= k < |b|
      ensures !b[k].isTheora
    {
      assert b[k] in b;
    }
  }

  /** `r` has the streams at the places `order`. */
  predicate Picks(infos: seq<StreamInfo>, r: seq<StreamInfo>, order: seq<nat>)
  {
    |order| == |r| && forall j :: 0 <= j < |r| ==> order[j] < |infos| && r[j] == infos[order[j]]
  }

  predicate Rising(order: seq<nat>) { forall j, k :: 0 <= j < k < |order| ==> order[j] < order[k] }

  lemma PicksSnoc(infos: seq<StreamInfo>, s: StreamInfo, r: seq<StreamInfo>, order: seq<nat>)
    requires Picks(infos, r, order) && Rising(order)
    ensures Picks(infos + [s], r, order) && Picks(infos + [s], r + [s], order + [|infos|])
    ensures Rising(order + [|infos|])
  {}

  lemma {:induction false} OnlyOrder(infos: seq<StreamInfo>, theora: bool) returns (order: seq<nat>)
    ensures Picks(infos, Only(infos, theora), order) && Rising(order)
  {
    order := [];
    if infos != [] {
      var front, s := infos[..|infos| - 1], infos[|infos| - 1];
      var before := OnlyOrder(front, theora);
      SplitLast(infos);
      PicksSnoc(front, s, Only(front, theora), before);
      PlusNil(Only(front, theora));
      order := if s.isTheora == theora then before + [|front|] else before;
    }
  }

  lemma {:induction false} OnlyKind(infos: seq<StreamInfo>, theora: bool)
    ensures forall k :: 0 <= k < |Only(infos, theora)| ==> Only(infos, theora)[k].isTheora == theora
  {
    if infos != [] {
      OnlyKind(infos[..|infos| - 1], theora);
    }
  }

  predicate AllOfKind(streams: seq<StreamInfo>, theora: bool)
  {
    forall k :: 0 <= k < |streams| ==> streams[k].isTheora == theora
  }

  /** Each stream once, Theora streams ahead of the others, those of a kind in the caller's order. */
  lemma HeaderOrderIsStable(infos: seq<StreamInfo>) returns (first: seq<nat>, rest: seq<nat>)
    ensures |first| + |rest| == |infos| == |HeaderOrder(infos)| && Rising(first) && Rising(rest)
    ensures var r, n := HeaderOrder(infos), |first|;
            && Picks(infos, r[..n], first) && AllOfKind(r[..n], true)
            && Picks(infos, r[n..], rest) && AllOfKind(r[n..], false)
  {
    first := OnlyOrder(infos, true);
    rest := OnlyOrder(infos, false);
    OnlyCount(infos);
    OnlyKind(infos, true);
    OnlyKind(infos, false);
    assert HeaderOrder(infos)[..|first|] == Only(infos, true) && HeaderOrder(infos)[|first|..] == Only(infos, false);
  }

  // ----- BOS pages -----

  /** Header packets match the count the muxer expects, and the identification packet fits one page. */
  predicate UsableStream(s: StreamInfo)
  {
    s.headers != [] && s.headerCount == |s.headers| && |s.headers[0]| < 255 * 255
  }

  predicate Usable(infos: seq<StreamInfo>)
  {
    infos != [] && DistinctIndices(infos) && forall k :: 0 <= k < |infos| ==> UsableStream(infos[k])
  }

  lemma BosIsCut(w: StreamWriter, first: Packet, b: Builder)
    requires w.cut == [] && w.seqNo == 0 && |first| < 255 * 255
    requires b == Append(EMPTY, Lace(|first|), first).(granule := 0)
    ensures CutFrom(b, w.serial, 0) == BosPage(w, first) && Next(b) == EMPTY
  {
    TailOfLace(|first|);
    PlusNil(Lace(|first|));
    PlusNil(first);
  }

  lemma BosFramed(serial: u32, first: Packet, b: Builder, segs: seq<Segment>)
    requires |first| < 255 * 255 && b == Append(EMPTY, Lace(|first|), first).(granule := 0) && segs == PacketSegs(first)
    ensures Framed([], serial, b, segs, [0]) && b.lacing != []
  {
    TailOfLace(|first|);
    TailCount(Lace(|first|));
    StartsFramed(serial);
    AppendEnd([], serial, EMPTY, [], [], Lace(|first|), first, 0);
    PlusNil(segs);
    PlusNil([0]);
  }

  lemma OnePacketSegs(first: Packet)
    ensures AllPacketSegs([first]) == PacketSegs(first)
  {
    AllPacketSegsSnoc([], first);
    PlusNil([first]);
    PlusNil(PacketSegs(first));
  }

  lemma BosPageFramed(w: StreamWriter, first: Packet)
    requires w.cut == [] && w.seqNo == 0 && |first| < 255 * 255
    ensures Framed([BosPage(w, first)], w.serial, EMPTY, PacketSegs(first), [0])
  {
    var b := Append(EMPTY, Lace(|first|), first).(granule := 0);
    BosFramed(w.serial, first, b, PacketSegs(first));
    BosIsCut(w, first, b);
    CutFramed([], w.serial, b, PacketSegs(first), [0]);
    PlusNil([BosPage(w, first)]);
  }

  lemma BosWrittenIs(w: StreamWriter, first: Packet)
    requires w.cut == [] && w.seqNo == 0 && w.buffered == EMPTY && w.packets == [] && w.stamps == []
    ensures var w' := BosWritten(w, first);
            && w'.cut == [BosPage(w, first)] && w'.buffered == EMPTY && w'.packets == [first] && w'.stamps == [0]
            && w'.serial == w.serial && w'.seqNo == 1 && w'.bosEmitted
  {
    PlusNil([first]);
    PlusNil([0]);
    PlusNil([BosPage(w, first)]);
  }

  lemma HoldsOne(w: StreamWriter, page: Page, first: Packet)
    requires w.cut == [page] && w.buffered == EMPTY && w.packets == [first] && w.stamps == [0] && w.seqNo == 1
    requires w.bosEmitted
    requires Framed([page], w.serial, EMPTY, AllPacketSegs([first]), [0])
    ensures HoldsPackets(w)
  {}

  /** The BOS page and its packet, as any other page cut. */
  lemma BosHolds(w: StreamWriter, first: Packet)
    requires w.cut == [] && w.seqNo == 0 && w.buffered == EMPTY && w.packets == [] && w.stamps == []
    requires |first| < 255 * 255
    ensures HoldsPackets(BosWritten(w, first))
  {
    BosWrittenIs(w, first);
    BosPageFramed(w, first);
    OnePacketSegs(first);
    HoldsOne(BosWritten(w, first), BosPage(w, first), first);
  }

  /** What the grammar looks at in a BOS page. */
  lemma BosLacing(first: Packet)
    requires |first| < 255 * 255
    ensures |Lace(|first|)| <= 255 && Sum(Lace(|first|)) == |first| && CompletedCount(Lace(|first|)) == 1
  {
    TailOfLace(|first|);
    TailCount(Lace(|first|));
  }

  lemma BosFlags(w: StreamWriter, first: Packet)
    ensures var p := BosPage(w, first); IsFirst(p) && !IsContinued(p) && !IsLast(p)
  {}

  lemma BosContinues(w: StreamWriter, first: Packet)
    requires w.seqNo == 0 && |first| < 255 * 255
    ensures Continues([], BosPage(w, first)) && Neat(BosPage(w, first))
  {
    BosLacing(first);
    BosFlags(w, first);
  }

  lemma BosAdmitted(wire: seq<Page>, w: StreamWriter, first: Packet)
    requires Proj(wire, w.serial) == [] && w.seqNo == 0 && |first| < 255 * 255
    requires !DataBegun(wire) || AllClosed(wire)
    ensures Admits(wire, BosPage(w, first)) && IsFirst(BosPage(w, first)) && Neat(BosPage(w, first))
  {
    BosFlags(w, first);
    BosContinues(w, first);
  }

  lemma BosFits(w: StreamWriter, first: Packet)
    requires w.seqNo == 0 && |first| < 255 * 255
    ensures Fitting([BosPage(w, first)]) && StartsWhole([BosPage(w, first)])
  {
    BosContinues(w, first);
    BosFlags(w, first);
    UnbrokenSnoc([], BosPage(w, first));
    PlusNil([BosPage(w, first)]);
  }

  lemma BosCarried(wire: seq<Page>, w: StreamWriter, first: Packet)
    requires Proj(wire, w.serial) == [] && w.cut == [] && w.queue == [] && w.seqNo == 0 && |first| < 255 * 255
    ensures Carried(wire + [BosPage(w, first)], BosWritten(w, first))
  {
    var p := BosPage(w, first);
    ProjSnoc(wire, p, w.serial);
    PlusNil([p]);
    BosFits(w, first);
  }

  lemma BosSound(wire: seq<Page>, writers: map<u32, StreamWriter>, i: u32, first: Packet)
    requires Sound(wire, writers) && i in writers && writers[i].cut == [] && writers[i].queue == []
    requires writers[i].seqNo == 0
    requires (!DataBegun(wire) || AllClosed(wire)) && |first| < 255 * 255
    ensures var w := writers[i];
            Sound(wire + [BosPage(w, first)], writers[i := BosWritten(w, first)])
  {
    var w := writers[i];
    PlusNil(Proj(wire, w.serial));
    assert PagesOf(w.queue) == [];
    BosAdmitted(wire, w, first);
    BosCarried(wire, w, first);
    SoundSnoc(wire, writers, i, BosPage(w, first), BosWritten(w, first));
  }
}
