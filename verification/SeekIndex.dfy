/** The demuxer's dense seek index: pages recorded per serial, sorted, and the floor lookup. */
module SeekIndices {
  import opened Bytes
  import opened Theora

  datatype Entry = Entry(granule: i64, offset: nat)

  /** By granule, then by byte offset. */
  predicate Less(a: Entry, b: Entry)
  {
    a.granule < b.granule || (a.granule == b.granule && a.offset < b.offset)
  }

  predicate Sorted(entries: seq<Entry>)
  {
    forall i, j :: 0 <= i < j < |entries| ==> Less(entries[i], entries[j])
  }

  function Elements(entries: seq<Entry>): set<Entry> { set e | e in entries }

  /** Sorting leaves one way to write a set of entries down. */
  lemma {:induction false} SortedUnique(a: seq<Entry>, b: seq<Entry>)
    requires Sorted(a) && Sorted(b) && Elements(a) == Elements(b)
    ensures a == b
  {
    assert b != [] ==> b[0] in Elements(b);
    if a != [] {
      assert a[0] in Elements(b);
      assert b[0] in Elements(a);
      assert a[0] == b[0];
      forall e
        ensures e in a[1..] <==> e in b[1..]
      {
        TailElements(a, e);
        TailElements(b, e);
        assert e in a <==> e in Elements(a);
        assert e in b <==> e in Elements(b);
      }
      assert Elements(a[1..]) == Elements(b[1..]);
      SortedUnique(a[1..], b[1..]);
      assert a == [a[0]] + a[1..] && b == [b[0]] + b[1..];
    }
  }

  lemma TailElements(a: seq<Entry>, e: Entry)
    requires Sorted(a) && a != []
    ensures e in a[1..] <==> e in a && e != a[0]
  {
    if e in a && e != a[0] {
      var i :| 0 <= i < |a| && a[i] == e;
      assert a[1..][i - 1] == e;
    }
  }

  lemma InsertSorted(entries: seq<Entry>, at: nat, e: Entry)
    requires Sorted(entries) && at <= |entries|
    requires forall k :: 0 <= k < at ==> Less(entries[k], e)
    requires forall k :: at <= k < |entries| ==> Less(e, entries[k])
    ensures var r := entries[..at] + [e] + entries[at..]; Sorted(r) && Elements(r) == Elements(entries) + {e}
  {
    var r := entries[..at] + [e] + entries[at..];
    assert entries == entries[..at] + entries[at..];
    forall x
      ensures x in r <==> x in entries || x == e
    {}
  }

  /** `r` is the last entry whose key does not exceed the target. */
  predicate IsFloor(entries: seq<Entry>, key: i64 -> int, target: int, r: Option<Entry>)
  {
    match r
    case None => forall e :: e in entries ==> key(e.granule) > target
    case Some(f) =>
      && f in entries && key(f.granule) <= target
      && forall e :: e in entries && key(e.granule) <= target ==> e == f || Less(e, f)
  }

  class SeekIndex {
    var table: map<u32, seq<Entry>>

    ghost predicate Valid()
      reads this
    {
      forall s :: s in table ==> Sorted(table[s])
    }

    ghost function Recorded(s: u32): set<Entry>
      reads this
    {
      if s in table then Elements(table[s]) else {}
    }

    constructor ()
      ensures Valid() && table == map[]
    {
      table := map[];
    }

    /** The place of `e`, and whether it is already there. */
    static method Locate(entries: seq<Entry>, e: Entry) returns (at: nat, found: bool)
      requires Sorted(entries)
      ensures at <= |entries| && (found ==> at < |entries| && entries[at] == e)
      ensures !found ==> (forall k :: 0 <= k < at ==> Less(entries[k], e)) && forall k :: at <= k < |entries| ==>
                Less(e, entries[k])
    {
      var lo, hi := 0, |entries|;
      while lo < hi
        invariant 0 <= lo <= hi <= |entries|
        invariant forall k :: 0 <= k < lo ==> Less(entries[k], e)
        invariant forall k :: hi <= k < |entries| ==> Less(e, entries[k])
      {
        var mid := (lo + hi) / 2;
        if entries[mid] == e {
          return mid, true;
        } else if Less(entries[mid], e) {
          lo := mid + 1;
        } else {
          hi := mid;
        }
      }
      return lo, false;
    }

    /** Record a page; one on which no packet ends says nothing. Recording it again changes nothing. */
    method IndexRecord(serial: u32, granule: i64, offset: nat)
      requires Valid()
      modifies this
      ensures Valid()
      ensures Recorded(serial) == old(Recorded(serial)) + if granule < 0 then {} else {Entry(granule, offset)}
      ensures forall s :: s != serial ==> Recorded(s) == old(Recorded(s))
    {
      if granule < 0 {
        return;
      }
      var e := Entry(granule, offset);
      var entries := if serial in table then table[serial] else [];
      var at, found := Locate(entries, e);
      if !found {
        InsertSorted(entries, at, e);
        entries := entries[..at] + [e] + entries[at..];
      }
      table := table[serial := entries];
    }

    /** Walk the serial's pages from the last one down to the first whose key is not above the target. */
    method IndexFloorBy(serial: u32, target: int, key: i64 -> int) returns (r: Option<Entry>)
      requires Valid()
      ensures IsFloor(if serial in table then table[serial] else [], key, target, r)
    {
      if serial !in table {
        return None;
      }
      var entries := table[serial];
      var i := |entries|;
      while i > 0
        invariant 0 <= i <= |entries|
        invariant forall k :: i <= k < |entries| ==> key(entries[k].granule) > target
      {
        i := i - 1;
        if key(entries[i].granule) <= target {
          return Some(entries[i]);
        }
      }
      return None;
    }
  }

  // ----- when the floor is the one asked for -----

  /** No entry at or below the target has a greater key than the floor. */
  predicate HasGreatestKey(entries: seq<Entry>, key: i64 -> int, target: int, r: Option<Entry>)
  {
    forall e :: e in entries && key(e.granule) <= target ==> r.Some? && key(e.granule) <= key(r.value.granule)
  }

  /** The entries at or below the target are the floor and those before it, no others. */
  predicate Divides(entries: seq<Entry>, key: i64 -> int, target: int, r: Option<Entry>)
  {
    forall e :: e in entries ==> (key(e.granule) <= target <==> r.Some? && (e == r.value || Less(e, r.value)))
  }

  ghost predicate AlwaysGreatest(entries: seq<Entry>, key: i64 -> int)
  {
    forall target, r :: IsFloor(entries, key, target, r) ==> HasGreatestKey(entries, key, target, r)
  }

  ghost predicate AlwaysDivides(entries: seq<Entry>, key: i64 -> int)
  {
    forall target, r :: IsFloor(entries, key, target, r) ==> Divides(entries, key, target, r)
  }

  /** Down the table the keys never fall. */
  predicate NeverFalls(entries: seq<Entry>, key: i64 -> int)
  {
    forall i, j :: 0 <= i < j < |entries| ==> key(entries[i].granule) <= key(entries[j].granule)
  }

  /** A key that falls comes back further down. */
  predicate Regained(entries: seq<Entry>, key: i64 -> int)
  {
    forall i, j :: 0 <= i < j < |entries| && key(entries[j].granule) < key(entries[i].granule) ==>
      exists k :: j < k < |entries| && key(entries[k].granule) == key(entries[i].granule)
  }

  /** The last entry at or below the target. */
  lemma {:induction false} FloorAmong(entries: seq<Entry>, key: i64 -> int, target: int) returns (r: Option<Entry>)
    requires Sorted(entries)
    ensures IsFloor(entries, key, target, r)
  {
    if entries == [] {
      r := None;
    } else {
      var front, last := entries[..|entries| - 1], entries[|entries| - 1];
      if key(last.granule) <= target {
        r := Some(last);
      } else {
        r := FloorAmong(front, key, target);
        assert entries == front + [last];
      }
    }
  }

  /** Past the floor every key is above the target. */
  lemma FloorAt(entries: seq<Entry>, key: i64 -> int, target: int, f: Entry) returns (j: nat)
    requires Sorted(entries) && IsFloor(entries, key, target, Some(f))
    ensures j < |entries| && entries[j] == f
    ensures forall k :: j < k < |entries| ==> key(entries[k].granule) > target
  {
    j :| 0 <= j < |entries| && entries[j] == f;
    forall k | j < k < |entries|
      ensures key(entries[k].granule) > target
    {
      assert entries[k] in entries && Less(entries[j], entries[k]);
    }
  }

  lemma NotGreater(entries: seq<Entry>, key: i64 -> int, target: int, i: nat, j: nat)
    requires Regained(entries, key) && i < |entries| && j < |entries|
    requires key(entries[i].granule) <= target && key(entries[j].granule) <= target
    requires forall k :: j < k < |entries| ==> key(entries[k].granule) > target
    ensures key(entries[i].granule) <= key(entries[j].granule)
  {}

  lemma RegainedIsEnough(entries: seq<Entry>, key: i64 -> int, target: int, r: Option<Entry>)
    requires Sorted(entries) && Regained(entries, key) && IsFloor(entries, key, target, r)
    ensures HasGreatestKey(entries, key, target, r)
  {
    if r.Some? {
      var j := FloorAt(entries, key, target, r.value);
      forall e | e in entries && key(e.granule) <= target
        ensures key(e.granule) <= key(r.value.granule)
      {
        var i :| 0 <= i < |entries| && entries[i] == e;
        NotGreater(entries, key, target, i, j);
      }
    }
  }

  lemma RegainedIsNeeded(entries: seq<Entry>, key: i64 -> int, i: nat, j: nat)
    requires Sorted(entries) && AlwaysGreatest(entries, key)
    requires i < j < |entries| && key(entries[j].granule) < key(entries[i].granule)
    ensures exists k :: j < k < |entries| && key(entries[k].granule) == key(entries[i].granule)
  {
    var target := key(entries[i].granule);
    var r := FloorAmong(entries, key, target);
    assert HasGreatestKey(entries, key, target, r);
    assert entries[i] in entries && entries[j] in entries;
    var k :| 0 <= k < |entries| && entries[k] == r.value;
    assert key(entries[k].granule) == target;
  }

  lemma DividesIsNeeded(entries: seq<Entry>, key: i64 -> int, i: nat, j: nat)
    requires Sorted(entries) && AlwaysDivides(entries, key) && i < j < |entries|
    ensures key(entries[i].granule) <= key(entries[j].granule)
  {
    var target := key(entries[j].granule);
    var r := FloorAmong(entries, key, target);
    assert Divides(entries, key, target, r);
    assert entries[i] in entries && entries[j] in entries;
  }

  lemma DividesIsEnough(entries: seq<Entry>, key: i64 -> int, target: int, r: Option<Entry>)
    requires Sorted(entries) && NeverFalls(entries, key) && IsFloor(entries, key, target, r)
    ensures Divides(entries, key, target, r)
  {
    forall e | e in entries && r.Some? && Less(e, r.value)
      ensures key(e.granule) <= target
    {
      var i :| 0 <= i < |entries| && entries[i] == e;
      var j :| 0 <= j < |entries| && entries[j] == r.value;
      assert i < j;
    }
  }

  /**
   Whatever the axis, the floor has the greatest key for every target if and only if each key that
   falls comes back further down the table; and it divides the table for every target if and only if
   the keys never fall at all.
   */
  lemma FloorIsRight(entries: seq<Entry>, key: i64 -> int)
    requires Sorted(entries)
    ensures AlwaysGreatest(entries, key) <==> Regained(entries, key)
    ensures AlwaysDivides(entries, key) <==> NeverFalls(entries, key)
  {
    if Regained(entries, key) {
      forall target, r | IsFloor(entries, key, target, r)
        ensures HasGreatestKey(entries, key, target, r)
      {
        RegainedIsEnough(entries, key, target, r);
      }
    }
    if AlwaysGreatest(entries, key) {
      forall i, j | 0 <= i < j < |entries| && key(entries[j].granule) < key(entries[i].granule)
        ensures exists k :: j < k < |entries| && key(entries[k].granule) == key(entries[i].granule)
      {
        RegainedIsNeeded(entries, key, i, j);
      }
    }
    if NeverFalls(entries, key) {
      forall target, r | IsFloor(entries, key, target, r)
        ensures Divides(entries, key, target, r)
      {
        DividesIsEnough(entries, key, target, r);
      }
    }
    if AlwaysDivides(entries, key) {
      forall i, j | 0 <= i < j < |entries|
        ensures key(entries[i].granule) <= key(entries[j].granule)
      {
        DividesIsNeeded(entries, key, i, j);
      }
    }
  }

  /** Two pages no one stream stamps: offset 3 of keyframe 0, then keyframe 1, over a shift of two. */
  const MIXED: seq<Entry> := [Entry(3, 0), Entry(4, 100)]

  lemma LastOfTwo(a: Entry, b: Entry, key: i64 -> int, target: int)
    requires Less(a, b) && key(b.granule) <= target
    ensures IsFloor([a, b], key, target, Some(b))
  {}

  /** The floor of frame 3 is the page of frame 1, though a page of frame 3 is there. */
  lemma FloorGoesWrong()
    ensures Sorted(MIXED) && KeyOf(TheoraFrame(2, 0), MIXED[0].granule) == 3
    ensures IsFloor(MIXED, (x: i64) => KeyOf(TheoraFrame(2, 0), x), 3, Some(MIXED[1]))
    ensures KeyOf(TheoraFrame(2, 0), MIXED[1].granule) == 1
  {
    AxisNotMonotone();
    LastOfTwo(MIXED[0], MIXED[1], (x: i64) => KeyOf(TheoraFrame(2, 0), x), 3);
  }

  // ----- the floor of a Theora stream -----

  /** The entry carries the stamp of frame `i`. */
  predicate StampedBy(g: Granule, frames: seq<Frame>, e: Entry, i: nat)
    requires i < |frames|
  {
    Stamp(g, frames, i) == Some(e.granule)
  }

  /** A header page, stamped 0, or a page with the stamp of some frame. */
  predicate HeaderOrFrame(g: Granule, frames: seq<Frame>, e: Entry)
  {
    e.granule == 0 || exists i :: 0 <= i < |frames| && StampedBy(g, frames, e, i)
  }

  predicate Countable(g: Granule, frames: seq<Frame>)
  {
    forall i :: 0 <= i < |frames| ==> !CountOverflows(g, frames[i].number)
  }

  lemma {:induction false} RunningCounts(g: Granule, frames: seq<Frame>, n: nat)
    requires Countable(g, frames) && n <= |frames|
    ensures !CountOverflows(g, Running(frames[..n]))
  {
    if n > 0 {
      assert frames[..n][..n - 1] == frames[..n - 1];
      RunningCounts(g, frames, n - 1);
    }
  }

  /** On the seek axis a frame's page has the frame's number, and a header page has 0, or -1 when counting from one. */
  lemma AxisOfPage(g: Granule, frames: seq<Frame>, e: Entry)
    requires Countable(g, frames) && HeaderOrFrame(g, frames, e)
    ensures e.granule == 0 ==> KeyOf(AxisOf(g), e.granule) == 0 - Bias(g)
    ensures forall i :: 0 <= i < |frames| && StampedBy(g, frames, e, i) ==>
              e.granule >= 0 && KeyOf(AxisOf(g), e.granule) == frames[i].number >= 0
    ensures e.granule >= 0 && KeyOf(AxisOf(g), e.granule) >= 0 - Bias(g)
  {
    forall i | 0 <= i < |frames| && StampedBy(g, frames, e, i)
      ensures e.granule >= 0 && KeyOf(AxisOf(g), e.granule) == frames[i].number >= 0
    {
      RunningCounts(g, frames, i + 1);
      KeyRecoversFrame(g, frames[i].number, Running(frames[..i + 1]));
    }
    if e.granule == 0 {
      HighLow(0, g.shift);
      HighLowOfZero(g.shift);
    }
  }

  lemma {:induction false} HighLowOfZero(n: nat)
    ensures High(0, n) == 0 && Low(0, n) == 0
  {
    if n > 0 {
      HighLowOfZero(n - 1);
    }
  }

  /** A later granule of the stream is no earlier page on the seek axis. */
  lemma AxisFollows(g: Granule, frames: seq<Frame>, a: Entry, b: Entry)
    requires Increasing(frames) && Countable(g, frames) && HeaderOrFrame(g, frames, a) && HeaderOrFrame(g, frames, b)
    requires a.granule <= b.granule
    ensures KeyOf(AxisOf(g), a.granule) <= KeyOf(AxisOf(g), b.granule)
  {
    AxisOfPage(g, frames, a);
    AxisOfPage(g, frames, b);
    if a.granule != 0 {
      var i :| 0 <= i < |frames| && StampedBy(g, frames, a, i);
      var j :| 0 <= j < |frames| && StampedBy(g, frames, b, j);
      if j < i {
        RunningCounts(g, frames, i + 1);
        StampsIncrease(g, frames, j, i);
      }
    }
  }

  /**
   On the pages of one Theora stream - header pages stamped 0, the others along increasing frames - in
   whatever order they were recorded, the floor has the greatest key not above the target and divides
   the table. That key is the number of its page's frame; of a header page it is 0, or -1 when the
   stream counts from one.
   */
  lemma FloorIsGreatestFrame(g: Granule, frames: seq<Frame>, entries: seq<Entry>, target: int, r: Option<Entry>)
    requires Sorted(entries) && Increasing(frames) && Countable(g, frames)
    requires forall e :: e in entries ==> HeaderOrFrame(g, frames, e)
    requires IsFloor(entries, (x: i64) => KeyOf(AxisOf(g), x), target, r)
    ensures HasGreatestKey(entries, (x: i64) => KeyOf(AxisOf(g), x), target, r)
    ensures Divides(entries, (x: i64) => KeyOf(AxisOf(g), x), target, r)
    ensures r.Some? && r.value.granule != 0 ==>
              exists i :: 0 <= i < |frames| && StampedBy(g, frames, r.value, i)
                          && KeyOf(AxisOf(g), r.value.granule) == frames[i].number
    ensures r.Some? && r.value.granule == 0 ==> KeyOf(AxisOf(g), r.value.granule) == 0 - Bias(g)
  {
    var key := (x: i64) => KeyOf(AxisOf(g), x);
    forall i, j | 0 <= i < j < |entries|
      ensures key(entries[i].granule) <= key(entries[j].granule)
    {
      AxisFollows(g, frames, entries[i], entries[j]);
    }
    DividesIsEnough(entries, key, target, r);
    RegainedIsEnough(entries, key, target, r);
    if r.Some? {
      AxisOfPage(g, frames, r.value);
    }
  }

  /** With header pages in the table their key is below every frame's exactly when the stream counts from one. */
  lemma HeaderPagesFirst(g: Granule, frames: seq<Frame>, h: Entry, e: Entry, i: nat)
    requires Countable(g, frames) && h.granule == 0 && i < |frames| && StampedBy(g, frames, e, i)
    ensures g.countFromOne ==> e.granule != 0 && KeyOf(AxisOf(g), h.granule) < KeyOf(AxisOf(g), e.granule)
    ensures !g.countFromOne ==> (KeyOf(AxisOf(g), h.granule) == KeyOf(AxisOf(g), e.granule) <==> frames[i].number == 0)
  {
    assert HeaderOrFrame(g, frames, e);
    AxisOfPage(g, frames, h);
    AxisOfPage(g, frames, e);
  }

  /**
   On the sample axis - the granule less the samples skipped in front - the floor and the pages before it are
   those up to the target sample; there is none before sample 0.
   */
  lemma FloorIsLatestSample(skip: nat, entries: seq<Entry>, target: int, r: Option<Entry>)
    requires Sorted(entries) && (forall e :: e in entries ==> e.granule >= 0)
    requires IsFloor(entries, (x: i64) => KeyOf(Identity(skip), x), target, r)
    ensures HasGreatestKey(entries, (x: i64) => KeyOf(Identity(skip), x), target, r)
    ensures target < 0 ==> r == None
    ensures target >= 0 ==>
              forall e :: e in entries ==>
                (e.granule <= target + skip <==> r.Some? && (e == r.value || Less(e, r.value)))
  {
    var key := (x: i64) => KeyOf(Identity(skip), x);
    assert NeverFalls(entries, key);
    DividesIsEnough(entries, key, target, r);
    RegainedIsEnough(entries, key, target, r);
  }
}
