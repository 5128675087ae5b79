/** The Skeleton 4.0 keyframe index packet: variable-byte integers and delta-coded keypoints. */
module SkeletonIndex {
  import opened Bytes

  // ----- variable-byte integers -----

  const VBI_LIMIT := 10

  /** Seven bits a byte, least significant first; the top bit marks the last byte. */
  function Vbi(n: nat): (r: seq<byte>)
    ensures |r| >= 1
  {
    if n < 128 then [n + 128] else [n % 128] + Vbi(n / 128)
  }

  /** The groups up to the first marked byte, at most `limit` of them: their value and how many. */
  function Groups(buf: seq<byte>, limit: nat): (r: Option<(nat, nat)>)
    ensures r.Some? ==> 1 <= r.value.1 <= |buf| && r.value.1 <= limit
  {
    if buf == [] || limit == 0 then None
    else if buf[0] >= 128 then Some((buf[0] - 128, 1))
    else
      match Groups(buf[1..], limit - 1)
      case None => None
      case Some((v, n)) => Some((buf[0] + 128 * v, n + 1))
  }

  /** `read_vbi_u64`: bits beyond the 64th are lost. */
  function ReadVbi(buf: seq<byte>): (r: Option<(u64, nat)>)
    ensures r.Some? ==> 1 <= r.value.1 <= |buf|
  {
    match Groups(buf, VBI_LIMIT)
    case None => None
    case Some((v, n)) => Some((v % TWO64, n))
  }

  function Pow128(n: nat): nat { if n == 0 then 1 else 128 * Pow128(n - 1) }

  lemma {:induction false} VbiLength(n: nat, k: nat)
    requires k > 0 && n < Pow128(k)
    ensures |Vbi(n)| <= k
  {
    if n >= 128 {
      VbiLength(n / 128, k - 1);
    }
  }

  lemma Pow128Of10()
    ensures TWO64 <= Pow128(VBI_LIMIT)
  {
    assert Pow128(5) == 0x8_0000_0000;
    assert Pow128(7) == 0x2_0000_0000_0000;
    assert Pow128(9) == 0x8000_0000_0000_0000;
  }

  lemma {:induction false} GroupsOfVbi(n: nat, rest: seq<byte>, limit: nat)
    requires |Vbi(n)| <= limit
    ensures Groups(Vbi(n) + rest, limit) == Some((n, |Vbi(n)|))
  {
    if n >= 128 {
      GroupsOfVbi(n / 128, rest, limit - 1);
      ConcatTail(Vbi(n), rest);
      assert Vbi(n)[1..] == Vbi(n / 128);
    }
  }

  /** Every 64-bit integer takes at most ten bytes and reads back, whatever follows it. */
  lemma VbiRoundTrip(n: u64, rest: seq<byte>)
    ensures |Vbi(n)| <= VBI_LIMIT && ReadVbi(Vbi(n) + rest) == Some((n, |Vbi(n)|))
  {
    Pow128Of10();
    VbiLength(n, VBI_LIMIT);
    GroupsOfVbi(n, rest, VBI_LIMIT);
  }

  method WriteVbi(out: seq<byte>, n: u64) returns (r: seq<byte>)
    ensures r == out + Vbi(n)
  {
    var m: nat := n;
    r := out;
    while true
      invariant r + Vbi(m) == out + Vbi(n)
      decreases m
    {
      var chunk: int := m % 128;
      var last := m < 128;
      if last {
        r := r + [chunk + 128];
        return;
      }
      Assoc(r, [chunk], Vbi(m / 128));
      r := r + [chunk];
      m := m / 128;
    }
  }

  // ----- `read_vbi_u64` as the loop it is -----

  /** What the bytes from `i` on make of a value read so far, the next group counting `place` each. */
  function Onward(buf: seq<byte>, i: nat, place: nat, value: nat): Option<(u64, nat)>
    requires i <= |buf| && i <= VBI_LIMIT
  {
    match Groups(buf[i..], VBI_LIMIT - i)
    case None => None
    case Some((v, n)) => Some(((value + place * v) % TWO64, i + n))
  }

  lemma Distribute(p: nat, b: nat, v: nat, p': nat, w: nat)
    requires p' == 128 * p && w == b + 128 * v
    ensures p * w == p * b + p' * v
  {}

  lemma OnwardStep(buf: seq<byte>, i: nat, j: nat, place: nat, place': nat, value: nat, value': nat)
    requires i < |buf| && i < VBI_LIMIT && j == i + 1 && place' == 128 * place
    requires buf[i] < 128 && value' == value + place * buf[i]
    ensures Onward(buf, i, place, value) == Onward(buf, j, place', value')
  {
    assert buf[i..][1..] == buf[j..];
    if Groups(buf[j..], VBI_LIMIT - j).Some? {
      var (v, n) := Groups(buf[j..], VBI_LIMIT - j).value;
      Distribute(place, buf[i], v, place', buf[i] + 128 * v);
    }
  }

  lemma OnwardStart(buf: seq<byte>)
    ensures Onward(buf, 0, 1, 0) == ReadVbi(buf)
  {
    assert buf[0..] == buf;
  }

  lemma OnwardStop(buf: seq<byte>, i: nat, place: nat, value: nat, value': nat)
    requires i < |buf| && i < VBI_LIMIT && buf[i] >= 128 && value' == value + place * (buf[i] - 128)
    ensures Onward(buf, i, place, value) == Some((value' % TWO64, i + 1))
  {}

  method ReadVbiLoop(buf: seq<byte>) returns (r: Option<(u64, nat)>)
    ensures r == ReadVbi(buf)
  {
    var value: nat := 0;
    var place: nat := 1;
    OnwardStart(buf);
    for i := 0 to |buf|
      invariant i <= VBI_LIMIT && Onward(buf, i, place, value) == ReadVbi(buf)
    {
      if i >= VBI_LIMIT {
        return None;
      }
      if buf[i] >= 128 {
        var total := value + place * (buf[i] - 128);
        OnwardStop(buf, i, place, value, total);
        return Some((total % TWO64, i + 1));
      }
      var value', place' := value + place * buf[i], 128 * place;
      OnwardStep(buf, i, i + 1, place, place', value, value');
      value, place := value', place';
    }
    return None;
  }

  // ----- the packet -----

  datatype KeyPoint = KeyPoint(offset: u64, timestamp: i64)

  datatype Index = Index(serial: u32, denominator: i64, first: i64, last: i64, keypoints: seq<KeyPoint>)

  const MAGIC: seq<byte> := [0x69, 0x6E, 0x64, 0x65, 0x78, 0]  // "index" and a zero byte
  const PREFIX := 42
  const ORIGIN := KeyPoint(0, 0)

  /** `saturating_sub`: a falling offset is written as no step at all. */
  function OffsetStep(prev: u64, next: u64): u64 { if next >= prev then next - prev else 0 }

  /** `wrapping_sub`, read as an unsigned number. */
  function TimeStep(prev: i64, next: i64): u64 { (next - prev) % TWO64 }

  function PointBytes(prev: KeyPoint, next: KeyPoint): seq<byte>
  {
    Vbi(OffsetStep(prev.offset, next.offset)) + Vbi(TimeStep(prev.timestamp, next.timestamp))
  }

  function Body(kps: seq<KeyPoint>, prev: KeyPoint): seq<byte>
  {
    if kps == [] then [] else PointBytes(prev, kps[0]) + Body(kps[1..], kps[0])
  }

  function Prefix(idx: Index): (r: seq<byte>)
    ensures |r| == PREFIX
  {
    MAGIC + LeU32(idx.serial) + LeU64(|idx.keypoints| % TWO64)
    + LeI64(idx.denominator) + LeI64(idx.first) + LeI64(idx.last)
  }

  function IndexBytes(idx: Index): seq<byte>
  {
    Prefix(idx) + Body(idx.keypoints, ORIGIN)
  }

  /** The keypoint one pair of deltas past `prev`: offsets must fit 64 bits, times wrap. */
  function Advance(prev: KeyPoint, offsetStep: u64, timeStep: u64): Option<KeyPoint>
  {
    if prev.offset + offsetStep >= TWO64 then None
    else Some(KeyPoint(prev.offset + offsetStep, WrapI64(prev.timestamp + AsI64(timeStep))))
  }

  /** One keypoint and how many bytes its two deltas take. */
  function ReadPoint(buf: seq<byte>, prev: KeyPoint): (r: Option<(KeyPoint, nat)>)
    ensures r.Some? ==> r.value.1 <= |buf|
  {
    match ReadVbi(buf)
    case None => None
    case Some((off, n)) =>
      match ReadVbi(buf[n..])
      case None => None
      case Some((ts, m)) =>
        match Advance(prev, off, ts)
        case None => None
        case Some(kp) => Some((kp, n + m))
  }

  function ReadPoints(buf: seq<byte>, n: nat, prev: KeyPoint): Option<seq<KeyPoint>>
    decreases n
  {
    if n == 0 then Some([])
    else
      match ReadPoint(buf, prev)
      case None => None
      case Some((kp, used)) =>
        match ReadPoints(buf[used..], n - 1, kp)
        case None => None
        case Some(rest) => Some([kp] + rest)
  }

  /** `SkelIndex::parse`. */
  function IndexFrom(packet: seq<byte>): Option<Index>
  {
    if |packet| < PREFIX || packet[..6] != MAGIC then None
    else
      match ReadPoints(packet[PREFIX..], ReadU64(packet[10..18]), ORIGIN)
      case None => None
      case Some(kps) =>
        Some(Index(ReadU32(packet[6..10]), ReadI64(packet[18..26]), ReadI64(packet[26..34]), ReadI64(packet[34..42]),
                   kps))
  }

  // ----- round trip -----

  /** Offsets never fall, starting from `from`. */
  predicate Rising(from: u64, kps: seq<KeyPoint>)
    decreases |kps|
  {
    kps == [] || (from <= kps[0].offset && Rising(kps[0].offset, kps[1..]))
  }

  lemma TimeStepBack(prev: i64, next: i64)
    ensures WrapI64(prev + AsI64(TimeStep(prev, next))) == next
  {
    var d := next - prev;
    assert d == d % TWO64 || d == d % TWO64 - TWO64;
  }

  /** A point reads back with its own timestamp; its offset is clamped to the previous one. */
  lemma PointRoundTrip(prev: KeyPoint, next: KeyPoint, rest: seq<byte>)
    ensures ReadPoint(PointBytes(prev, next) + rest, prev)
         == Some((KeyPoint(Max(prev.offset, next.offset), next.timestamp), |PointBytes(prev, next)|))
    ensures |PointBytes(prev, next)| <= 20
  {
    var off, ts := OffsetStep(prev.offset, next.offset), TimeStep(prev.timestamp, next.timestamp);
    VbiRoundTrip(off, Vbi(ts) + rest);
    VbiRoundTrip(ts, rest);
    Assoc(Vbi(off), Vbi(ts), rest);
    assert (Vbi(off) + (Vbi(ts) + rest))[|Vbi(off)|..] == Vbi(ts) + rest;
    TimeStepBack(prev.timestamp, next.timestamp);
  }

  lemma SkipFront(a: seq<byte>, b: seq<byte>)
    ensures (a + b)[|a|..] == b
  {}

  /** Reading behind one keypoint, its bytes split off. */
  lemma ReadFirst(point: seq<byte>, buf: seq<byte>, n: nat, left: nat, prev: KeyPoint, kp: KeyPoint)
    requires ReadPoint(point + buf, prev) == Some((kp, |point|)) && n == left + 1
    ensures ReadPoints(buf, left, kp).None? ==> ReadPoints(point + buf, n, prev) == None
    ensures ReadPoints(buf, left, kp).Some? ==>
              ReadPoints(point + buf, n, prev) == Some([kp] + ReadPoints(buf, left, kp).value)
  {
    SkipFront(point, buf);
  }

  lemma ConsSplit<T>(kp: T, rest: seq<T>, kps: seq<T>)
    requires kps != []
    ensures [kp] + rest == kps <==> kp == kps[0] && rest == kps[1..]
  {
    if [kp] + rest == kps {
      assert ([kp] + rest)[1..] == rest;
    }
  }

  /** Reading gives back `kps` exactly when its head was not clamped and the rest reads back. */
  lemma PointsAgree(read: Option<seq<KeyPoint>>, behind: Option<seq<KeyPoint>>, kps: seq<KeyPoint>,
                    prev: KeyPoint, kp: KeyPoint)
    requires kps != [] && kp == KeyPoint(Max(prev.offset, kps[0].offset), kps[0].timestamp)
    requires behind.None? ==> read == None
    requires behind.Some? ==> read == Some([kp] + behind.value)
    requires kp == kps[0] ==> (behind == Some(kps[1..]) <==> Rising(kps[0].offset, kps[1..]))
    ensures read == Some(kps) <==> Rising(prev.offset, kps)
  {
    if behind.Some? {
      ConsSplit(kp, behind.value, kps);
    }
  }

  lemma ReadAgrees(point: seq<byte>, buf: seq<byte>, kps: seq<KeyPoint>, left: nat, prev: KeyPoint, kp: KeyPoint)
    requires kps != [] && |kps| == left + 1 && ReadPoint(point + buf, prev) == Some((kp, |point|))
    requires kp == KeyPoint(Max(prev.offset, kps[0].offset), kps[0].timestamp)
    requires ReadPoints(buf, left, kps[0]) == Some(kps[1..]) <==> Rising(kps[0].offset, kps[1..])
    ensures ReadPoints(point + buf, |kps|, prev) == Some(kps) <==> Rising(prev.offset, kps)
  {
    ReadFirst(point, buf, |kps|, left, prev, kp);
    PointsAgree(ReadPoints(point + buf, |kps|, prev), ReadPoints(buf, left, kp), kps, prev, kp);
  }

  lemma BodySplit(kps: seq<KeyPoint>, prev: KeyPoint, rest: seq<byte>)
    requires kps != []
    ensures Body(kps, prev) + rest == PointBytes(prev, kps[0]) + (Body(kps[1..], kps[0]) + rest)
  {
    Assoc(PointBytes(prev, kps[0]), Body(kps[1..], kps[0]), rest);
  }

  lemma {:induction false} BodyRoundTrip(kps: seq<KeyPoint>, prev: KeyPoint, rest: seq<byte>)
    ensures ReadPoints(Body(kps, prev) + rest, |kps|, prev) == Some(kps) <==> Rising(prev.offset, kps)
    decreases |kps|
  {
    if kps != [] {
      var kp := KeyPoint(Max(prev.offset, kps[0].offset), kps[0].timestamp);
      var buf := Body(kps[1..], kps[0]) + rest;
      BodyRoundTrip(kps[1..], kps[0], rest);
      PointRoundTrip(prev, kps[0], buf);
      ReadAgrees(PointBytes(prev, kps[0]), buf, kps, |kps| - 1, prev, kp);
      BodySplit(kps, prev, rest);
    }
  }

  /** Two ten-byte integers a keypoint are always enough. */
  lemma {:induction false} BodyFits(kps: seq<KeyPoint>, prev: KeyPoint)
    ensures |Body(kps, prev)| <= 20 * |kps|
    decreases |kps|
  {
    if kps != [] {
      PointRoundTrip(prev, kps[0], []);
      BodyFits(kps[1..], kps[0]);
    }
  }

  lemma PrefixSlices(idx: Index, b: seq<byte>)
    requires b == Prefix(idx)
    ensures b[..6] == MAGIC && b[6..10] == LeU32(idx.serial) && b[10..18] == LeU64(|idx.keypoints| % TWO64)
    ensures b[18..26] == LeI64(idx.denominator) && b[26..34] == LeI64(idx.first) && b[34..42] == LeI64(idx.last)
  {}

  lemma SliceOfFront(a: seq<byte>, b: seq<byte>, lo: nat, hi: nat)
    requires lo <= hi <= |a|
    ensures (a + b)[lo..hi] == a[lo..hi]
  {}

  lemma FieldValues(idx: Index)
    ensures ReadU32(LeU32(idx.serial)) == idx.serial && ReadI64(LeI64(idx.denominator)) == idx.denominator
    ensures ReadI64(LeI64(idx.first)) == idx.first && ReadI64(LeI64(idx.last)) == idx.last
    ensures ReadU64(LeU64(|idx.keypoints| % TWO64)) == |idx.keypoints| % TWO64
  {
    U32RoundTrip(idx.serial);
    U64RoundTrip(|idx.keypoints| % TWO64);
    I64RoundTrip(idx.denominator);
    I64RoundTrip(idx.first);
    I64RoundTrip(idx.last);
  }

  lemma PrefixFields(idx: Index, rest: seq<byte>, b: seq<byte>)
    requires |idx.keypoints| < TWO64 && b == Prefix(idx) + rest
    ensures b[..6] == MAGIC && b[PREFIX..] == rest && ReadU64(b[10..18]) == |idx.keypoints|
    ensures ReadU32(b[6..10]) == idx.serial && ReadI64(b[18..26]) == idx.denominator
    ensures ReadI64(b[26..34]) == idx.first && ReadI64(b[34..42]) == idx.last
  {
    var p := Prefix(idx);
    PrefixSlices(idx, p);
    SliceOfFront(p, rest, 0, 6);
    SliceOfFront(p, rest, 6, 10);
    SliceOfFront(p, rest, 10, 18);
    SliceOfFront(p, rest, 18, 26);
    SliceOfFront(p, rest, 26, 34);
    SliceOfFront(p, rest, 34, 42);
    SkipFront(p, rest);
    FieldValues(idx);
  }

  /** The packet, padded or not, parses back to the index exactly when its offsets never fall. */
  lemma IndexRoundTrip(idx: Index, padding: seq<byte>)
    requires |idx.keypoints| < TWO64
    ensures IndexFrom(IndexBytes(idx) + padding) == Some(idx) <==> Rising(0, idx.keypoints)
    ensures |IndexBytes(idx)| <= PREFIX + 20 * |idx.keypoints|
  {
    var body := Body(idx.keypoints, ORIGIN);
    Assoc(Prefix(idx), body, padding);
    PrefixFields(idx, body + padding, IndexBytes(idx) + padding);
    BodyRoundTrip(idx.keypoints, ORIGIN, padding);
    BodyFits(idx.keypoints, ORIGIN);
  }

  lemma {:induction false} ReadIsRising(buf: seq<byte>, n: nat, prev: KeyPoint)
    requires ReadPoints(buf, n, prev).Some?
    ensures |ReadPoints(buf, n, prev).value| == n && Rising(prev.offset, ReadPoints(buf, n, prev).value)
    decreases n
  {
    if n > 0 {
      var (kp, used) := ReadPoint(buf, prev).value;
      ReadIsRising(buf[used..], n - 1, kp);
    }
  }

  /** Whatever parses can be written again and read back as the same index. */
  lemma ParsedIsStable(packet: seq<byte>, padding: seq<byte>)
    requires IndexFrom(packet).Some?
    ensures IndexFrom(IndexBytes(IndexFrom(packet).value) + padding) == IndexFrom(packet)
  {
    ReadIsRising(packet[PREFIX..], ReadU64(packet[10..18]), ORIGIN);
    IndexRoundTrip(IndexFrom(packet).value, padding);
  }

  // ----- both directions as the loops they are -----

  lemma BodyStep(kps: seq<KeyPoint>, i: nat, j: nat, prev: KeyPoint)
    requires i < |kps| && j == i + 1
    ensures Body(kps[i..], prev) == PointBytes(prev, kps[i]) + Body(kps[j..], kps[i])
  {
    assert kps[i..][1..] == kps[j..];
  }

  method WriteIndex(idx: Index) returns (out: seq<byte>)
    ensures out == IndexBytes(idx)
  {
    out := Prefix(idx);
    var prev := ORIGIN;
    assert idx.keypoints[0..] == idx.keypoints;
    for i := 0 to |idx.keypoints|
      invariant out + Body(idx.keypoints[i..], prev) == IndexBytes(idx)
    {
      var kp := idx.keypoints[i];
      var off, ts := OffsetStep(prev.offset, kp.offset), TimeStep(prev.timestamp, kp.timestamp);
      BodyStep(idx.keypoints, i, i + 1, prev);
      Assoc(out, PointBytes(prev, kp), Body(idx.keypoints[i + 1..], kp));
      Assoc(out, Vbi(off), Vbi(ts));
      out := WriteVbi(out, off);
      out := WriteVbi(out, ts);
      prev := kp;
    }
  }

  /** What parsing goes on to return with `done` keypoints read and `left` to read at `cursor`. */
  function Rest(packet: seq<byte>, cursor: nat, done: seq<KeyPoint>, left: nat, prev: KeyPoint): Option<seq<KeyPoint>>
    requires cursor <= |packet|
  {
    match ReadPoints(packet[cursor..], left, prev)
    case None => None
    case Some(kps) => Some(done + kps)
  }

  lemma RestStep(packet: seq<byte>, cursor: nat, cursor': nat, done: seq<KeyPoint>, left: nat, left': nat,
                 prev: KeyPoint, kp: KeyPoint)
    requires cursor <= cursor' <= |packet| && left == left' + 1
    requires ReadPoint(packet[cursor..], prev) == Some((kp, cursor' - cursor))
    ensures Rest(packet, cursor, done, left, prev) == Rest(packet, cursor', done + [kp], left', kp)
  {
    assert packet[cursor..][cursor' - cursor..] == packet[cursor'..];
    if ReadPoints(packet[cursor'..], left', kp).Some? {
      Assoc(done, [kp], ReadPoints(packet[cursor'..], left', kp).value);
    }
  }

  /** Read one keypoint at `cursor`: two variable-byte integers and a checked addition. */
  method ReadPointAt(packet: seq<byte>, cursor: nat, prev: KeyPoint) returns (r: Option<(KeyPoint, nat)>)
    requires cursor <= |packet|
    ensures r == ReadPoint(packet[cursor..], prev)
  {
    var first := ReadVbiLoop(packet[cursor..]);
    if first.None? {
      return None;
    }
    var (off, n) := first.value;
    assert packet[cursor..][n..] == packet[cursor + n..];
    var second := ReadVbiLoop(packet[cursor + n..]);
    if second.None? {
      return None;
    }
    var (ts, m) := second.value;
    if prev.offset + off >= TWO64 {
      return None;
    }
    r := Some((KeyPoint(prev.offset + off, WrapI64(prev.timestamp + AsI64(ts))), n + m));
  }

  lemma RestEnds(packet: seq<byte>, cursor: nat, done: seq<KeyPoint>, prev: KeyPoint)
    requires cursor <= |packet|
    ensures Rest(packet, cursor, done, 0, prev) == Some(done)
  {
    PlusNil(done);
  }

  lemma RestFails(packet: seq<byte>, cursor: nat, done: seq<KeyPoint>, left: nat, prev: KeyPoint)
    requires cursor <= |packet| && left > 0 && ReadPoint(packet[cursor..], prev).None?
    ensures Rest(packet, cursor, done, left, prev) == None
  {}

  method ReadAllPoints(packet: seq<byte>, start: nat, count: nat) returns (r: Option<seq<KeyPoint>>)
    requires start <= |packet|
    ensures r == Rest(packet, start, [], count, ORIGIN)
  {
    var keypoints: seq<KeyPoint> := [];
    var cursor: nat, prev := start, ORIGIN;
    var left := count;
    while left > 0
      invariant cursor <= |packet|
      invariant Rest(packet, cursor, keypoints, left, prev) == Rest(packet, start, [], count, ORIGIN)
    {
      var point := ReadPointAt(packet, cursor, prev);
      if point.None? {
        RestFails(packet, cursor, keypoints, left, prev);
        return None;
      }
      var (kp, used) := point.value;
      var cursor', left' := cursor + used, left - 1;
      RestStep(packet, cursor, cursor', keypoints, left, left', prev, kp);
      cursor, left, keypoints, prev := cursor', left', keypoints + [kp], kp;
    }
    RestEnds(packet, cursor, keypoints, prev);
    r := Some(keypoints);
  }

  method ParseIndex(packet: seq<byte>) returns (r: Option<Index>)
    ensures r == IndexFrom(packet)
  {
    if |packet| < PREFIX || packet[..6] != MAGIC {
      return None;
    }
    var points := ReadAllPoints(packet, PREFIX, ReadU64(packet[10..18]));
    if points.None? {
      return None;
    }
    PlusNil(ReadPoints(packet[PREFIX..], ReadU64(packet[10..18]), ORIGIN).value);
    r := Some(Index(ReadU32(packet[6..10]), ReadI64(packet[18..26]), ReadI64(packet[26..34]), ReadI64(packet[34..42]),
                    points.value));
  }

  /** `n` without its `k` lowest groups of seven bits. */
  function Above(n: nat, k: nat): nat { if k == 0 then n else Above(n / 128, k - 1) }

  /** Byte `k` holds group `k` of seven bits, the lowest first; exactly the last byte is marked. */
  lemma {:induction false} VbiDigits(n: nat, k: nat)
    requires k < |Vbi(n)|
    ensures Vbi(n)[k] % 128 == Above(n, k) % 128 && (Vbi(n)[k] >= 128 <==> k == |Vbi(n)| - 1)
    ensures Above(n, |Vbi(n)|) == 0
    decreases n
  {
    if n >= 128 {
      VbiDigits(n / 128, if k > 0 then k - 1 else 0);
    } else {
      assert Above(n, 1) == Above(n / 128, 0);
    }
  }
}
