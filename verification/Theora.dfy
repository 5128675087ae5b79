/**
 Theora granule positions (Theora specification, section A.2.3): the keyframe's number in the
 upper bits, the frames since it in the lower ones.
 */
module Theora {
  import opened Bytes
  import opened Crc

  const I64_MAX: int := TWO63 - 1

  // ----- shifts -----

  function Shl(x: int, n: nat): int { if n == 0 then x else 2 * Shl(x, n - 1) }

  /** `x` shifted right by `n`. */
  function High(x: nat, n: nat): nat { if n == 0 then x else High(x / 2, n - 1) }

  /** The `n` low bits of `x`. */
  function Low(x: nat, n: nat): (r: nat)
    ensures r < Pow2(n)
  {
    if n == 0 then 0 else x % 2 + 2 * Low(x / 2, n - 1)
  }

  lemma {:induction false} HighLow(x: nat, n: nat)
    ensures Shl(High(x, n), n) + Low(x, n) == x
  {
    if n > 0 {
      HighLow(x / 2, n - 1);
    }
  }

  lemma {:induction false} OfShifted(u: nat, n: nat, low: nat)
    requires low < Pow2(n)
    ensures Shl(u, n) >= 0 && High(Shl(u, n) + low, n) == u && Low(Shl(u, n) + low, n) == low
  {
    if n > 0 {
      OfShifted(u, n - 1, low / 2);
      assert (Shl(u, n) + low) / 2 == Shl(u, n - 1) + low / 2;
    }
  }

  lemma {:induction false} ShlStep(u: int, n: nat)
    ensures Shl(u + 1, n) == Shl(u, n) + Pow2(n)
  {
    if n > 0 {
      ShlStep(u, n - 1);
    }
  }

  lemma {:induction false} ShlMonotone(u: int, v: int, n: nat)
    requires u <= v
    ensures Shl(u, n) <= Shl(v, n)
  {
    if n > 0 {
      ShlMonotone(u, v, n - 1);
    }
  }

  lemma {:induction false} ShlPow2(k: nat, n: nat)
    ensures Shl(Pow2(k), n) == Pow2(k + n)
  {
    if n > 0 {
      ShlPow2(k, n - 1);
    }
  }

  lemma Pow2Of63()
    ensures Pow2(63) == TWO63
  {
    Pow2Values();
    assert Pow2(40) == 0x100 * TWO32;
    assert Pow2(48) == 0x1_0000 * TWO32;
    assert Pow2(56) == 0x100_0000 * TWO32;
  }

  lemma {:induction false} ShlGrows(u: nat, n: nat)
    ensures Shl(u, n) >= u
  {
    if n > 0 {
      ShlGrows(u, n - 1);
    }
  }

  // ----- granules -----

  /** `shift` bits of offset; streams of revision 1 on count frames from one. */
  datatype Granule = Granule(shift: nat, countFromOne: bool)

  function Bias(g: Granule): nat { if g.countFromOne then 1 else 0 }

  /** The largest offset since the keyframe that can be written. */
  function MaxOffset(g: Granule): int
  {
    if g.shift == 0 then 0 else if g.shift >= 63 then I64_MAX else Pow2(g.shift) - 1
  }

  function Split(g: Granule, granule: i64): Option<(nat, nat)>
  {
    if granule < 0 || g.shift >= 63 then None
    else Some((High(granule, g.shift), Low(granule, g.shift)))
  }

  /** The 0-based number of the last frame ending on a page with this granule. */
  function FrameIndex(g: Granule, granule: i64): Option<int>
  {
    match Split(g, granule)
    case None => None
    case Some((upper, offset)) =>
      if upper + offset > I64_MAX || upper + offset < Bias(g) then None else Some(upper + offset - Bias(g))
  }

  function FrameCount(g: Granule, granule: i64): Option<int>
  {
    match FrameIndex(g, granule)
    case None => None
    case Some(n) => if n + 1 > I64_MAX then None else Some(n + 1)
  }

  /** The 0-based number of the keyframe the granule counts from. */
  function KeyframeIndex(g: Granule, granule: i64): Option<int>
  {
    match Split(g, granule)
    case None => None
    case Some((upper, _)) => if upper < Bias(g) then None else Some(upper - Bias(g))
  }

  /** Pack a frame and its keyframe; None is the error return. */
  function Pack(g: Granule, frame: i64, keyframe: i64): Option<int>
  {
    if frame < 0 || keyframe < 0 || keyframe > frame then None
    else
      var offset := frame - keyframe;
      if offset > MaxOffset(g) then None
      else
        var upper := WrapI64(keyframe + Bias(g));
        if g.shift == 0 then Some(WrapI64(upper + offset))
        else if g.shift >= 63 then None
        else
          var v := WrapI64(Shl(upper, g.shift));
          if v < 0 || High(v, g.shift) != upper then None else Some(v + offset)
  }

  /** The frame and the keyframe fit their fields. */
  predicate Fits(g: Granule, frame: i64, keyframe: i64)
  {
    && 0 <= keyframe <= frame && g.shift < 63
    && frame - keyframe <= MaxOffset(g)
    && Shl(keyframe + Bias(g), g.shift) < TWO63
  }

  function Packed(g: Granule, frame: i64, keyframe: i64): int
  {
    Shl(keyframe + Bias(g), g.shift) + (frame - keyframe)
  }

  /** The largest keyframe number of a stream that counts from one, whose count does not fit 64 bits. */
  predicate CountOverflows(g: Granule, keyframe: i64) { g.countFromOne && keyframe == I64_MAX }

  lemma ShiftFits(upper: nat, n: nat)
    requires 0 < n < 63
    ensures var v := WrapI64(Shl(upper, n)); (v >= 0 && High(v, n) == upper) <==> Shl(upper, n) < TWO63
    ensures Shl(upper, n) < TWO63 ==> Shl(upper, n) + Pow2(n) <= TWO63
  {
    var v := WrapI64(Shl(upper, n));
    OfShifted(upper, n, 0);
    Pow2Of63();
    ShlPow2(63 - n, n);
    if Shl(upper, n) < TWO63 {
      if upper >= Pow2(63 - n) {
        ShlMonotone(Pow2(63 - n), upper, n);
      }
      ShlMonotone(upper + 1, Pow2(63 - n), n);
      ShlStep(upper, n);
    } else if v >= 0 && High(v, n) == upper {
      HighLow(v, n);
    }
  }

  lemma {:induction false} OverflowedShift(n: nat) returns (k: int)
    requires n > 0
    ensures Shl(-TWO63, n) == k * TWO64
  {
    if n == 1 {
      assert Shl(-TWO63, 0) == -TWO63;
      k := -1;
    } else {
      var half := OverflowedShift(n - 1);
      k := 2 * half;
    }
  }

  lemma Multiples(x: int, k: int)
    requires x == k * TWO64
    ensures x % TWO64 == 0
  {}

  lemma PackedRange(g: Granule, frame: i64, keyframe: i64)
    requires Fits(g, frame, keyframe)
    ensures 0 <= Packed(g, frame, keyframe) < TWO63 && frame - keyframe < Pow2(g.shift)
  {
    var upper := keyframe + Bias(g);
    ShlGrows(upper, g.shift);
    if g.shift > 0 {
      ShiftFits(upper, g.shift);
    }
  }

  /** `Pack` succeeds exactly on what fits, and then is the shifted sum. */
  lemma PackMeaning(g: Granule, frame: i64, keyframe: i64)
    requires !CountOverflows(g, keyframe)
    ensures Pack(g, frame, keyframe).Some? <==> Fits(g, frame, keyframe)
    ensures Fits(g, frame, keyframe) ==> Pack(g, frame, keyframe) == Some(Packed(g, frame, keyframe))
    ensures Fits(g, frame, keyframe) ==> 0 <= Packed(g, frame, keyframe) < TWO63 && frame - keyframe < Pow2(g.shift)
  {
    if Fits(g, frame, keyframe) {
      PackedRange(g, frame, keyframe);
    }
    if 0 <= keyframe <= frame && frame - keyframe <= MaxOffset(g) && 0 < g.shift < 63 {
      ShiftFits(keyframe + Bias(g), g.shift);
    }
  }

  /** Unpacking inverts packing. */
  lemma UnpackOfPack(g: Granule, frame: i64, keyframe: i64)
    requires Pack(g, frame, keyframe).Some? && !CountOverflows(g, keyframe)
    ensures var x := Pack(g, frame, keyframe).value;
            0 <= x < TWO63 && FrameIndex(g, x) == Some(frame) && KeyframeIndex(g, x) == Some(keyframe)
  {
    PackMeaning(g, frame, keyframe);
    OfShifted(keyframe + Bias(g), g.shift, frame - keyframe);
    ShlGrows(keyframe + Bias(g), g.shift);
  }

  /** Packing inverts unpacking. */
  lemma PackOfUnpack(g: Granule, x: i64)
    requires FrameIndex(g, x).Some? && KeyframeIndex(g, x).Some?
    ensures Pack(g, FrameIndex(g, x).value, KeyframeIndex(g, x).value) == Some(x)
  {
    HighLow(x, g.shift);
    var frame, keyframe := FrameIndex(g, x).value, KeyframeIndex(g, x).value;
    PackMeaning(g, frame, keyframe);
  }

  /**
   The one pair outside the inverse: counting from one with the whole field for the keyframe, the
   largest number packs to a negative granule.
   */
  lemma CountOverflow(g: Granule, frame: i64, keyframe: i64)
    requires Pack(g, frame, keyframe).Some?
    ensures var x := Pack(g, frame, keyframe).value;
            0 <= x < TWO63 && FrameIndex(g, x) == Some(frame) <==> !CountOverflows(g, keyframe)
    ensures CountOverflows(g, keyframe) ==> g.shift == 0 && Pack(g, frame, keyframe).value == -TWO63
  {
    if CountOverflows(g, keyframe) {
      if 0 < g.shift < 63 {
        var k := OverflowedShift(g.shift);
        Multiples(Shl(-TWO63, g.shift), k);
      }
    } else {
      UnpackOfPack(g, frame, keyframe);
    }
  }

  /** What `Pack` takes: a pair that fits its fields, or the one that overflows them unnoticed. */
  predicate Packs(g: Granule, frame: i64, keyframe: i64)
  {
    if CountOverflows(g, keyframe) then g.shift == 0 && frame == keyframe else Fits(g, frame, keyframe)
  }

  /** `Pack` is an error exactly on the other pairs; what it returns is a 64-bit granule. */
  lemma RefusalMeans(g: Granule, frame: i64, keyframe: i64)
    ensures Pack(g, frame, keyframe).None? <==> !Packs(g, frame, keyframe)
    ensures Pack(g, frame, keyframe).Some? ==> -TWO63 <= Pack(g, frame, keyframe).value < TWO63
  {
    if CountOverflows(g, keyframe) {
      if Pack(g, frame, keyframe).Some? {
        CountOverflow(g, frame, keyframe);
      }
    } else {
      PackMeaning(g, frame, keyframe);
    }
  }

  /** A concrete pair that overflows: no shift, counting from one, the largest frame number. */
  lemma OverflowAt()
    ensures Pack(Granule(0, true), I64_MAX, I64_MAX) == Some(-TWO63)
    ensures FrameIndex(Granule(0, true), -TWO63) == None
  {}

  // ----- granules along a stream -----

  /** A frame as the muxer meets it. */
  datatype Frame = Frame(number: i64, keyframe: bool)

  /** The keyframe in force after `frames`: the last one flagged, frame 0 to begin with. */
  function Running(frames: seq<Frame>): i64
  {
    if frames == [] then 0
    else if frames[|frames| - 1].keyframe then frames[|frames| - 1].number
    else Running(frames[..|frames| - 1])
  }

  /** What the muxer stamps on frame `i`. */
  function Stamp(g: Granule, frames: seq<Frame>, i: nat): Option<int>
    requires i < |frames|
  {
    Pack(g, frames[i].number, Running(frames[..i + 1]))
  }

  predicate Increasing(frames: seq<Frame>)
  {
    forall i, j :: 0 <= i < j < |frames| ==> frames[i].number < frames[j].number
  }

  /** From one frame to a later one the keyframe in force stays, or moves past the earlier frame. */
  lemma {:induction false} RunningMoves(frames: seq<Frame>, i: nat, j: nat)
    requires Increasing(frames) && i < j < |frames|
    ensures var k, k' := Running(frames[..i + 1]), Running(frames[..j + 1]); k' == k || frames[i].number < k'
    decreases j
  {
    assert frames[..j + 1][..j] == frames[..j];
    if !frames[j].keyframe && i < j - 1 {
      RunningMoves(frames, i, j - 1);
    }
  }

  lemma LaterKeyframe(g: Granule, frame: i64, keyframe: i64, frame': i64, keyframe': i64)
    requires Fits(g, frame, keyframe) && Fits(g, frame', keyframe') && frame < frame'
    requires frame - keyframe < Pow2(g.shift)
    requires keyframe' == keyframe || frame < keyframe'
    ensures Packed(g, frame, keyframe) < Packed(g, frame', keyframe')
  {
    if keyframe' != keyframe {
      ShlMonotone(keyframe + Bias(g) + 1, keyframe' + Bias(g), g.shift);
      ShlStep(keyframe + Bias(g), g.shift);
    }
  }

  /** Along increasing frames the stamps strictly increase. */
  lemma StampsIncrease(g: Granule, frames: seq<Frame>, i: nat, j: nat)
    requires Increasing(frames) && i < j < |frames|
    requires Stamp(g, frames, i).Some? && Stamp(g, frames, j).Some?
    requires !CountOverflows(g, Running(frames[..j + 1]))
    ensures 0 <= Stamp(g, frames, i).value < Stamp(g, frames, j).value
  {
    var k, k' := Running(frames[..i + 1]), Running(frames[..j + 1]);
    RunningMoves(frames, i, j);
    PackMeaning(g, frames[i].number, k);
    PackMeaning(g, frames[j].number, k');
    LaterKeyframe(g, frames[i].number, k, frames[j].number, k');
  }

  // ----- the seek axis -----

  datatype SeekKey = Identity(offset: nat) | TheoraFrame(shift: nat, bias: nat)

  /** Keyframe plus offset, saturating; a negative granule passes through. */
  function TheoraFrameNo(granule: i64, shift: nat): i64
  {
    if granule < 0 || shift == 0 then granule
    else if shift >= 63 then 0
    else Min(High(granule, shift) + Low(granule, shift), I64_MAX)
  }

  function KeyOf(key: SeekKey, granule: i64): int
  {
    match key
    case Identity(offset) => if granule < 0 then granule else Max(granule - offset, 0)
    case TheoraFrame(shift, bias) =>
      var no := TheoraFrameNo(granule, shift);
      if no < 0 then no else no - bias
  }

  function AxisOf(g: Granule): SeekKey { TheoraFrame(g.shift, Bias(g)) }

  /** The seek axis reads the frame number back off the granule. */
  lemma KeyRecoversFrame(g: Granule, frame: i64, keyframe: i64)
    requires Pack(g, frame, keyframe).Some? && !CountOverflows(g, keyframe)
    ensures var x := Pack(g, frame, keyframe).value; 0 <= x < TWO63 && KeyOf(AxisOf(g), x) == frame
  {
    PackMeaning(g, frame, keyframe);
    OfShifted(keyframe + Bias(g), g.shift, frame - keyframe);
    ShlGrows(keyframe + Bias(g), g.shift);
  }

  /**
   Off a stream's own granules the axis can go back: offset 3 of keyframe 0 reads as a later frame
   than keyframe 1.
   */
  lemma AxisNotMonotone()
    ensures KeyOf(TheoraFrame(2, 0), 3) == 3 && KeyOf(TheoraFrame(2, 0), 4) == 1
  {
    assert High(3, 2) == 0 && Low(3, 2) == 3;
    assert High(4, 2) == 1 && Low(4, 2) == 0;
  }

  /** Without frames the seek axis is the sample number: the samples in front that are skipped are all sample 0. */
  lemma KeyRecoversSample(skip: nat, sample: int, granule: i64)
    requires granule == sample + skip && granule >= 0
    ensures KeyOf(Identity(skip), granule) == if sample < 0 then 0 else sample
  {}
}
