/** Cutting a TL-SDU and its FCS into advanced-link segments, and putting them together again. */
module Segmentation {
  import opened Arithmetic
  import opened Fcs

  const SEGMENT_BITS: nat := 214
  const FINAL_FCS_BITS: nat := 32

  function Concat(segments: seq<Bits>): Bits {
    if segments == [] then [] else segments[0] + Concat(segments[1..])
  }

  function SegmentCount(total: nat): (n: nat)
    ensures n >= 1
  {
    if total <= SEGMENT_BITS then 1 else (total + SEGMENT_BITS - 1) / SEGMENT_BITS
  }

  function NonFinalLength(total: nat): nat
    requires total > SEGMENT_BITS
  {
    var fit := (total - FINAL_FCS_BITS) / (SegmentCount(total) - 1);
    if SEGMENT_BITS <= fit then SEGMENT_BITS else fit
  }

  function Sum(lengths: seq<nat>): nat {
    if lengths == [] then 0 else lengths[0] + Sum(lengths[1..])
  }

  function SegmentLengths(total: nat): (lengths: seq<nat>)
    ensures |lengths| == SegmentCount(total) && Sum(lengths) == total
  {
    if total <= SEGMENT_BITS then [total]
    else
      CutFits(total);
      var count, length := SegmentCount(total), NonFinalLength(total);
      UniformSum(count - 1, length, total - length * (count - 1));
      seq(count - 1, _ => length) + [total - length * (count - 1)]
  }

  // Consecutive pieces of `bits` with the given lengths.
  function Cut(bits: Bits, lengths: seq<nat>): (segments: seq<Bits>)
    requires Sum(lengths) == |bits|
    ensures |segments| == |lengths|
  {
    if lengths == [] then [] else [bits[..lengths[0]]] + Cut(bits[lengths[0]..], lengths[1..])
  }

  function Segments(sdu: Bits): (segments: seq<Bits>)
    ensures |segments| == SegmentCount(|sdu| + 32)
  {
    Cut(Protect(sdu), SegmentLengths(|sdu| + 32))
  }

  lemma CountBounds(total: nat)
    requires total > SEGMENT_BITS
    ensures var n := SegmentCount(total); n >= 2 && 214 * (n - 1) < total <= 214 * n
  {
  }

  lemma QuotientTimes(x: nat, d: nat)
    requires d > 0
    ensures x / d * d <= x < x / d * d + d
  {
  }

  lemma FloorAtLeast(x: nat, d: nat, k: nat)
    requires d > 0 && k * d <= x
    ensures x / d >= k
  {
    QuotientTimes(x, d);
    if x / d < k {
      TimesMonotone(x / d + 1, k, d);
    }
  }

  lemma TimesMonotone(a: nat, b: nat, d: nat)
    requires a <= b
    ensures a * d <= b * d
  {
  }

  lemma {:induction false} UniformSum(count: nat, length: nat, last: nat)
    ensures Sum(seq(count, _ => length) + [last]) == length * count + last
  {
    var lengths := seq(count, _ => length) + [last];
    if count == 0 {
      assert lengths == [last] && lengths[1..] == [];
    } else {
      assert lengths[1..] == seq(count - 1, _ => length) + [last];
      UniformSum(count - 1, length, last);
      assert length * count == length + length * (count - 1);
    }
  }

  lemma CutFits(total: nat)
    requires total > SEGMENT_BITS
    ensures 183 <= NonFinalLength(total) <= 214
    ensures NonFinalLength(total) * (SegmentCount(total) - 1) <= total - FINAL_FCS_BITS
  {
    CountBounds(total);
    var d, length := SegmentCount(total) - 1, NonFinalLength(total);
    assert length == if SEGMENT_BITS <= (total - 32) / d then SEGMENT_BITS else (total - 32) / d;
    hide NonFinalLength, SegmentCount;
    FitsInto(total - 32, d, length);
  }

  lemma FitsInto(x: nat, d: nat, length: nat)
    requires d > 0 && 183 * d <= x && length == if SEGMENT_BITS <= x / d then SEGMENT_BITS else x / d
    ensures 183 <= length <= 214 && length * d <= x
  {
    QuotientTimes(x, d);
    FloorAtLeast(x, d, 183);
    TimesMonotone(length, x / d, d);
  }

  lemma {:induction false} CutJoins(bits: Bits, lengths: seq<nat>)
    requires Sum(lengths) == |bits|
    ensures Concat(Cut(bits, lengths)) == bits
    ensures forall i | 0 <= i < |lengths| :: |Cut(bits, lengths)[i]| == lengths[i]
  {
    if lengths != [] {
      CutJoins(bits[lengths[0]..], lengths[1..]);
      assert bits[..lengths[0]] + bits[lengths[0]..] == bits;
    }
  }

  /** The segments joined in order are the TL-SDU followed by its FCS. */
  lemma SegmentsJoin(sdu: Bits)
    ensures Concat(Segments(sdu)) == Protect(sdu)
  {
    CutJoins(Protect(sdu), SegmentLengths(|sdu| + 32));
  }

  /** No segmentation into pieces of at most 214 bits has fewer segments. */
  lemma {:induction false} FewestSegments(pieces: seq<Bits>)
    requires forall i | 0 <= i < |pieces| :: |pieces[i]| <= SEGMENT_BITS
    ensures |Concat(pieces)| <= SEGMENT_BITS * |pieces|
    ensures pieces != [] ==> SegmentCount(|Concat(pieces)|) <= |pieces|
  {
    if pieces != [] {
      FewestSegments(pieces[1..]);
    }
  }

  /**
   Whether the last segment keeps to the 214-bit capacity. The last of the full 214-bit
   pieces of `total` has to hold the FCS, or else there are few enough segments to shorten.
   */
  predicate FinalFits(total: nat) {
    var n := SegmentCount(total);
    var rest := total - SEGMENT_BITS * (n - 1);
    rest >= FINAL_FCS_BITS || n - 1 + rest <= SEGMENT_BITS
  }

  lemma FinalLength(total: nat)
    requires total > SEGMENT_BITS
    ensures var last := total - NonFinalLength(total) * (SegmentCount(total) - 1);
            32 <= last && (last <= 214 <==> FinalFits(total))
  {
    CountBounds(total);
    var d, length := SegmentCount(total) - 1, NonFinalLength(total);
    assert length == if SEGMENT_BITS <= (total - 32) / d then SEGMENT_BITS else (total - 32) / d;
    hide NonFinalLength, SegmentCount;
    FinalLengthOf(total, d, total - 214 * d, length);
  }

  // With `d` segments before the last, and `rest` bits beyond `d` full ones.
  lemma FinalLengthOf(total: nat, d: nat, rest: nat, length: nat)
    requires d > 0 && total == 214 * d + rest && 1 <= rest <= 214 && 183 * d <= total - 32
    requires length == if SEGMENT_BITS <= (total - 32) / d then SEGMENT_BITS else (total - 32) / d
    ensures 32 <= total - length * d
    ensures total - length * d <= 214 <==> rest >= 32 || d + rest <= 214
  {
    FitsInto(total - 32, d, length);
    if rest >= 32 {
      FloorAtLeast(total - 32, d, 214);
    } else if d >= 32 - rest {
      Euclid(total - 32, d, 213, d - (32 - rest));
    } else {
      TimesMonotone((total - 32) / d, 214, d);
      QuotientTimes(total - 32, d);
      NotFloorAtLeast(total - 32, d, 214);
    }
  }

  lemma NotFloorAtLeast(x: nat, d: nat, k: nat)
    requires d > 0 && x < k * d
    ensures x / d < k
  {
    QuotientTimes(x, d);
    if x / d >= k {
      TimesMonotone(k, x / d, d);
    }
  }

  /**
   Shape of a segmentation: all segments but the last have one length between 183 and
   214 bits, the last has at least the 32 bits of the FCS, and it is within the 214-bit
   capacity exactly when `FinalFits`.
   */
  lemma SegmentShape(sdu: Bits)
    ensures var segments, n := Segments(sdu), SegmentCount(|sdu| + 32);
            && (n > 1 ==> forall i | 0 <= i < n - 1 :: |segments[i]| == NonFinalLength(|sdu| + 32))
            && (n > 1 ==> 183 <= NonFinalLength(|sdu| + 32) <= 214)
            && 32 <= |segments[n - 1]|
            && (|segments[n - 1]| <= 214 <==> FinalFits(|sdu| + 32))
  {
    var total := |sdu| + 32;
    CutJoins(Protect(sdu), SegmentLengths(total));
    if total > SEGMENT_BITS {
      CutFits(total);
      FinalLength(total);
    }
  }

  /**
   Up to 184 segments the last one always keeps to the capacity, and 184 is the most for
   which that can be said: some TL-SDU with any larger number of segments overflows.
   */
  lemma CapacityUpTo184Segments(n: nat)
    requires n >= 1
    ensures (forall total: nat | SegmentCount(total) == n :: FinalFits(total)) <==> n <= 184
  {
    if n > 184 {
      var total := 214 * (n - 1) + 31;
      Euclid(total + 213, 214, n, 30);
      assert SegmentCount(total) == n && !FinalFits(total);
    } else {
      forall total: nat | SegmentCount(total) == n
        ensures FinalFits(total)
      {
        if total > SEGMENT_BITS {
          CountBounds(total);
        }
      }
    }
  }

  method ChooseLengths(total: nat) returns (lengths: seq<nat>)
    ensures lengths == SegmentLengths(total)
  {
    if total <= SEGMENT_BITS {
      return [total];
    }
    var count := (total + SEGMENT_BITS - 1) / SEGMENT_BITS;
    CountBounds(total);
    CutFits(total);
    var fit := (total - FINAL_FCS_BITS) / (count - 1);
    var nonFinal := if SEGMENT_BITS <= fit then SEGMENT_BITS else fit;
    lengths := seq(count - 1, _ => nonFinal) + [total - nonFinal * (count - 1)];
  }

  method AdvancedSegments(sdu: Bits) returns (segments: seq<Bits>)
    ensures segments == Segments(sdu)
  {
    hide SegmentLengths, Checksum;
    var checksum := ComputeFcs(sdu);
    var bits := sdu + checksum;
    var lengths := ChooseLengths(|bits|);
    segments := [];
    assert lengths[0..] == lengths;
    for i := 0 to |lengths|
      invariant Sum(lengths[i..]) == |bits|
      invariant segments + Cut(bits, lengths[i..]) == Segments(sdu)
    {
      assert lengths[i..][1..] == lengths[i + 1..];
      segments := segments + [bits[..lengths[i]]];
      bits := bits[lengths[i]..];
    }
  }
}
