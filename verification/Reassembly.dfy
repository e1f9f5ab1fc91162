/**
 One TL-SDU between the two halves: whatever order and multiplicity its segments arrive
 in, it is rebuilt bit for bit, and a partial acknowledgement block names exactly the
 segments that are still lacking.
 */
module Reassembly {
  import opened Wrappers
  import opened Fcs
  import opened AlPdu
  import opened Segmentation
  import opened Receiver
  import opened Sender

  // Segment numbers fit the 8-bit field.
  predicate Numbered(sdu: Bits) {
    |Segments(sdu)| <= 256
  }

  function AirNumber(k: nat): nat {
    k % 256
  }

  /** Distinct segments carry distinct numbers exactly up to 54752 bits of TL-SDU. */
  lemma SegmentNumbersAreDistinct(sdu: Bits)
    ensures (forall i: nat, j: nat | i < j < |Segments(sdu)| :: AirNumber(i) != AirNumber(j)) <==> |sdu| <= 54752
    ensures Numbered(sdu) <==> |sdu| <= 54752
  {
    hide AirNumber, Segments;
    NumbersWrap();
    SegmentsUpTo256(sdu);
    if |sdu| > 54752 {
      assert AirNumber(0) == AirNumber(256);
    }
  }

  lemma NumbersWrap()
    ensures AirNumber(0) == AirNumber(256) && forall k: nat | k < 256 :: AirNumber(k) == k
  {
  }

  lemma SegmentsUpTo256(sdu: Bits)
    ensures |Segments(sdu)| <= 256 <==> |sdu| <= 54752
  {
  }

  // What reassembly holds about TL-SDU `sdu`: genuine segments, the genuine last number.
  ghost predicate Genuine(rx: RxSdu, sdu: Bits) {
    var segments := Segments(sdu);
    && (forall k <- rx.segments.Keys :: k < |segments| && rx.segments[k] == segments[k])
    && (rx.finalSegment.Some? <==> |segments| - 1 in rx.segments)
    && (rx.finalSegment.Some? ==> rx.finalSegment.value == |segments| - 1)
  }

  // The PDU that carries segment `k` of `sdu`, whatever its acknowledgement request says.
  ghost predicate Carries(pdu: AlData, sdu: Bits, k: nat) {
    && k < |Segments(sdu)|
    && pdu.segment == AirNumber(k)
    && pdu.bits == Segments(sdu)[k]
    && (pdu.finalSegment <==> k == |Segments(sdu)| - 1)
  }

  lemma AbsorbGenuine(rx: RxSdu, sdu: Bits, pdu: AlData, k: nat)
    requires Genuine(rx, sdu) && Carries(pdu, sdu, k) && Numbered(sdu)
    ensures Genuine(Absorb(rx, pdu), sdu)
    ensures Absorb(rx, pdu).segments.Keys == rx.segments.Keys + {k}
    ensures Absorb(rx, pdu).complete == rx.complete && Absorb(rx, pdu).ns == rx.ns
  {
    NumberedIsItself(sdu, k);
    hide Segments, Numbered, AirNumber;
  }

  lemma NumberedIsItself(sdu: Bits, k: nat)
    requires Numbered(sdu) && k < |Segments(sdu)|
    ensures AirNumber(k) == k
  {
    hide Segments;
  }

  lemma {:induction false} AssembleIsConcat(segments: map<nat, Bits>, pieces: seq<Bits>, count: nat)
    requires count <= |pieces|
    requires forall k: nat | k < count :: k in segments && segments[k] == pieces[k]
    ensures Assemble(segments, count) == Concat(pieces[..count])
  {
    if count > 0 {
      AssembleIsConcat(segments, pieces, count - 1);
      ConcatAppend(pieces[..count - 1], pieces[count - 1]);
      assert pieces[..count - 1] + [pieces[count - 1]] == pieces[..count];
    }
  }

  lemma {:induction false} ConcatAppend(pieces: seq<Bits>, last: Bits)
    ensures Concat(pieces + [last]) == Concat(pieces) + last
  {
    if pieces == [] {
      assert (pieces + [last])[1..] == [];
    } else {
      ConcatAppend(pieces[1..], last);
      assert (pieces + [last])[1..] == pieces[1..] + [last];
    }
  }

  /** Once every segment is there, the assembled bits pass the check and hold the TL-SDU. */
  lemma CompleteIsTheSdu(rx: RxSdu, sdu: Bits)
    requires Genuine(rx, sdu)
    ensures HasAllSegments(rx) <==> forall k: nat | k < |Segments(sdu)| :: k in rx.segments
    ensures HasAllSegments(rx) ==> Check(Assembled(rx)) && Assembled(rx)[..|Assembled(rx)| - 32] == sdu
  {
    var segments := Segments(sdu);
    if HasAllSegments(rx) {
      AssembleIsConcat(rx.segments, segments, |segments|);
      assert segments[..|segments|] == segments;
      SegmentsJoin(sdu);
      ProtectedPassesCheck(sdu);
    }
  }

  function AbsorbAll(rx: RxSdu, pdus: seq<AlData>): RxSdu
    decreases |pdus|
  {
    if pdus == [] then rx else AbsorbAll(Absorb(rx, pdus[0]), pdus[1..])
  }

  // `pdus[i]` carries segment `numbers[i]` of `sdu`.
  ghost predicate CarryAll(pdus: seq<AlData>, sdu: Bits, numbers: seq<nat>) {
    |pdus| == |numbers| && forall i | 0 <= i < |pdus| :: Carries(pdus[i], sdu, numbers[i])
  }

  function Members(numbers: seq<nat>): set<nat> {
    set k | k in numbers
  }

  lemma {:induction false} AbsorbAllGenuine(rx: RxSdu, sdu: Bits, pdus: seq<AlData>, numbers: seq<nat>)
    requires Genuine(rx, sdu) && CarryAll(pdus, sdu, numbers) && Numbered(sdu)
    ensures Genuine(AbsorbAll(rx, pdus), sdu)
    ensures AbsorbAll(rx, pdus).segments.Keys == rx.segments.Keys + Members(numbers)
    decreases |pdus|
  {
    hide Genuine, Numbered, Carries, Absorb, Members;
    MembersOneMore(numbers);
    if pdus != [] {
      AbsorbGenuine(rx, sdu, pdus[0], numbers[0]);
      AbsorbAllGenuine(Absorb(rx, pdus[0]), sdu, pdus[1..], numbers[1..]);
    }
  }

  lemma MembersOneMore(numbers: seq<nat>)
    ensures Members(numbers) == if numbers == [] then {} else {numbers[0]} + Members(numbers[1..])
  {
    if numbers != [] {
      assert numbers == [numbers[0]] + numbers[1..];
    }
  }

  /**
   Round trip of one TL-SDU: from any arrival sequence, in any order and with any
   repetitions, it is complete exactly when every segment arrived at least once, and then
   the reassembled bits pass the FCS and are the TL-SDU.
   */
  lemma ReassemblyRoundTrip(sdu: Bits, ns: nat, pdus: seq<AlData>, numbers: seq<nat>)
    requires Numbered(sdu) && CarryAll(pdus, sdu, numbers)
    ensures var rx := AbsorbAll(RxSdu(ns, map[], None, None), pdus);
            && (HasAllSegments(rx) <==> forall k: nat | k < |Segments(sdu)| :: k in numbers)
            && (HasAllSegments(rx) ==> Check(Assembled(rx)) && Assembled(rx)[..|Assembled(rx)| - 32] == sdu)
  {
    var empty := RxSdu(ns, map[], None, None);
    AbsorbAllGenuine(empty, sdu, pdus, numbers);
    CompleteIsTheSdu(AbsorbAll(empty, pdus), sdu);
    assert forall k: nat :: k in Members(numbers) <==> k in numbers;
  }

  // ----- Acknowledgement blocks

  lemma {:induction false} LastKeyIsLast(segments: map<nat, Bits>, k: nat)
    ensures LastKey(segments, k) <= k
    ensures forall j: nat | LastKey(segments, k) < j <= k :: j !in segments
    ensures LastKey(segments, k) in segments || LastKey(segments, k) == 0
  {
    if k > 0 && k !in segments {
      LastKeyIsLast(segments, k - 1);
    }
  }

  lemma {:induction false} FirstGapIsFirst(segments: map<nat, Bits>, k: nat, highest: nat)
    ensures match FirstGap(segments, k, highest)
            case Some(g) => k <= g <= highest && g !in segments && forall j | k <= j < g :: j in segments
            case None => forall j | k <= j <= highest :: j in segments
    decreases highest + 1 - k
  {
    if k <= highest && k in segments {
      FirstGapIsFirst(segments, k + 1, highest);
    }
  }

  lemma {:induction false} GapsMembers(first: nat, bitmap: seq<bool>, k: nat)
    ensures k in Gaps(first, bitmap) <==> first <= k < first + |bitmap| && !bitmap[k - first]
    decreases |bitmap|
  {
    if bitmap != [] {
      GapsMembers(first + 1, bitmap[1..], k);
      InPrefixed(if bitmap[0] then [] else [first], Gaps(first + 1, bitmap[1..]), k);
    }
  }

  lemma InPrefixed(head: seq<nat>, tail: seq<nat>, k: nat)
    ensures k in head + tail <==> k in head || k in tail
  {
  }

  lemma {:induction false} RetainMembers(numbers: seq<nat>, count: nat, k: nat)
    ensures k in Retain(numbers, count) <==> k in numbers && k < count
  {
    if numbers != [] {
      RetainMembers(numbers[1..], count, k);
    }
  }

  // A TL-SDU as it waits in the receive window for more segments.
  predicate Waiting(rx: RxSdu) {
    && rx.ns <= 7 && rx.complete.None? && !HasAllSegments(rx)
    && ByteKeys(rx.segments) && (rx.finalSegment.Some? ==> rx.finalSegment.value <= 255)
  }

  // Positions 0..255 have all arrived although the TL-SDU is not complete.
  predicate NumbersExhausted(rx: RxSdu) {
    AllPresent(rx.segments, 255)
  }

  lemma FirstMissingIsFirst(rx: RxSdu)
    requires Waiting(rx)
    ensures var first, last := FirstMissing(rx), LastDescribed(rx);
            && (forall k: nat | k < first :: k in rx.segments)
            && (first in rx.segments <==> NumbersExhausted(rx))
            && first <= 255 && last <= Highest(rx) <= 255 && last <= first + 61
            && (NumbersExhausted(rx) ==> first == 255)
            && (first <= last || first == Highest(rx) + 1 || NumbersExhausted(rx))
  {
    LastKeyIsLast(rx.segments, 255);
    FirstGapIsFirst(rx.segments, 0, Highest(rx));
    var gap := FirstGap(rx.segments, 0, Highest(rx));
    if gap.None? {
      assert rx.finalSegment.None?;
      if Highest(rx) < 255 {
        assert Highest(rx) + 1 !in rx.segments;
      }
    }
  }

  // The last position the block describes.
  function Reach(rx: RxSdu): nat {
    if FirstMissing(rx) <= LastDescribed(rx) then LastDescribed(rx) else FirstMissing(rx)
  }

  /** A block describes everything up to the last segment received, or known to exist, unless that is too far. */
  lemma BlockReachesTheLast(rx: RxSdu)
    requires Waiting(rx)
    ensures Reach(rx) == FirstMissing(rx) + 61
            || ((forall k <- rx.segments.Keys :: k <= Reach(rx))
                && (rx.finalSegment.Some? ==> rx.finalSegment.value <= Reach(rx)))
            || (rx.finalSegment.Some? && Reach(rx) == rx.finalSegment.value)
  {
    FirstMissingIsFirst(rx);
    LastKeyIsLast(rx.segments, 255);
  }

  lemma BlockShape(rx: RxSdu)
    requires Waiting(rx)
    ensures var block, first := AcknowledgementBlock(rx), FirstMissing(rx);
            && block.nr == rx.ns && block.firstMissing == Some(first)
            && 1 <= block.length <= 62 && block.length == Reach(rx) - first + 1 && |block.bitmap| == Reach(rx) - first
            && forall i | 0 <= i < |block.bitmap| :: block.bitmap[i] <==> first + 1 + i in rx.segments
  {
    FirstMissingIsFirst(rx);
  }

  lemma MissingMembers(block: AlAckBlock, count: nat, k: nat)
    requires block.firstMissing.Some?
    ensures k in MissingSegments(block, count) <==>
            && k < count
            && (k == block.firstMissing.value
                || (block.firstMissing.value < k <= block.firstMissing.value + |block.bitmap|
                    && !block.bitmap[k - block.firstMissing.value - 1]))
  {
    hide Gaps, Retain;
    var first := block.firstMissing.value;
    GapsMembers(first + 1, block.bitmap, k);
    RetainMembers([first] + Gaps(first + 1, block.bitmap), count, k);
  }

  /**
   Acknowledgement round trip: the encoder accepts the block, and what the sender reads
   back from it is exactly the set of segments lacking up to the described position, which
   lies at most 61 beyond the first lacking one. It names a segment that did arrive exactly
   when all 256 numbers have arrived and the TL-SDU is still not complete.
   */
  lemma BlockNamesExactlyTheLacking(rx: RxSdu, count: nat)
    requires Waiting(rx)
    ensures var block := AcknowledgementBlock(rx);
            && block.nr == rx.ns && block.IsEncodable() && !block.IsPositive() && block.length != 63
            && (!NumbersExhausted(rx) ==>
                  forall k: nat :: k in MissingSegments(block, count)
                    <==> k < count && k !in rx.segments && k <= Reach(rx))
            && (NumbersExhausted(rx) && count > 255 ==> 255 in MissingSegments(block, count) && 255 in rx.segments)
    ensures !NumbersExhausted(rx) ==>
              FirstMissing(rx) !in rx.segments && FirstMissing(rx) <= Reach(rx) <= FirstMissing(rx) + 61
  {
    FirstMissingIsFirst(rx);
    BlockShape(rx);
    var block := AcknowledgementBlock(rx);
    hide AcknowledgementBlock, FirstMissing, Reach, LastDescribed, Highest, MissingSegments, HasAllSegments;
    forall k: nat
      ensures k in MissingSegments(block, count) <==>
              k < count && (k == FirstMissing(rx) || (FirstMissing(rx) < k <= Reach(rx) && k !in rx.segments))
    {
      MissingMembers(block, count, k);
    }
  }

  // The receiving half after these PDUs, from a window that holds nothing yet.
  function ReceiveAll(window: nat, next: nat, pdus: seq<AlData>): Reception {
    if pdus == [] then Reception(next, map[], None, [])
    else
      var before := ReceiveAll(window, next, pdus[..|pdus| - 1]);
      Receive(window, before.next, before.sdus, pdus[|pdus| - 1])
  }

  predicate Seen(pdus: seq<AlData>, k: nat) {
    exists i | 0 <= i < |pdus| :: pdus[i].segment == k
  }

  predicate Unfinished(pdus: seq<AlData>, ns: nat) {
    forall i | 0 <= i < |pdus| :: !pdus[i].finalSegment && pdus[i].ns == ns && pdus[i].segment <= 255
  }

  // All the receiving half holds is TL-SDU `ns`, not completed, with these segments.
  ghost predicate Collects(r: Reception, ns: nat, numbers: set<nat>) {
    && r.next == ns && r.delivered == [] && r.sdus.Keys == {ns}
    && r.sdus[ns].ns == ns && r.sdus[ns].complete.None? && r.sdus[ns].finalSegment.None?
    && r.sdus[ns].segments.Keys == numbers && ByteKeys(r.sdus[ns].segments)
  }

  lemma {:induction false} CollectsAll(window: nat, ns: nat, pdus: seq<AlData>)
    requires 1 <= window <= 3 && ns <= 7 && pdus != [] && Unfinished(pdus, ns)
    ensures Collects(ReceiveAll(window, ns, pdus), ns, set i | 0 <= i < |pdus| :: pdus[i].segment)
    decreases |pdus|
  {
    hide Collects, Receive;
    var last := |pdus| - 1;
    var before := pdus[..last];
    var numbers := set i | 0 <= i < |before| :: before[i].segment;
    assert Unfinished(before, ns);
    assert (set i | 0 <= i < |pdus| :: pdus[i].segment) == numbers + {pdus[last].segment} by {
      assert forall i | 0 <= i < last :: pdus[i] == before[i];
    }
    var r := ReceiveAll(window, ns, before);
    assert ReceiveAll(window, ns, pdus) == Receive(window, r.next, r.sdus, pdus[last]);
    if before == [] {
      CollectsFirst(window, ns, pdus[last]);
      assert before == [] && numbers + {pdus[last].segment} == {pdus[last].segment};
    } else {
      CollectsAll(window, ns, before);
      CollectsNext(window, ns, r, pdus[last], numbers);
    }
  }

  lemma CollectsFirst(window: nat, ns: nat, pdu: AlData)
    requires 1 <= window <= 3 && ns <= 7 && pdu.ns == ns && !pdu.finalSegment && pdu.segment <= 255
    ensures Collects(Receive(window, ns, map[], pdu), ns, {pdu.segment})
  {
    var none: map<nat, RxSdu> := map[];
    var absorbed := Absorb(RxSdu(ns, map[], None, None), pdu);
    assert Receive(window, ns, none, pdu) == ReceiveSegment(window, ns, none, absorbed, pdu);
    assert Drain(ns, none[ns := absorbed]) == Drained(ns, none[ns := absorbed], []);
  }

  lemma CollectsNext(window: nat, ns: nat, r: Reception, pdu: AlData, numbers: set<nat>)
    requires 1 <= window <= 3 && ns <= 7 && pdu.ns == ns && !pdu.finalSegment && pdu.segment <= 255
    requires Collects(r, ns, numbers)
    ensures Collects(Receive(window, r.next, r.sdus, pdu), ns, numbers + {pdu.segment})
  {
    var absorbed := Absorb(r.sdus[ns], pdu);
    assert Receive(window, ns, r.sdus, pdu) == ReceiveSegment(window, ns, r.sdus, absorbed, pdu);
    assert Drain(ns, r.sdus[ns := absorbed]) == Drained(ns, r.sdus[ns := absorbed], []);
  }

  /**
   How the numbers come to be exhausted: from whatever segments of one TL-SDU arrive, in any order
   and repeated, as long as none is the final one, the TL-SDU waits, and it has exhausted its
   numbers exactly when each number from 0 to 255 was among them.
   */
  lemma ExhaustedArises(window: nat, ns: nat, pdus: seq<AlData>)
    requires 1 <= window <= 3 && ns <= 7 && pdus != [] && Unfinished(pdus, ns)
    ensures var r := ReceiveAll(window, ns, pdus);
            && r.next == ns && r.delivered == [] && r.sdus.Keys == {ns} && Waiting(r.sdus[ns])
            && (NumbersExhausted(r.sdus[ns]) <==> forall k: nat | k <= 255 :: Seen(pdus, k))
  {
    CollectsAll(window, ns, pdus);
    hide ReceiveAll;
    var numbers := set i | 0 <= i < |pdus| :: pdus[i].segment;
    assert forall k: nat :: k in numbers <==> Seen(pdus, k);
  }

  /** Such PDUs: 256 segments none of which is the final one. */
  lemma FirstSegmentsExhaust(window: nat, ns: nat, body: Bits)
    requires 1 <= window <= 3 && ns <= 7
    ensures var r := ReceiveAll(window, ns, seq(256, k requires 0 <= k => AlData(false, false, ns, k, body)));
            ns in r.sdus && Waiting(r.sdus[ns]) && NumbersExhausted(r.sdus[ns])
  {
    var pdus := seq(256, k requires 0 <= k => AlData(false, false, ns, k, body));
    hide ReceiveAll, Waiting, NumbersExhausted;
    forall k: nat | k <= 255
      ensures Seen(pdus, k)
    {
      assert pdus[k].segment == k;
    }
    ExhaustedArises(window, ns, pdus);
  }

  // The segments of `sdu` reassembly still lacks.
  function Lacking(rx: RxSdu, sdu: Bits): set<nat> {
    set k: nat | k < |Segments(sdu)| && k !in rx.segments
  }

  /**
   One recovery round in which nothing is lost: the receiver reports, the sender sends the
   segments the report names, and they arrive in any order, possibly repeated. The segments
   lacking afterwards are those lacking before minus those named, at least one fewer.
   */
  lemma RecoveryRoundMakesProgress(rx: RxSdu, sdu: Bits, pdus: seq<AlData>, numbers: seq<nat>)
    requires Waiting(rx) && Genuine(rx, sdu) && Numbered(sdu)
    requires CarryAll(pdus, sdu, numbers)
    requires Members(numbers) == Members(MissingSegments(AcknowledgementBlock(rx), |Segments(sdu)|))
    ensures var after := AbsorbAll(rx, pdus);
            && Lacking(after, sdu) == Lacking(rx, sdu) - Members(numbers)
            && |Lacking(after, sdu)| < |Lacking(rx, sdu)|
            && (|Lacking(after, sdu)| == 0 <==> HasAllSegments(after))
  {
    hide Waiting, Genuine, Numbered, CarryAll, AcknowledgementBlock, MissingSegments, AbsorbAll, Lacking,
         HasAllSegments, Members;
    var after := AbsorbAll(rx, pdus);
    var first := OneNamedLacks(rx, sdu);
    AbsorbAllGenuine(rx, sdu, pdus, numbers);
    LackingAfter(rx, after, sdu, Members(numbers));
    LackingNothing(after, sdu);
    RemoveLowers(Lacking(rx, sdu), Members(numbers), first);
  }

  // A waiting TL-SDU lacks a segment, and its block names the first one it lacks.
  lemma OneNamedLacks(rx: RxSdu, sdu: Bits) returns (first: nat)
    requires Waiting(rx) && Genuine(rx, sdu) && Numbered(sdu)
    ensures first in Lacking(rx, sdu) && first in Members(MissingSegments(AcknowledgementBlock(rx), |Segments(sdu)|))
  {
    first := FirstMissing(rx);
    CompleteIsTheSdu(rx, sdu);
    var lost: nat :| lost < |Segments(sdu)| && lost !in rx.segments;
    FirstMissingIsFirst(rx);
    assert !NumbersExhausted(rx) by {
      assert lost <= 255;
    }
    BlockNamesExactlyTheLacking(rx, |Segments(sdu)|);
    hide Waiting, Genuine, Numbered, AcknowledgementBlock, MissingSegments, FirstMissing, Reach, LastDescribed,
         Highest, Segments, NumbersExhausted;
    assert first <= lost;
    assert first in MissingSegments(AcknowledgementBlock(rx), |Segments(sdu)|);
  }

  lemma LackingAfter(rx: RxSdu, after: RxSdu, sdu: Bits, arrived: set<nat>)
    requires after.segments.Keys == rx.segments.Keys + arrived
    ensures Lacking(after, sdu) == Lacking(rx, sdu) - arrived
  {
    hide Segments;
  }

  lemma LackingNothing(rx: RxSdu, sdu: Bits)
    requires Genuine(rx, sdu)
    ensures |Lacking(rx, sdu)| == 0 <==> HasAllSegments(rx)
  {
    CompleteIsTheSdu(rx, sdu);
    hide Genuine, Segments, HasAllSegments;
    assert forall k: nat | k < |Segments(sdu)| :: k in rx.segments <==> k !in Lacking(rx, sdu);
    assert |Lacking(rx, sdu)| == 0 <==> Lacking(rx, sdu) == {};
  }

  lemma RemoveLowers<T>(all: set<T>, gone: set<T>, x: T)
    requires x in all && x in gone
    ensures |all - gone| < |all|
  {
    SubsetSize(all - gone, all - {x});
  }

  lemma SubsetSize<T>(a: set<T>, b: set<T>)
    requires a <= b
    ensures |a| <= |b|
  {
    assert b == a + (b - a);
  }
}
