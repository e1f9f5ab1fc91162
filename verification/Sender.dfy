/**
 The sending half of an acknowledged original advanced link: the queue of TL-SDUs, the
 modulo-8 send window, selective retransmission and acknowledgement-request recovery.
 */
module Sender {
  import opened Wrappers
  import opened Fcs
  import opened AlPdu
  import opened Tdma
  import opened TxReceipt

  const T252_ACK_WAITING: int := 36
  const T271_RECEIVER_NOT_READY: int := 144
  const MAX_ACK_REQUEST_REPEATS: nat := 5
  const MAX_QUEUED: nat := 64

  // `receipt` is the identity of the upper layer's receipt for this TL-SDU, which the
  // program holds as the shared reporter `reporter`. No branch depends on it.
  datatype TxSdu = TxSdu(
    receipt: nat,
    ns: nat,
    segments: seq<Bits>,
    reporter: TxState,
    attempt: Option<TxState>,
    ackRequested: bool,
    sentAt: Option<TdmaTime>,
    ackRepeats: nat,
    retransmissions: nat,
    segmentRetransmissions: seq<nat>,
    pending: Option<seq<nat>>)

  // The negotiated parameters the data transfer phase reads.
  datatype Limits = Limits(window: nat, sduRetransmissions: nat, segmentRetransmissions: nat)

  predicate InFlight(sdu: TxSdu) {
    sdu.attempt.Some? || sdu.sentAt.Some?
  }

  predicate WasSent(sdu: TxSdu) {
    InFlight(sdu) || sdu.reporter != Pending
  }

  predicate NeverOffered(sdu: TxSdu) {
    && !WasSent(sdu) && !sdu.ackRequested && sdu.ackRepeats == 0 && sdu.retransmissions == 0
    && (forall i | 0 <= i < |sdu.segmentRetransmissions| :: sdu.segmentRetransmissions[i] == 0)
    && sdu.pending.None?
  }

  function NewSdu(receipt: nat, ns: nat, reporter: TxState, segments: seq<Bits>): TxSdu {
    TxSdu(receipt, ns, segments, reporter, None, false, None, 0, 0, seq(|segments|, _ => 0), None)
  }

  // ----- Acknowledgements

  /** How many entries at the front the peer's receive window has passed. */
  function PassedCount(tx: seq<TxSdu>, base: nat, window: nat): (n: nat)
    ensures n <= |tx|
  {
    if tx == [] || tx[0].ns == base then 0
    else
      var advance := (base - tx[0].ns) % 8;
      if advance == 0 || advance > window || !WasSent(tx[0]) then 0
      else 1 + PassedCount(tx[1..], base, window)
  }

  function Find(tx: seq<TxSdu>, ns: nat): (position: nat)
    ensures position <= |tx|
    ensures position < |tx| ==> tx[position].ns == ns
    ensures forall i | 0 <= i < position :: tx[i].ns != ns
  {
    if tx == [] || tx[0].ns == ns then 0 else 1 + Find(tx[1..], ns)
  }

  // Segment numbers a partial block names: the first missing one and the gaps in its bitmap.
  function Gaps(first: nat, bitmap: seq<bool>): seq<nat>
    decreases |bitmap|
  {
    if bitmap == [] then []
    else (if bitmap[0] then [] else [first]) + Gaps(first + 1, bitmap[1..])
  }

  function Retain(numbers: seq<nat>, count: nat): (kept: seq<nat>)
    ensures forall i | 0 <= i < |kept| :: kept[i] < count
  {
    if numbers == [] then []
    else (if numbers[0] < count then [numbers[0]] else []) + Retain(numbers[1..], count)
  }

  function MissingSegments(block: AlAckBlock, count: nat): (missing: seq<nat>)
    requires block.firstMissing.Some?
    ensures forall i | 0 <= i < |missing| :: missing[i] < count
  {
    Retain([block.firstMissing.value] + Gaps(block.firstMissing.value + 1, block.bitmap), count)
  }

  function Inc(x: nat): nat {
    if x < 255 then x + 1 else 255
  }

  datatype Charge = Charge(counts: seq<nat>, exceeded: bool)

  /** Charge one retransmission to each named segment, stopping at the first over its limit. */
  function ChargeSegments(counts: seq<nat>, missing: seq<nat>, limit: nat): (charge: Charge)
    requires forall i | 0 <= i < |missing| :: missing[i] < |counts|
    ensures |charge.counts| == |counts|
    decreases |missing|
  {
    if missing == [] then Charge(counts, false)
    else
      var charged := counts[missing[0] := Inc(counts[missing[0]])];
      if charged[missing[0]] > limit then Charge(charged, true)
      else ChargeSegments(charged, missing[1..], limit)
  }

  function ResetIfTransmitted(state: TxState): TxState {
    if state.Transmitted? then state.Reset() else state
  }

  /** What a block that is not wholly positive does to the TL-SDU it names. */
  function ApplyReport(sdu: TxSdu, block: AlAckBlock, limits: Limits): TxSdu
    requires |sdu.segmentRetransmissions| == |sdu.segments|
  {
    var again :=
      if block.length == 63 then sdu.(retransmissions := Inc(sdu.retransmissions), pending := None)
      else if block.firstMissing.Some? then
        var missing := MissingSegments(block, |sdu.segments|);
        var charge := ChargeSegments(sdu.segmentRetransmissions, missing, limits.segmentRetransmissions);
        var charged := sdu.(segmentRetransmissions := charge.counts);
        if charge.exceeded then charged.(retransmissions := Inc(sdu.retransmissions), pending := None)
        else if missing != [] then charged.(pending := Some(missing))
        else charged
      else sdu;
    again.(ackRepeats := 0, ackRequested := false, reporter := ResetIfTransmitted(sdu.reporter), sentAt := None,
           attempt := None)
  }

  function RemoveAt<T>(s: seq<T>, i: nat): seq<T>
    requires i < |s|
  {
    s[..i] + s[i + 1..]
  }

  predicate WellFormed(tx: seq<TxSdu>) {
    forall i | 0 <= i < |tx| :: |tx[i].segmentRetransmissions| == |tx[i].segments|
  }

  // `acked` lists the entries completed, in the order they left the queue.
  datatype Acked = Acked(tx: seq<TxSdu>, acked: seq<TxSdu>, failed: Option<nat>)

  function ApplyBlock(tx: seq<TxSdu>, block: AlAckBlock, limits: Limits): (r: Acked)
    requires WellFormed(tx)
    ensures WellFormed(r.tx)
  {
    var position := Find(tx, block.nr);
    if position == |tx| || !WasSent(tx[position]) then Acked(tx, [], None)
    else if block.IsPositive() then Acked(RemoveAt(tx, position), [tx[position]], None)
    else
      var sdu := ApplyReport(tx[position], block, limits);
      Acked(tx[position := sdu], [], if sdu.retransmissions > limits.sduRetransmissions then Some(sdu.ns) else None)
  }

  function ApplyBlocks(tx: seq<TxSdu>, blocks: seq<AlAckBlock>, limits: Limits): (r: Acked)
    requires WellFormed(tx)
    ensures WellFormed(r.tx)
    decreases |blocks|
  {
    if blocks == [] then Acked(tx, [], None)
    else
      var head := ApplyBlock(tx, blocks[0], limits);
      if head.failed.Some? then head
      else
        var rest := ApplyBlocks(head.tx, blocks[1..], limits);
        rest.(acked := head.acked + rest.acked)
  }

  predicate IsWindowReport(blocks: seq<AlAckBlock>, window: nat) {
    |blocks| == window && forall i | 0 <= i < |blocks| - 1 :: blocks[i + 1].nr == (blocks[i].nr + 1) % 8
  }

  /** Everything an AL-ACK or AL-RNR does to the transmit queue of a link that is not resetting. */
  function ApplyAck(tx: seq<TxSdu>, blocks: seq<AlAckBlock>, limits: Limits): (r: Acked)
    requires WellFormed(tx) && blocks != []
    ensures WellFormed(r.tx)
  {
    var passed := if IsWindowReport(blocks, limits.window) then PassedCount(tx, blocks[0].nr, limits.window) else 0;
    var rest := ApplyBlocks(tx[passed..], blocks, limits);
    rest.(acked := tx[..passed] + rest.acked)
  }

  // ----- Submission to the MAC

  datatype Observed = Observed(sdu: TxSdu, failed: bool)

  /** Take over what the MAC reported about the current attempt. */
  function TakeReport(sdu: TxSdu, now: TdmaTime): TxSdu {
    match sdu.attempt
    case None => sdu
    case Some(Pending) => sdu
    case Some(Transmitted) | Some(Acknowledged) =>
      var marked := if sdu.reporter.Pending? then sdu.(reporter := sdu.reporter.MarkTransmitted()) else sdu;
      if sdu.ackRequested && sdu.sentAt.None? then marked.(sentAt := Some(now)) else marked
    case Some(Discarded) | Some(Lost) =>
      sdu.(attempt := None, ackRequested := false, sentAt := None)
  }

  predicate TimedOut(sdu: TxSdu, now: TdmaTime) {
    sdu.sentAt.Some? && now.Diff(sdu.sentAt.value) >= T252_ACK_WAITING
  }

  function Observe(sdu0: TxSdu, now: TdmaTime, limits: Limits): Observed {
    var sdu := TakeReport(sdu0, now);
    if !TimedOut(sdu, now) then Observed(sdu, false)
    else
      var idle := sdu.(reporter := ResetIfTransmitted(sdu.reporter), attempt := None, ackRequested := false,
                       sentAt := None);
      if sdu.ackRepeats < MAX_ACK_REQUEST_REPEATS then
        var last := if |sdu.segments| == 0 then 0 else |sdu.segments| - 1;
        Observed(idle.(ackRepeats := sdu.ackRepeats + 1, pending := Some([last])), false)
      else if sdu.retransmissions >= limits.sduRetransmissions then Observed(sdu, true)
      else Observed(idle.(retransmissions := sdu.retransmissions + 1, ackRepeats := 0, pending := None), false)
  }

  datatype ObservedAll = ObservedAll(tx: seq<TxSdu>, failed: Option<nat>)

  /** Observe the queue in order; the first exhausted TL-SDU ends the pass. */
  function ObserveAll(tx: seq<TxSdu>, now: TdmaTime, limits: Limits): (r: ObservedAll)
    ensures |r.tx| == |tx|
  {
    if tx == [] then ObservedAll([], None)
    else
      var head := Observe(tx[0], now, limits);
      if head.failed then ObservedAll([head.sdu] + tx[1..], Some(head.sdu.ns))
      else
        var rest := ObserveAll(tx[1..], now, limits);
        ObservedAll([head.sdu] + rest.tx, rest.failed)
  }

  function InFlightCount(tx: seq<TxSdu>): (n: nat)
    ensures n <= |tx|
  {
    if tx == [] then 0 else (if InFlight(tx[0]) then 1 else 0) + InFlightCount(tx[1..])
  }

  // The first position after the front that re-uses the front's N(S).
  function GenerationEnd(tx: seq<TxSdu>): (end: nat)
    requires tx != []
    ensures 1 <= end <= |tx|
    ensures forall i | 1 <= i < end :: tx[i].ns != tx[0].ns
    ensures end < |tx| ==> tx[end].ns == tx[0].ns
  {
    1 + Find(tx[1..], tx[0].ns)
  }

  predicate Offerable(tx: seq<TxSdu>, i: nat, limits: Limits, receiverNotReady: bool)
    requires i < |tx|
  {
    && i < GenerationEnd(tx)
    && (tx[i].ns - tx[0].ns) % 8 < limits.window
    && !InFlight(tx[i]) && !tx[i].ackRequested
    && tx[i].retransmissions <= limits.sduRetransmissions
    && (receiverNotReady ==> tx[i].pending.Some? && tx[i].pending.value != [])
  }

  /** The first `budget` positions from `i` on that may be offered. */
  function Pick(tx: seq<TxSdu>, i: nat, budget: nat, limits: Limits, receiverNotReady: bool): (picked: seq<nat>)
    requires i <= |tx|
    ensures forall a | 0 <= a < |picked| :: i <= picked[a] < |tx| && Offerable(tx, picked[a], limits, receiverNotReady)
    ensures forall a, b | 0 <= a < b < |picked| :: picked[a] < picked[b]
    ensures |picked| <= budget
    decreases |tx| - i
  {
    if i == |tx| || budget == 0 then []
    else if Offerable(tx, i, limits, receiverNotReady) then [i] + Pick(tx, i + 1, budget - 1, limits, receiverNotReady)
    else Pick(tx, i + 1, budget, limits, receiverNotReady)
  }

  function Selected(tx: seq<TxSdu>, limits: Limits, receiverNotReady: bool): (picked: seq<nat>)
    ensures forall a | 0 <= a < |picked| :: picked[a] < |tx| && Offerable(tx, picked[a], limits, receiverNotReady)
  {
    if tx == [] || (exists i | 0 <= i < |tx| :: tx[i].ackRequested) then []
    else
      var inFlight := InFlightCount(tx);
      Pick(tx, 0, if inFlight < limits.window then limits.window - inFlight else 0, limits, receiverNotReady)
  }

  /** The segments one offer of a TL-SDU puts in front of the MAC. */
  function OfferedSegments(sdu: TxSdu): seq<nat> {
    if sdu.pending.Some? && sdu.pending.value != [] then sdu.pending.value else seq(|sdu.segments|, k => k)
  }

  function SegmentPdu(sdu: TxSdu, number: nat, ackRequested: bool): AlData
    requires number < |sdu.segments|
  {
    AlData(number + 1 == |sdu.segments|, ackRequested, sdu.ns, number % 256, sdu.segments[number])
  }

  function Offer(sdu: TxSdu, requestAck: bool): TxSdu {
    sdu.(attempt := Some(Pending), ackRequested := requestAck, pending := None)
  }

  // Every named segment exists, so indexing the segment list cannot fail.
  predicate SegmentsExist(sdu: TxSdu) {
    forall i | 0 <= i < |OfferedSegments(sdu)| :: OfferedSegments(sdu)[i] < |sdu.segments|
  }

  function OfferPdus(sdu: TxSdu, requestAck: bool): seq<AlData>
    requires SegmentsExist(sdu)
  {
    var numbers := OfferedSegments(sdu);
    seq(|numbers|, i requires 0 <= i < |numbers| =>
      SegmentPdu(sdu, numbers[i], requestAck && i + 1 == |numbers|))
  }

  /** Mark the picked entries offered; the last of them asks for the acknowledgement. */
  function OfferAll(tx: seq<TxSdu>, picked: seq<nat>): (r: seq<TxSdu>)
    ensures |r| == |tx|
  {
    seq(|tx|, i requires 0 <= i < |tx| =>
      if i in picked then Offer(tx[i], i == picked[|picked| - 1]) else tx[i])
  }
}
