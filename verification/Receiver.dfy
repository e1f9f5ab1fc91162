/**
 The receiving half of an advanced link: segment reassembly, the modulo-8 receive
 window, acknowledgement blocks and delivery in N(S) order.
 */
module Receiver {
  import opened Wrappers
  import opened Fcs
  import opened AlPdu

  datatype RxSdu = RxSdu(ns: nat, segments: map<nat, Bits>, finalSegment: Option<nat>, complete: Option<Bits>)

  // Segment sequence numbers are 8 bits wide on the air.
  predicate ByteKeys(segments: map<nat, Bits>) {
    forall k <- segments.Keys :: k <= 255
  }

  // The last key at or below `k`, or 0 when there is none.
  function LastKey(segments: map<nat, Bits>, k: nat): nat {
    if k == 0 || k in segments then k else LastKey(segments, k - 1)
  }

  function Highest(rx: RxSdu): nat {
    if rx.finalSegment.Some? then rx.finalSegment.value else LastKey(rx.segments, 255)
  }

  // The first position from `k` up to `highest` that is not received.
  function FirstGap(segments: map<nat, Bits>, k: nat, highest: nat): Option<nat>
    decreases highest + 1 - k
  {
    if k > highest then None
    else if k !in segments then Some(k)
    else FirstGap(segments, k + 1, highest)
  }

  function Saturate(x: nat): nat {
    if x <= 255 then x else 255
  }

  function FirstMissing(rx: RxSdu): nat {
    match FirstGap(rx.segments, 0, Highest(rx))
    case Some(k) => k
    case None => Saturate(Highest(rx) + 1)
  }

  function LastDescribed(rx: RxSdu): nat {
    var far := Saturate(FirstMissing(rx) + 61);
    if far <= Highest(rx) then far else Highest(rx)
  }

  function AcknowledgementBlock(rx: RxSdu): AlAckBlock {
    if rx.complete.Some? then Positive(rx.ns)
    else
      var first, last := FirstMissing(rx), LastDescribed(rx);
      var length := if first <= last then last - first + 1 else 1;
      AlAckBlock(rx.ns, length, Some(first),
                 seq(length - 1, i => first + 1 + i in rx.segments))
  }

  function WindowBlock(next: nat, sdus: map<nat, RxSdu>, override: Option<AlAckBlock>, offset: nat): AlAckBlock {
    var nr := (next + offset) % 8;
    if override.Some? && override.value.nr == nr then override.value
    else if nr in sdus then AcknowledgementBlock(sdus[nr])
    else AlAckBlock(nr, 1, Some(0), [])
  }

  /** One block for every position of the receive window, from its lower edge. */
  function AcknowledgementBlocks(window: nat, next: nat, sdus: map<nat, RxSdu>,
                                 override: Option<AlAckBlock>): seq<AlAckBlock> {
    seq(window, offset requires 0 <= offset => WindowBlock(next, sdus, override, offset))
  }

  predicate AllPresent(segments: map<nat, Bits>, last: nat) {
    forall k: nat | k <= last :: k in segments
  }

  function Assemble(segments: map<nat, Bits>, count: nat): Bits
    requires forall k: nat | k < count :: k in segments
  {
    if count == 0 then [] else Assemble(segments, count - 1) + segments[count - 1]
  }

  /** Take one segment into a TL-SDU under reassembly; the first copy of a segment is kept. */
  function Absorb(rx: RxSdu, pdu: AlData): RxSdu {
    var segments := if pdu.segment in rx.segments then rx.segments else rx.segments[pdu.segment := pdu.bits];
    var final := if pdu.finalSegment then Some(pdu.segment) else rx.finalSegment;
    rx.(segments := segments, finalSegment := final)
  }

  predicate HasAllSegments(rx: RxSdu) {
    rx.finalSegment.Some? && AllPresent(rx.segments, rx.finalSegment.value)
  }

  function Assembled(rx: RxSdu): Bits
    requires HasAllSegments(rx)
  {
    Assemble(rx.segments, rx.finalSegment.value + 1)
  }

  datatype Drained = Drained(next: nat, sdus: map<nat, RxSdu>, delivered: seq<Bits>)

  /** Deliver the run of completed TL-SDUs that starts at the lower edge of the window. */
  function Drain(next: nat, sdus: map<nat, RxSdu>): Drained
    decreases |sdus|
  {
    if next in sdus && sdus[next].complete.Some? then
      assert (sdus - {next}).Keys == sdus.Keys - {next};
      assert |sdus.Keys - {next}| < |sdus.Keys|;
      var rest := Drain((next + 1) % 8, sdus - {next});
      rest.(delivered := [sdus[next].complete.value] + rest.delivered)
    else Drained(next, sdus, [])
  }

  datatype Reception = Reception(next: nat, sdus: map<nat, RxSdu>, ack: Option<seq<AlAckBlock>>, delivered: seq<Bits>)

  /** Everything one AL-DATA or AL-FINAL does to the receiving half of a ready link. */
  function Receive(window: nat, next: nat, sdus: map<nat, RxSdu>, pdu: AlData): Reception {
    var distance := (pdu.ns - next) % 8;
    if distance >= window then
      var behind := (next - pdu.ns) % 8;
      if 1 <= behind <= window then
        Reception(next, sdus, Some(seq(behind, offset requires 0 <= offset => Positive((pdu.ns + offset) % 8))), [])
      else
        Reception(next, sdus, None, [])
    else
      var entry := if pdu.ns in sdus then sdus[pdu.ns] else RxSdu(pdu.ns, map[], None, None);
      if entry.complete.Some? then
        Reception(next, sdus, Some(AcknowledgementBlocks(window, next, sdus, None)), [])
      else
        ReceiveSegment(window, next, sdus, Absorb(entry, pdu), pdu)
  }

  function ReceiveSegment(window: nat, next: nat, sdus: map<nat, RxSdu>, rx: RxSdu, pdu: AlData): Reception {
    if !HasAllSegments(rx) then
      var updated := sdus[pdu.ns := rx];
      var ack := if pdu.ackRequested then Some(AcknowledgementBlocks(window, next, updated, None)) else None;
      var drained := Drain(next, updated);
      Reception(drained.next, drained.sdus, ack, drained.delivered)
    else if Check(Assembled(rx)) then
      var updated := sdus[pdu.ns := rx.(complete := Some(Assembled(rx)[..|Assembled(rx)| - 32]))];
      var drained := Drain(next, updated);
      Reception(drained.next, drained.sdus, Some(AcknowledgementBlocks(window, next, updated, None)), drained.delivered)
    else
      var updated := sdus - {pdu.ns};
      var drained := Drain(next, updated);
      Reception(drained.next, drained.sdus,
                Some(AcknowledgementBlocks(window, next, updated, Some(WholeAgain(pdu.ns)))), drained.delivered)
  }

  method AssembleSegments(rx: RxSdu) returns (bits: Bits)
    requires HasAllSegments(rx)
    ensures bits == Assembled(rx)
  {
    bits := [];
    for k := 0 to rx.finalSegment.value + 1
      invariant bits == Assemble(rx.segments, k)
    {
      bits := bits + rx.segments[k];
    }
  }

  method DeliverInOrder(next0: nat, sdus0: map<nat, RxSdu>)
      returns (next: nat, sdus: map<nat, RxSdu>, delivered: seq<Bits>)
    ensures Drained(next, sdus, delivered) == Drain(next0, sdus0)
  {
    next, sdus, delivered := next0, sdus0, [];
    while true
      invariant Drain(next0, sdus0) == Drain(next, sdus).(delivered := delivered + Drain(next, sdus).delivered)
      decreases |sdus|
    {
      if next !in sdus || sdus[next].complete.None? {
        break;
      }
      assert (sdus - {next}).Keys == sdus.Keys - {next};
      assert |sdus.Keys - {next}| < |sdus.Keys|;
      delivered := delivered + [sdus[next].complete.value];
      next, sdus := (next + 1) % 8, sdus - {next};
    }
    assert Drain(next, sdus).delivered == [];
  }

  method AllThere(rx: RxSdu) returns (complete: bool)
    ensures complete == HasAllSegments(rx)
  {
    if rx.finalSegment.None? {
      return false;
    }
    for k := 0 to rx.finalSegment.value + 1
      invariant forall j: nat | j < k :: j in rx.segments
    {
      if k !in rx.segments {
        return false;
      }
    }
    complete := true;
  }

  method Blocks(window: nat, next: nat, sdus: map<nat, RxSdu>, override: Option<AlAckBlock>)
      returns (blocks: seq<AlAckBlock>)
    ensures blocks == AcknowledgementBlocks(window, next, sdus, override)
  {
    hide WindowBlock;
    blocks := [];
    for offset := 0 to window
      invariant |blocks| == offset && forall i | 0 <= i < offset :: blocks[i] == WindowBlock(next, sdus, override, i)
    {
      blocks := blocks + [WindowBlock(next, sdus, override, offset)];
    }
  }

  /** The positive blocks for a retransmission from below the window. */
  method PositiveBlocks(ns: nat, behind: nat) returns (blocks: seq<AlAckBlock>)
    ensures blocks == seq(behind, offset requires 0 <= offset => Positive((ns + offset) % 8))
  {
    blocks := [];
    for offset := 0 to behind
      invariant |blocks| == offset && forall i | 0 <= i < offset :: blocks[i] == Positive((ns + i) % 8)
    {
      blocks := blocks + [Positive((ns + offset) % 8)];
    }
  }

  /** One AL-DATA or AL-FINAL, step by step. */
  method TakeData(window: nat, next0: nat, sdus0: map<nat, RxSdu>, pdu: AlData)
      returns (next: nat, sdus: map<nat, RxSdu>, ack: Option<seq<AlAckBlock>>, delivered: seq<Bits>)
    ensures Reception(next, sdus, ack, delivered) == Receive(window, next0, sdus0, pdu)
  {
    hide Drain, AcknowledgementBlocks, Assemble, AllPresent, Check, ReceiveSegment;
    next, sdus, ack, delivered := next0, sdus0, None, [];
    if (pdu.ns - next) % 8 >= window {
      var behind := (next - pdu.ns) % 8;
      if 1 <= behind <= window {
        var blocks := PositiveBlocks(pdu.ns, behind);
        ack := Some(blocks);
      }
      return;
    }
    var rx := if pdu.ns in sdus then sdus[pdu.ns] else RxSdu(pdu.ns, map[], None, None);
    if rx.complete.Some? {
      var blocks := Blocks(window, next, sdus, None);
      ack := Some(blocks);
      return;
    }
    if pdu.segment !in rx.segments {
      rx := rx.(segments := rx.segments[pdu.segment := pdu.bits]);
    }
    if pdu.finalSegment {
      rx := rx.(finalSegment := Some(pdu.segment));
    }
    next, sdus, ack, delivered := Finish(window, next, sdus, rx, pdu);
  }

  method Finish(window: nat, next0: nat, sdus0: map<nat, RxSdu>, rx0: RxSdu, pdu: AlData)
      returns (next: nat, sdus: map<nat, RxSdu>, ack: Option<seq<AlAckBlock>>, delivered: seq<Bits>)
    ensures Reception(next, sdus, ack, delivered) == ReceiveSegment(window, next0, sdus0, rx0, pdu)
  {
    hide Drain, AcknowledgementBlocks, Assemble, AllPresent, Checksum;
    var rx := rx0;
    next, sdus := next0, sdus0[pdu.ns := rx];
    var fcsFailed := false;
    var complete := AllThere(rx);
    if complete {
      var assembled := AssembleSegments(rx);
      if Check(assembled) {
        sdus := sdus[pdu.ns := rx.(complete := Some(assembled[..|assembled| - 32]))];
      } else {
        fcsFailed := true;
        sdus := sdus - {pdu.ns};
        assert sdus == sdus0 - {pdu.ns};
      }
    }
    assert complete && !fcsFailed ==> sdus == sdus0[pdu.ns := sdus[pdu.ns]];
    ack := None;
    if complete || pdu.ackRequested {
      var blocks := Blocks(window, next, sdus, if fcsFailed then Some(WholeAgain(pdu.ns)) else None);
      ack := Some(blocks);
    }
    next, sdus, delivered := DeliverInOrder(next, sdus);
  }
}
