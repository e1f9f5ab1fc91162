/** One advanced link: the parameters negotiated for it and both of its halves. */
module AdvancedLink {
  import opened Wrappers
  import opened Fcs
  import opened AlPdu
  import opened Tdma
  import opened TxReceipt
  import opened Sender
  import Receiver
  import Segmentation

  datatype Reset = Reset(attempt: TxState, sentAt: Option<TdmaTime>, retries: nat)

  datatype Link = Link(
    maximumSdu: nat,
    slots: nat,
    limits: Limits,
    nextTxNs: nat,
    nextRxNs: nat,
    receiverReady: bool,
    notReadySince: Option<TdmaTime>,
    ready: bool,
    setupStartedAt: Option<TdmaTime>,
    rxSdus: map<nat, Receiver.RxSdu>,
    tx: seq<TxSdu>,
    reset: Option<Reset>)

  function NewLink(maximumSdu: nat, slots: nat, limits: Limits, awaitingSuccess: bool, now: TdmaTime): Link {
    Link(maximumSdu, slots, limits, 0, 0, true, None, !awaitingSuccess,
         if awaitingSuccess then Some(now) else None, map[], [], None)
  }

  /** Append a TL-SDU with the next N(S); the caller checked that the queue has room. */
  function Enqueue(link: Link, receipt: nat, reporter: TxState, sdu: Bits): Link {
    link.(tx := link.tx + [NewSdu(receipt, link.nextTxNs, reporter, Segmentation.Segments(sdu))],
          nextTxNs := (link.nextTxNs + 1) % 8)
  }

  datatype AckOutcome = AckOutcome(link: Link, acked: seq<TxSdu>, failed: Option<nat>)

  function HandleAck(link: Link, ack: AlAck, now: TdmaTime): AckOutcome
    requires WellFormed(link.tx) && ack.blocks != []
  {
    if link.reset.Some? then AckOutcome(link, [], None)
    else
      var r := ApplyAck(link.tx, ack.blocks, link.limits);
      AckOutcome(link.(tx := r.tx, receiverReady := ack.receiverReady,
                       notReadySince := if ack.receiverReady then None else Some(now)),
                 r.acked, r.failed)
  }

  datatype DataOutcome = DataOutcome(link: Link, ack: Option<seq<AlAckBlock>>, delivered: seq<Bits>)

  function HandleData(link: Link, pdu: AlData): DataOutcome {
    if link.reset.Some? then DataOutcome(link, None, [])
    else
      var r := Receiver.Receive(link.limits.window, link.nextRxNs, link.rxSdus, pdu);
      DataOutcome(link.(nextRxNs := r.next, rxSdus := r.sdus), r.ack, r.delivered)
  }

  /** The MAC marks the shared reporter of the attempt at position `i`. */
  function MacReport(link: Link, i: nat, state: TxState): Link
    requires i < |link.tx|
  {
    link.(tx := link.tx[i := link.tx[i].(attempt := Some(state))])
  }

  // Whether a peer that reported not ready still holds back new TL-SDUs, and how the
  // flow-control fields stand after looking. `None` leaves the link alone this time.
  function FlowControl(link: Link, now: TdmaTime): Option<Link> {
    if link.receiverReady then Some(link)
    else if link.notReadySince.Some? && now.Diff(link.notReadySince.value) >= T271_RECEIVER_NOT_READY then
      Some(link.(receiverReady := true, notReadySince := None))
    else if link.notReadySince.None? then None
    else Some(link)
  }

  datatype Offering = Offering(position: nat, pdus: seq<AlData>)

  datatype Submission = Submission(link: Link, offered: seq<Offering>, failed: Option<nat>)

  function Offerings(tx: seq<TxSdu>, picked: seq<nat>): (offered: seq<Offering>)
    requires forall a | 0 <= a < |picked| :: picked[a] < |tx| && SegmentsExist(tx[picked[a]])
    ensures |offered| == |picked| && forall a | 0 <= a < |picked| :: offered[a].position == picked[a]
  {
    seq(|picked|, a requires 0 <= a < |picked| =>
      Offering(picked[a], OfferPdus(tx[picked[a]], a + 1 == |picked|)))
  }

  predicate AllSegmentsExist(tx: seq<TxSdu>) {
    forall i | 0 <= i < |tx| :: |tx[i].segments| >= 1 && SegmentsExist(tx[i])
  }

  lemma ObserveOneKeepsSegmentsExist(sdu: TxSdu, now: TdmaTime, limits: Limits)
    requires |sdu.segments| >= 1 && SegmentsExist(sdu)
    ensures |Observe(sdu, now, limits).sdu.segments| >= 1 && SegmentsExist(Observe(sdu, now, limits).sdu)
  {
    var after := Observe(sdu, now, limits).sdu;
    assert after.segments == sdu.segments;
    if after.pending == sdu.pending {
      assert OfferedSegments(after) == OfferedSegments(sdu);
    }
  }

  lemma ObserveKeepsSegmentsExist(tx: seq<TxSdu>, now: TdmaTime, limits: Limits)
    requires AllSegmentsExist(tx)
    ensures AllSegmentsExist(ObserveAll(tx, now, limits).tx)
  {
    if tx != [] {
      ObserveOneKeepsSegmentsExist(tx[0], now, limits);
      ObserveKeepsSegmentsExist(tx[1..], now, limits);
    }
  }

  /** One end-of-tick turn of a link that is ready and not resetting. */
  function Submit(link: Link, now: TdmaTime, routeLive: bool): Submission
    requires AllSegmentsExist(link.tx)
  {
    var observed := ObserveAll(link.tx, now, link.limits);
    var seen := link.(tx := observed.tx);
    if observed.failed.Some? then Submission(seen, [], observed.failed)
    else
      match FlowControl(seen, now)
      case None => Submission(seen, [], None)
      case Some(open) =>
        if !routeLive then Submission(open, [], None)
        else
          var picked := Selected(open.tx, open.limits, !open.receiverReady);
          ObserveKeepsSegmentsExist(link.tx, now, link.limits);
          Submission(open.(tx := OfferAll(open.tx, picked)), Offerings(open.tx, picked), None)
  }

  // ----- In-place reset

  predicate Keeps(tx: seq<TxSdu>, i: nat, failed: nat)
    requires i < |tx|
  {
    i != failed && NeverOffered(tx[i])
  }

  /** The TL-SDUs a reset keeps from position `i` on, renumbered in their old order. */
  function Retained(tx: seq<TxSdu>, i: nat, failed: nat, kept: nat): seq<TxSdu>
    requires i <= |tx|
    decreases |tx| - i
  {
    if i == |tx| then []
    else if Keeps(tx, i, failed) then [tx[i].(ns := kept % 8)] + Retained(tx, i + 1, failed, kept + 1)
    else Retained(tx, i + 1, failed, kept)
  }

  /** The TL-SDUs a reset gives up from position `i` on, in their old order. */
  function Abandoned(tx: seq<TxSdu>, i: nat, failed: nat): seq<TxSdu>
    requires i <= |tx|
    decreases |tx| - i
  {
    if i == |tx| then []
    else if Keeps(tx, i, failed) then Abandoned(tx, i + 1, failed)
    else [tx[i]] + Abandoned(tx, i + 1, failed)
  }

  /** Begin an in-place AL-SETUP reset; a link that is already resetting stays as it is. */
  function BeginReset(link: Link, failedNs: nat): Link {
    if link.reset.Some? then link
    else
      var kept := Retained(link.tx, 0, Find(link.tx, failedNs), 0);
      link.(tx := kept, nextTxNs := |kept| % 8, nextRxNs := 0, rxSdus := map[], receiverReady := false,
            notReadySince := None, ready := false, setupStartedAt := None, reset := Some(Reset(Pending, None, 0)))
  }

  function LostToReset(link: Link, failedNs: nat): seq<TxSdu> {
    if link.reset.Some? then [] else Abandoned(link.tx, 0, Find(link.tx, failedNs))
  }
}
