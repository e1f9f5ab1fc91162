/** The loops of the sending half, each computing the function that specifies it. */
module SenderLoops {
  import opened Wrappers
  import opened AlPdu
  import opened Tdma
  import opened Sender
  import opened AdvancedLink

  /** Pop the entries at the front that the peer's receive window has passed. */
  method RetirePassed(tx0: seq<TxSdu>, base: nat, window: nat) returns (tx: seq<TxSdu>, retired: seq<TxSdu>)
    ensures retired == tx0[..PassedCount(tx0, base, window)]
    ensures tx == tx0[PassedCount(tx0, base, window)..]
  {
    tx, retired := tx0, [];
    ghost var n := 0;
    while true
      invariant n <= |tx0| && tx == tx0[n..] && retired == tx0[..n]
      invariant PassedCount(tx0, base, window) == n + PassedCount(tx, base, window)
      decreases |tx|
    {
      if tx == [] || tx[0].ns == base {
        break;
      }
      var advance := (base - tx[0].ns) % 8;
      if advance == 0 || advance > window || !WasSent(tx[0]) {
        break;
      }
      tx, retired, n := tx[1..], retired + [tx[0]], n + 1;
    }
  }

  method Position(tx: seq<TxSdu>, ns: nat) returns (position: nat)
    ensures position == Find(tx, ns)
  {
    position := 0;
    while position < |tx| && tx[position].ns != ns
      invariant position <= |tx|
      invariant Find(tx, ns) == position + Find(tx[position..], ns)
    {
      position := position + 1;
    }
  }

  method NamedSegments(first: nat, bitmap: seq<bool>) returns (named: seq<nat>)
    ensures named == [first] + Gaps(first + 1, bitmap)
  {
    named := [first];
    for offset := 0 to |bitmap|
      invariant [first] + Gaps(first + 1, bitmap) == named + Gaps(first + 1 + offset, bitmap[offset..])
    {
      assert bitmap[offset..][0] == bitmap[offset] && bitmap[offset..][1..] == bitmap[offset + 1..];
      if !bitmap[offset] {
        named := named + [first + offset + 1];
      }
    }
  }

  lemma RetainNone(count: nat)
    ensures Retain([], count) == []
  {
  }

  lemma RetainFirst(named: seq<nat>, i: nat, count: nat)
    requires i < |named|
    ensures Retain(named[i..], count) == (if named[i] < count then [named[i]] else []) + Retain(named[i + 1..], count)
  {
    assert named[i..][0] == named[i] && named[i..][1..] == named[i + 1..];
  }

  method RetainExisting(named: seq<nat>, count: nat) returns (missing: seq<nat>)
    ensures missing == Retain(named, count)
  {
    hide Retain;
    missing := [];
    RetainNone(count);
    assert named[0..] == named;
    for i := 0 to |named|
      invariant Retain(named, count) == missing + Retain(named[i..], count)
    {
      RetainFirst(named, i, count);
      if named[i] < count {
        missing := missing + [named[i]];
      }
    }
    assert named[|named|..] == [];
  }

  /** The existing segments a partial block asks for, in the order it names them. */
  method ListMissing(block: AlAckBlock, count: nat) returns (missing: seq<nat>)
    requires block.firstMissing.Some?
    ensures missing == MissingSegments(block, count)
  {
    var named := NamedSegments(block.firstMissing.value, block.bitmap);
    missing := RetainExisting(named, count);
  }

  /** Count one more retransmission of each listed segment until one is over its limit. */
  method ChargeEach(counts0: seq<nat>, missing: seq<nat>, limit: nat) returns (counts: seq<nat>, exceeded: bool)
    requires forall i | 0 <= i < |missing| :: missing[i] < |counts0|
    ensures Charge(counts, exceeded) == ChargeSegments(counts0, missing, limit)
  {
    counts, exceeded := counts0, false;
    for i := 0 to |missing|
      invariant |counts| == |counts0| && !exceeded
      invariant ChargeSegments(counts0, missing, limit) == ChargeSegments(counts, missing[i..], limit)
    {
      assert missing[i..][1..] == missing[i + 1..];
      counts := counts[missing[i] := Inc(counts[missing[i]])];
      if counts[missing[i]] > limit {
        exceeded := true;
        return;
      }
    }
  }

  /** Take over a block that asks for retransmission, field by field. */
  method TakeBlock(sdu0: TxSdu, block: AlAckBlock, limits: Limits) returns (sdu: TxSdu)
    requires |sdu0.segmentRetransmissions| == |sdu0.segments|
    ensures sdu == ApplyReport(sdu0, block, limits)
  {
    sdu := sdu0.(ackRepeats := 0, ackRequested := false);
    if block.length == 63 {
      sdu := sdu.(retransmissions := Inc(sdu.retransmissions), pending := None);
    } else if block.firstMissing.Some? {
      var missing := ListMissing(block, |sdu.segments|);
      var counts, exceeded := ChargeEach(sdu.segmentRetransmissions, missing, limits.segmentRetransmissions);
      sdu := sdu.(segmentRetransmissions := counts);
      if exceeded {
        sdu := sdu.(retransmissions := Inc(sdu.retransmissions), pending := None);
      } else if missing != [] {
        sdu := sdu.(pending := Some(missing));
      }
    }
    if sdu.reporter.Transmitted? {
      sdu := sdu.(reporter := sdu.reporter.Reset());
    }
    sdu := sdu.(sentAt := None, attempt := None);
  }

  function After(acked: seq<TxSdu>, rest: Acked): Acked {
    rest.(acked := acked + rest.acked)
  }

  lemma NextBlock(acked: seq<TxSdu>, tx: seq<TxSdu>, blocks: seq<AlAckBlock>, b: nat, limits: Limits)
    requires WellFormed(tx) && b < |blocks|
    ensures var head := ApplyBlock(tx, blocks[b], limits);
            After(acked, ApplyBlocks(tx, blocks[b..], limits)) ==
            if head.failed.Some? then After(acked, head)
              else After(acked + head.acked, ApplyBlocks(head.tx, blocks[b + 1..], limits))
  {
    hide ApplyBlock;
    assert blocks[b..][0] == blocks[b] && blocks[b..][1..] == blocks[b + 1..];
    var head := ApplyBlock(tx, blocks[b], limits);
    if head.failed.None? {
      var rest := ApplyBlocks(head.tx, blocks[b + 1..], limits);
      assert acked + (head.acked + rest.acked) == (acked + head.acked) + rest.acked;
    }
  }

  /** One block of an acknowledgement. */
  method TakeOne(tx0: seq<TxSdu>, block: AlAckBlock, limits: Limits)
      returns (tx: seq<TxSdu>, acked: seq<TxSdu>, failed: Option<nat>)
    requires WellFormed(tx0)
    ensures Acked(tx, acked, failed) == ApplyBlock(tx0, block, limits)
  {
    hide ApplyReport, WasSent;
    tx, acked, failed := tx0, [], None;
    var position := Position(tx, block.nr);
    if position == |tx| || !WasSent(tx[position]) {
      return;
    }
    if block.IsPositive() {
      tx, acked := RemoveAt(tx, position), [tx[position]];
      return;
    }
    var sdu := TakeBlock(tx[position], block, limits);
    tx := tx[position := sdu];
    if sdu.retransmissions > limits.sduRetransmissions {
      failed := Some(sdu.ns);
    }
  }

  /** Work through the blocks of an acknowledgement. */
  method TakeBlocks(tx0: seq<TxSdu>, blocks: seq<AlAckBlock>, limits: Limits)
      returns (tx: seq<TxSdu>, acked: seq<TxSdu>, failed: Option<nat>)
    requires WellFormed(tx0)
    ensures Acked(tx, acked, failed) == ApplyBlocks(tx0, blocks, limits)
  {
    tx, acked, failed := tx0, [], None;
    assert blocks[0..] == blocks;
    for b := 0 to |blocks|
      invariant WellFormed(tx) && failed.None?
      invariant ApplyBlocks(tx0, blocks, limits) == After(acked, ApplyBlocks(tx, blocks[b..], limits))
    {
      hide ApplyBlocks, ApplyBlock;
      NextBlock(acked, tx, blocks, b, limits);
      var done;
      tx, done, failed := TakeOne(tx, blocks[b], limits);
      acked := acked + done;
      if failed.Some? {
        return;
      }
    }
  }

  method IsCompleteWindowReport(blocks: seq<AlAckBlock>, window: nat) returns (complete: bool)
    ensures complete == IsWindowReport(blocks, window)
  {
    if |blocks| != window {
      return false;
    }
    var i := 0;
    while i + 1 < |blocks|
      invariant i == 0 || i < |blocks|
      invariant forall j | 0 <= j < i :: blocks[j + 1].nr == (blocks[j].nr + 1) % 8
    {
      if blocks[i + 1].nr != (blocks[i].nr + 1) % 8 {
        return false;
      }
      i := i + 1;
    }
    complete := true;
  }

  /** An AL-ACK or AL-RNR on a link that is not resetting. */
  method TakeAck(tx0: seq<TxSdu>, blocks: seq<AlAckBlock>, limits: Limits)
      returns (tx: seq<TxSdu>, acked: seq<TxSdu>, failed: Option<nat>)
    requires WellFormed(tx0) && blocks != []
    ensures Acked(tx, acked, failed) == ApplyAck(tx0, blocks, limits)
  {
    hide ApplyBlocks, PassedCount;
    tx := tx0;
    var retired := [];
    var complete := IsCompleteWindowReport(blocks, limits.window);
    if complete {
      tx, retired := RetirePassed(tx, blocks[0].nr, limits.window);
    }
    tx, acked, failed := TakeBlocks(tx, blocks, limits);
    assert tx0[0..] == tx0;
    acked := retired + acked;
  }

  function Behind(tx: seq<TxSdu>, rest: ObservedAll): ObservedAll {
    rest.(tx := tx + rest.tx)
  }

  lemma NextObserved(seen: seq<TxSdu>, tx: seq<TxSdu>, i: nat, now: TdmaTime, limits: Limits)
    requires i < |tx|
    ensures var head := Observe(tx[i], now, limits);
            Behind(seen, ObserveAll(tx[i..], now, limits)) ==
            if head.failed then ObservedAll(seen + [head.sdu] + tx[i + 1..], Some(head.sdu.ns))
            else Behind(seen + [head.sdu], ObserveAll(tx[i + 1..], now, limits))
  {
    hide Observe;
    assert tx[i..][0] == tx[i] && tx[i..][1..] == tx[i + 1..];
    var head, rest := Observe(tx[i], now, limits), ObserveAll(tx[i + 1..], now, limits);
    assert seen + ([head.sdu] + rest.tx) == seen + [head.sdu] + rest.tx;
    assert seen + ([head.sdu] + tx[i + 1..]) == seen + [head.sdu] + tx[i + 1..];
  }

  /** Look at every queued TL-SDU in turn; stop at the first that is exhausted. */
  method ObserveQueue(tx0: seq<TxSdu>, now: TdmaTime, limits: Limits) returns (tx: seq<TxSdu>, failed: Option<nat>)
    ensures ObservedAll(tx, failed) == ObserveAll(tx0, now, limits)
  {
    tx, failed := [], None;
    assert tx0[0..] == tx0;
    for i := 0 to |tx0|
      invariant failed.None?
      invariant ObserveAll(tx0, now, limits) == Behind(tx, ObserveAll(tx0[i..], now, limits))
    {
      hide Observe, ObserveAll;
      NextObserved(tx, tx0, i, now, limits);
      var sdu := ObserveOne(tx0[i], now, limits);
      if sdu.failed {
        tx, failed := tx + [sdu.sdu] + tx0[i + 1..], Some(sdu.sdu.ns);
        return;
      }
      tx := tx + [sdu.sdu];
    }
  }

  /** One TL-SDU at the end of a tick, field by field. */
  method ObserveOne(sdu0: TxSdu, now: TdmaTime, limits: Limits) returns (r: Observed)
    ensures r == Observe(sdu0, now, limits)
  {
    hide TdmaTime.Diff;
    var sdu := sdu0;
    if sdu.attempt.Some? {
      match sdu.attempt.value
      case Transmitted | Acknowledged =>
        if sdu.reporter.Pending? {
          sdu := sdu.(reporter := sdu.reporter.MarkTransmitted());
        }
        if sdu.ackRequested && sdu.sentAt.None? {
          sdu := sdu.(sentAt := Some(now));
        }
      case Discarded | Lost =>
        sdu := sdu.(attempt := None, ackRequested := false, sentAt := None);
      case Pending =>
    }
    if sdu.sentAt.None? || now.Diff(sdu.sentAt.value) < T252_ACK_WAITING {
      return Observed(sdu, false);
    }
    if sdu.ackRepeats >= MAX_ACK_REQUEST_REPEATS && sdu.retransmissions >= limits.sduRetransmissions {
      return Observed(sdu, true);
    }
    if sdu.ackRepeats < MAX_ACK_REQUEST_REPEATS {
      sdu := sdu.(ackRepeats := sdu.ackRepeats + 1,
                  pending := Some([if |sdu.segments| == 0 then 0 else |sdu.segments| - 1]));
    } else {
      sdu := sdu.(retransmissions := sdu.retransmissions + 1, ackRepeats := 0, pending := None);
    }
    if sdu.reporter.Transmitted? {
      sdu := sdu.(reporter := sdu.reporter.Reset());
    }
    r := Observed(sdu.(attempt := None, ackRequested := false, sentAt := None), false);
  }

  method CountInFlight(tx: seq<TxSdu>) returns (count: nat)
    ensures count == InFlightCount(tx)
  {
    hide InFlight;
    count := 0;
    for i := 0 to |tx|
      invariant InFlightCount(tx) == count + InFlightCount(tx[i..])
    {
      assert tx[i..][0] == tx[i] && tx[i..][1..] == tx[i + 1..];
      if InFlight(tx[i]) {
        count := count + 1;
      }
    }
  }

  method AnyRequest(tx: seq<TxSdu>) returns (any: bool)
    ensures any <==> exists i :: 0 <= i < |tx| && tx[i].ackRequested
  {
    for i := 0 to |tx|
      invariant forall j | 0 <= j < i :: !tx[j].ackRequested
    {
      if tx[i].ackRequested {
        return true;
      }
    }
    any := false;
  }

  method TakeFirst(tx: seq<TxSdu>, available: nat, limits: Limits, notReady: bool) returns (picked: seq<nat>)
    ensures picked == Pick(tx, 0, available, limits, notReady)
  {
    hide Offerable;
    picked := [];
    for i := 0 to |tx|
      invariant |picked| <= available
      invariant Pick(tx, 0, available, limits, notReady) == picked + Pick(tx, i, available - |picked|, limits, notReady)
    {
      if |picked| < available && Offerable(tx, i, limits, notReady) {
        picked := picked + [i];
      }
    }
  }

  /** The positions to offer this turn, in queue order, at most as many as the window has room for. */
  method Select(tx: seq<TxSdu>, limits: Limits, notReady: bool) returns (picked: seq<nat>)
    ensures picked == Selected(tx, limits, notReady)
  {
    hide Offerable, InFlight, Pick, InFlightCount;
    var requested := AnyRequest(tx);
    if requested || tx == [] {
      return [];
    }
    var inFlight := CountInFlight(tx);
    picked := TakeFirst(tx, if inFlight < limits.window then limits.window - inFlight else 0, limits, notReady);
  }

  // The queue after the first `a` of the selected positions have been offered.
  ghost predicate OfferedUpTo(tx0: seq<TxSdu>, tx: seq<TxSdu>, picked: seq<nat>, a: nat)
    requires a <= |picked|
  {
    && |tx| == |tx0|
    && forall i | 0 <= i < |tx| :: tx[i] == if i in picked[..a]
       then Offer(tx0[i], i == picked[|picked| - 1]) else tx0[i]
  }

  lemma OfferedOneMore(tx0: seq<TxSdu>, tx: seq<TxSdu>, picked: seq<nat>, a: nat)
    requires a < |picked| && picked[a] < |tx0| && OfferedUpTo(tx0, tx, picked, a)
    requires forall a, b | 0 <= a < b < |picked| :: picked[a] < picked[b]
    ensures tx[picked[a]] == tx0[picked[a]]
    ensures OfferedUpTo(tx0, tx[picked[a] := Offer(tx0[picked[a]], a + 1 == |picked|)], picked, a + 1)
  {
    hide Offer;
    var i := picked[a];
    assert i !in picked[..a] && picked[..a + 1] == picked[..a] + [i];
    assert a + 1 == |picked| <==> i == picked[|picked| - 1];
  }

  lemma OfferedThemAll(tx0: seq<TxSdu>, tx: seq<TxSdu>, picked: seq<nat>)
    requires OfferedUpTo(tx0, tx, picked, |picked|)
    ensures tx == OfferAll(tx0, picked)
  {
    hide Offer;
    assert picked[..|picked|] == picked;
  }

  /** Hand the selected TL-SDUs to the MAC; the last segment of the last one asks for the acknowledgement. */
  method OfferSelected(tx0: seq<TxSdu>, picked: seq<nat>) returns (tx: seq<TxSdu>, offered: seq<Offering>)
    requires forall a | 0 <= a < |picked| :: picked[a] < |tx0| && SegmentsExist(tx0[picked[a]])
    requires forall a, b | 0 <= a < b < |picked| :: picked[a] < picked[b]
    ensures tx == OfferAll(tx0, picked) && offered == Offerings(tx0, picked)
  {
    hide Offer, OfferPdus, SegmentsExist;
    tx, offered := tx0, [];
    assert OfferedUpTo(tx0, tx, picked, 0);
    hide OfferedUpTo, OfferAll;
    for a := 0 to |picked|
      invariant OfferedUpTo(tx0, tx, picked, a) && |offered| == a
      invariant |tx| == |tx0| && forall b | 0 <= b < a ::
                  offered[b] == Offering(picked[b], OfferPdus(tx0[picked[b]], b + 1 == |picked|))
    {
      OfferedOneMore(tx0, tx, picked, a);
      var pdus := OfferOne(tx[picked[a]], a + 1 == |picked|);
      offered := offered + [Offering(picked[a], pdus)];
      tx := tx[picked[a] := Offer(tx[picked[a]], a + 1 == |picked|)];
    }
    OfferedThemAll(tx0, tx, picked);
  }

  method OfferOne(sdu: TxSdu, requestAck: bool) returns (pdus: seq<AlData>)
    requires SegmentsExist(sdu)
    ensures pdus == OfferPdus(sdu, requestAck)
  {
    hide SegmentPdu;
    var numbers := OfferedSegments(sdu);
    pdus := [];
    for i := 0 to |numbers|
      invariant |pdus| == i && forall j | 0 <= j < i ::
                  pdus[j] == SegmentPdu(sdu, numbers[j], requestAck && j + 1 == |numbers|)
    {
      pdus := pdus + [SegmentPdu(sdu, numbers[i], requestAck && i + 1 == |numbers|)];
    }
  }

  /** Split the queue at an in-place reset: what was never offered stays, renumbered from 0. */
  method SplitForReset(tx: seq<TxSdu>, failedNs: nat) returns (kept: seq<TxSdu>, lost: seq<TxSdu>)
    ensures kept == Retained(tx, 0, Find(tx, failedNs), 0)
    ensures lost == Abandoned(tx, 0, Find(tx, failedNs))
  {
    hide NeverOffered;
    var failed := Position(tx, failedNs);
    kept, lost := [], [];
    for i := 0 to |tx|
      invariant Retained(tx, 0, failed, 0) == kept + Retained(tx, i, failed, |kept|)
      invariant Abandoned(tx, 0, failed) == lost + Abandoned(tx, i, failed)
    {
      if i != failed && NeverOffered(tx[i]) {
        kept := kept + [tx[i].(ns := |kept| % 8)];
      } else {
        lost := lost + [tx[i]];
      }
    }
  }
}
