/** How much recovery a TL-SDU has left: every repeated offer uses some of it up. */
module Recovery {
  import opened Arithmetic
  import opened Wrappers
  import opened AlPdu
  import opened Tdma
  import opened TxReceipt
  import opened Sender
  import opened SendWindow
  import opened SendProgress

  // N.273 and N.274 are far below where the program's 8-bit counters saturate.
  predicate Countable(limits: Limits) {
    limits.sduRetransmissions < 255 && limits.segmentRetransmissions < 255
  }

  function Left(limit: nat, used: nat): nat {
    if used <= limit then limit + 1 - used else 0
  }

  function SegmentsLeft(counts: seq<nat>, limit: nat): nat {
    if counts == [] then 0 else Left(limit, counts[0]) + SegmentsLeft(counts[1..], limit)
  }

  function RepeatsLeft(sdu: TxSdu): (n: nat)
    ensures n <= MAX_ACK_REQUEST_REPEATS
  {
    if sdu.ackRepeats <= MAX_ACK_REQUEST_REPEATS then MAX_ACK_REQUEST_REPEATS - sdu.ackRepeats else 0
  }

  // The recovery events a TL-SDU has left: whole-TL-SDU and segment retransmissions, each
  // worth a full set of acknowledgement-request repeats.
  function Remaining(sdu: TxSdu, limits: Limits): nat {
    6 * (Left(limits.sduRetransmissions, sdu.retransmissions)
         + SegmentsLeft(sdu.segmentRetransmissions, limits.segmentRetransmissions))
    + RepeatsLeft(sdu)
  }

  // Not in flight, or about to be found discarded by the MAC.
  predicate Waits(sdu: TxSdu) {
    sdu.attempt.None? || sdu.attempt == Some(Discarded)
  }

  // The offers a TL-SDU can still get without another MAC discard.
  function OffersLeft(sdu: TxSdu, limits: Limits): nat {
    Remaining(sdu, limits) + if Waits(sdu) then 1 else 0
  }

  lemma {:induction false} OneSegmentLess(counts: seq<nat>, i: nat, limit: nat)
    requires i < |counts|
    ensures SegmentsLeft(counts[i := counts[i] + 1], limit) == SegmentsLeft(counts, limit) - (if counts[i] <= limit
                                                                                              then 1 else 0)
  {
    var after := counts[i := counts[i] + 1];
    if i == 0 {
      assert after[1..] == counts[1..];
    } else {
      assert after[1..] == counts[1..][i - 1 := counts[1..][i - 1] + 1];
      OneSegmentLess(counts[1..], i - 1, limit);
    }
  }

  lemma {:induction false} ChargeUses(counts: seq<nat>, missing: seq<nat>, limit: nat)
    requires limit < 255 && forall i | 0 <= i < |missing| :: missing[i] < |counts|
    ensures var charge := ChargeSegments(counts, missing, limit);
            && SegmentsLeft(charge.counts, limit) <= SegmentsLeft(counts, limit)
            && (!charge.exceeded && missing != [] ==> SegmentsLeft(charge.counts, limit) < SegmentsLeft(counts, limit))
    decreases |missing|
  {
    if missing != [] {
      var m := missing[0];
      OneSegmentLess(counts, m, limit);
      var charged := counts[m := Inc(counts[m])];
      if charged[m] <= limit {
        ChargeUses(charged, missing[1..], limit);
      } else if counts[m] >= 255 {
        ReplaceExhausted(counts, m, 255, limit);
      }
    }
  }

  lemma {:induction false} ReplaceExhausted(counts: seq<nat>, i: nat, value: nat, limit: nat)
    requires i < |counts| && counts[i] > limit && value > limit
    ensures SegmentsLeft(counts[i := value], limit) == SegmentsLeft(counts, limit)
  {
    var after := counts[i := value];
    if i == 0 {
      assert after[1..] == counts[1..];
    } else {
      assert after[1..] == counts[1..][i - 1 := value];
      ReplaceExhausted(counts[1..], i - 1, value, limit);
    }
  }

  predicate AsksForExisting(sdu: TxSdu, block: AlAckBlock) {
    block.length == 63 || (block.firstMissing.Some? && block.firstMissing.value < |sdu.segments|)
  }

  /** A report that asks for something the TL-SDU has uses up recovery. */
  lemma ReportUses(sdu: TxSdu, block: AlAckBlock, limits: Limits)
    requires SduOk(sdu) && Countable(limits) && sdu.retransmissions <= limits.sduRetransmissions
    requires AsksForExisting(sdu, block)
    ensures OffersLeft(ApplyReport(sdu, block, limits), limits) <= OffersLeft(sdu, limits)
  {
    if block.length != 63 {
      var missing := MissingSegments(block, |sdu.segments|);
      assert missing[0] == block.firstMissing.value;
      ChargeUses(sdu.segmentRetransmissions, missing, limits.segmentRetransmissions);
    }
  }

  /** Looking at a TL-SDU at the end of a tick uses up recovery whenever T.252 makes it idle. */
  lemma ObserveUses(sdu: TxSdu, now: TdmaTime, limits: Limits)
    requires SduOk(sdu) && sdu.retransmissions <= limits.sduRetransmissions
    ensures OffersLeft(Observe(sdu, now, limits).sdu, limits) <= OffersLeft(sdu, limits)
  {
    hide TdmaTime.Diff, SegmentsLeft;
  }

  lemma OfferUses(sdu: TxSdu, requestAck: bool, limits: Limits)
    requires SduOk(sdu) && !InFlight(sdu)
    ensures OffersLeft(Offer(sdu, requestAck), limits) + 1 == OffersLeft(sdu, limits)
  {
    hide SegmentsLeft;
  }

  lemma {:induction false} SegmentsLeftBound(counts: seq<nat>, limit: nat)
    ensures SegmentsLeft(counts, limit) <= |counts| * (limit + 1)
  {
    if counts != [] {
      SegmentsLeftBound(counts[1..], limit);
      assert |counts| * (limit + 1) == (|counts| - 1) * (limit + 1) + (limit + 1);
    }
  }

  // Offers of a TL-SDU of `count` segments that recovery can ever cause.
  function OfferBound(count: nat, limits: Limits): nat {
    6 * (limits.sduRetransmissions + 1 + count * (limits.segmentRetransmissions + 1)) + 6
  }

  lemma OffersAreBounded(sdu: TxSdu, limits: Limits)
    requires |sdu.segmentRetransmissions| == |sdu.segments|
    ensures OffersLeft(sdu, limits) <= OfferBound(|sdu.segments|, limits)
  {
    SegmentsLeftBound(sdu.segmentRetransmissions, limits.segmentRetransmissions);
  }

  // ----- One TL-SDU in the queue

  // What the TL-SDU numbered `id` has left, nothing once it left the queue.
  function LeftOf(tx: seq<TxSdu>, id: nat, limits: Limits): nat {
    if tx == [] then 0
    else if tx[0].receipt == id then OffersLeft(tx[0], limits)
    else LeftOf(tx[1..], id, limits)
  }

  lemma {:induction false} LeftOfAt(tx: seq<TxSdu>, id: nat, limits: Limits, i: nat)
    requires i < |tx| && tx[i].receipt == id
    requires forall a, b | 0 <= a < b < |tx| :: tx[a].receipt < tx[b].receipt
    ensures LeftOf(tx, id, limits) == OffersLeft(tx[i], limits)
  {
    hide OffersLeft;
    if i > 0 {
      LeftOfAt(tx[1..], id, limits, i - 1);
    }
  }

  lemma {:induction false} LeftOfNone(tx: seq<TxSdu>, id: nat, limits: Limits)
    requires forall a | 0 <= a < |tx| :: tx[a].receipt != id
    ensures LeftOf(tx, id, limits) == 0
  {
    if tx != [] {
      LeftOfNone(tx[1..], id, limits);
    }
  }

  // No entry of `after` has more left than the one it descends from.
  ghost predicate UsesUp(before: seq<TxSdu>, after: seq<TxSdu>, limits: Limits) {
    forall a <- after :: exists b ::
      b in before && b.receipt == a.receipt && OffersLeft(a, limits) <= OffersLeft(b, limits)
  }

  lemma UsesUpLowers(before: seq<TxSdu>, after: seq<TxSdu>, id: nat, limits: Limits, count: nat)
    requires Ordered(before, count) && Ordered(after, count) && UsesUp(before, after, limits)
    ensures LeftOf(after, id, limits) <= LeftOf(before, id, limits)
  {
    hide OffersLeft, Ordered;
    if i :| 0 <= i < |after| && after[i].receipt == id {
      assert Ordered(after, count) && Ordered(before, count);
      OrderedLeftOf(after, id, limits, count, i);
      var b :| b in before && b.receipt == after[i].receipt && OffersLeft(after[i], limits) <= OffersLeft(b, limits);
      var j :| 0 <= j < |before| && before[j] == b;
      OrderedLeftOf(before, id, limits, count, j);
    } else {
      LeftOfNone(after, id, limits);
    }
  }

  lemma OrderedLeftOf(tx: seq<TxSdu>, id: nat, limits: Limits, count: nat, i: nat)
    requires Ordered(tx, count) && i < |tx| && tx[i].receipt == id
    ensures LeftOf(tx, id, limits) == OffersLeft(tx[i], limits)
  {
    LeftOfAt(tx, id, limits, i);
  }

  lemma BlockUses(tx: seq<TxSdu>, block: AlAckBlock, limits: Limits, count: nat, low: nat, about: nat)
    requires WindowInv(tx, count, limits.window) && SentWithin(tx, low, limits.window) && RetriesLeft(tx, limits)
             && Countable(limits)
    requires block.nr == about % 8 && low <= about + 7 - limits.window && about < low + 2 * limits.window
    requires AsksForSome(tx, block, about)
    ensures WellFormed(tx) && UsesUp(tx, ApplyBlock(tx, block, limits).tx, limits)
  {
    hide OffersLeft, ApplyReport, UsesUp, ApplyBlock, WellFormed;
    AllWellFormed(tx, count, limits.window);
    var p := Find(tx, block.nr);
    if p < |tx| && WasSent(tx[p]) && !block.IsPositive() {
      Mod8Distinct(tx[p].receipt, about);
      ReportUses(tx[p], block, limits);
      ReportKeepsSdu(tx[p], block, limits);
    }
    BlockUsesUp(tx, block, limits);
  }

  // A block changes no entry but the one it names.
  lemma BlockUsesUp(tx: seq<TxSdu>, block: AlAckBlock, limits: Limits)
    requires WellFormed(tx)
    requires var p := Find(tx, block.nr);
             p < |tx| && WasSent(tx[p]) && !block.IsPositive() ==>
               var after := ApplyReport(tx[p], block, limits);
               after.receipt == tx[p].receipt && OffersLeft(after, limits) <= OffersLeft(tx[p], limits)
    ensures UsesUp(tx, ApplyBlock(tx, block, limits).tx, limits)
  {
    hide OffersLeft, ApplyReport, WasSent, UsesUp;
    var p := Find(tx, block.nr);
    if p == |tx| || !WasSent(tx[p]) {
      FewerUse(tx, tx, limits);
    } else if block.IsPositive() {
      FewerUse(tx, RemoveAt(tx, p), limits);
    } else {
      OneUses(tx, p, ApplyReport(tx[p], block, limits), limits);
    }
  }

  lemma FewerUse(before: seq<TxSdu>, after: seq<TxSdu>, limits: Limits)
    requires forall a <- after :: a in before
    ensures UsesUp(before, after, limits)
  {
    hide OffersLeft;
  }

  lemma OneUses(tx: seq<TxSdu>, p: nat, sdu: TxSdu, limits: Limits)
    requires p < |tx| && sdu.receipt == tx[p].receipt && OffersLeft(sdu, limits) <= OffersLeft(tx[p], limits)
    ensures UsesUp(tx, tx[p := sdu], limits)
  {
    hide OffersLeft;
    assert tx[p] in tx;
    forall a <- tx[p := sdu]
      ensures exists b :: b in tx && b.receipt == a.receipt && OffersLeft(a, limits) <= OffersLeft(b, limits)
    {
      assert a in tx || a == sdu;
    }
  }

  lemma UsesUpTrans(a: seq<TxSdu>, b: seq<TxSdu>, c: seq<TxSdu>, limits: Limits)
    requires UsesUp(a, b, limits) && UsesUp(b, c, limits)
    ensures UsesUp(a, c, limits)
  {
    hide OffersLeft;
    forall x <- c
      ensures exists y :: y in a && y.receipt == x.receipt && OffersLeft(x, limits) <= OffersLeft(y, limits)
    {
      var y :| y in b && y.receipt == x.receipt && OffersLeft(x, limits) <= OffersLeft(y, limits);
      var z :| z in a && z.receipt == y.receipt && OffersLeft(y, limits) <= OffersLeft(z, limits);
    }
  }

  lemma UsesUpRefl(tx: seq<TxSdu>, limits: Limits)
    ensures UsesUp(tx, tx, limits)
  {
    hide OffersLeft;
  }

  // A report whose blocks, from TL-SDU `about` on, claim only TL-SDUs in `held` and ask only
  // for segments that exist, arriving at a queue within its limits.
  ghost predicate Usable(tx: seq<TxSdu>, blocks: seq<AlAckBlock>, limits: Limits, count: nat, low: nat, about: nat,
                         held: iset<nat>) {
    && WindowInv(tx, count, limits.window) && SentWithin(tx, low, limits.window) && RetriesLeft(tx, limits)
    && (forall i | 0 <= i < |blocks| ::
          blocks[i].nr == (about + i) % 8 && (blocks[i].IsPositive() ==> about + i in held)
            && AsksForSome(tx, blocks[i], about + i))
    && low <= about + 7 - limits.window && about + |blocks| <= low + 2 * limits.window
  }

  lemma UsableHead(tx: seq<TxSdu>, blocks: seq<AlAckBlock>, limits: Limits, count: nat, low: nat, about: nat,
                   held: iset<nat>)
    requires Usable(tx, blocks, limits, count, low, about, held) && Countable(limits) && blocks != []
    ensures WellFormed(tx) && UsesUp(tx, ApplyBlock(tx, blocks[0], limits).tx, limits)
  {
    hide WindowInv, SentWithin, AsksForSome, RetriesLeft, UsesUp, ApplyBlock;
    AllWellFormed(tx, count, limits.window);
    BlockUses(tx, blocks[0], limits, count, low, about);
  }

  lemma UsableTail(tx: seq<TxSdu>, blocks: seq<AlAckBlock>, limits: Limits, count: nat, low: nat, about: nat,
                   held: iset<nat>)
    requires Usable(tx, blocks, limits, count, low, about, held) && blocks != []
    ensures WellFormed(tx)
    ensures var head := ApplyBlock(tx, blocks[0], limits);
            head.failed.None? ==> Usable(head.tx, blocks[1..], limits, count, low, about + 1, held)
  {
    hide WindowInv, SentWithin, AsksForSome, RetriesLeft, ApplyBlock, Queued, Front;
    AllWellFormed(tx, count, limits.window);
    BlockKeeps(tx, blocks[0], limits, count, low, about, held);
    OneBlockRetries(tx, blocks[0], limits);
    var head := ApplyBlock(tx, blocks[0], limits);
    if head.failed.None? {
      forall i | 0 <= i < |blocks[1..]|
        ensures AsksForSome(head.tx, blocks[1..][i], about + 1 + i) && blocks[1..][i] == blocks[i + 1]
      {
        AsksInSubQueue(tx, head.tx, blocks[i + 1], about + 1 + i);
      }
    }
  }

  lemma AsksInSubQueue(tx: seq<TxSdu>, after: seq<TxSdu>, block: AlAckBlock, about: nat)
    requires SubQueue(tx, after) && AsksForSome(tx, block, about)
    ensures AsksForSome(after, block, about)
  {
    forall i | 0 <= i < |after| && after[i].receipt == about
      ensures exists j :: 0 <= j < |tx| && tx[j].receipt == about && tx[j].segments == after[i].segments
    {
      assert after[i] in after;
    }
  }

  lemma {:induction false} BlocksUse(tx: seq<TxSdu>, blocks: seq<AlAckBlock>, limits: Limits, count: nat, low: nat,
                                     about: nat, held: iset<nat>)
    requires Usable(tx, blocks, limits, count, low, about, held) && Countable(limits)
    ensures WellFormed(tx) && UsesUp(tx, ApplyBlocks(tx, blocks, limits).tx, limits)
    decreases |blocks|
  {
    hide Usable, UsesUp, ApplyBlock;
    UsableIsWellFormed(tx, blocks, limits, count, low, about, held);
    if blocks == [] {
      UsesUpRefl(tx, limits);
    } else {
      UsableHead(tx, blocks, limits, count, low, about, held);
      UsableTail(tx, blocks, limits, count, low, about, held);
      var head := ApplyBlock(tx, blocks[0], limits);
      if head.failed.None? {
        BlocksUse(head.tx, blocks[1..], limits, count, low, about + 1, held);
        UsesUpTrans(tx, head.tx, ApplyBlocks(tx, blocks, limits).tx, limits);
      }
    }
  }

  lemma UsableIsWellFormed(tx: seq<TxSdu>, blocks: seq<AlAckBlock>, limits: Limits, count: nat, low: nat, about: nat,
                           held: iset<nat>)
    requires Usable(tx, blocks, limits, count, low, about, held)
    ensures WellFormed(tx)
  {
    hide WindowInv, AsksForSome;
    AllWellFormed(tx, count, limits.window);
  }

  lemma OneBlockRetries(tx: seq<TxSdu>, block: AlAckBlock, limits: Limits)
    requires WellFormed(tx) && RetriesLeft(tx, limits)
    ensures ApplyBlock(tx, block, limits).failed.Some? || RetriesLeft(ApplyBlock(tx, block, limits).tx, limits)
  {
    hide WasSent, ApplyReport;
  }

  /** An acknowledgement that asks only for existing segments uses up recovery. */
  lemma AckUses(tx: seq<TxSdu>, blocks: seq<AlAckBlock>, limits: Limits, count: nat, base: nat, held: iset<nat>)
    requires WindowInv(tx, count, limits.window) && RetriesLeft(tx, limits) && Countable(limits)
    requires 1 <= |blocks| <= limits.window && Sound(blocks, base, held)
    requires Front(tx, count) <= base + 7 - limits.window && base <= Front(tx, count) + limits.window
    requires forall i | 0 <= i < |blocks| :: AsksForSome(tx, blocks[i], base + i)
    ensures WellFormed(tx) && UsesUp(tx, ApplyAck(tx, blocks, limits).tx, limits)
  {
    AllWellFormed(tx, count, limits.window);
    PassedKeeps(tx, blocks, limits, count, base, held);
    var rest := tx[Passed(tx, blocks, limits)..];
    var low := Front(tx, count);
    TailUses(tx, Passed(tx, blocks, limits), limits);
    hide WindowInv, SentWithin, WasSent, Passed, UsesUp, OffersLeft, Front;
    BlocksUse(rest, blocks, limits, count, low, base, held);
    UsesUpTrans(tx, rest, ApplyAck(tx, blocks, limits).tx, limits);
  }

  lemma TailUses(tx: seq<TxSdu>, n: nat, limits: Limits)
    requires n <= |tx|
    ensures UsesUp(tx, tx[n..], limits)
  {
    hide OffersLeft;
    forall a <- tx[n..]
      ensures a in tx
    {
      var i :| 0 <= i < |tx[n..]| && tx[n..][i] == a;
      assert tx[n + i] == a;
    }
  }

  lemma ObserveAllUses(tx: seq<TxSdu>, now: TdmaTime, limits: Limits)
    requires AllOk(tx) && RetriesLeft(tx, limits)
    ensures UsesUp(tx, ObserveAll(tx, now, limits).tx, limits)
  {
    var after := ObserveAll(tx, now, limits).tx;
    ObserveAllPointwise(tx, now, limits);
    forall i | 0 <= i < |tx|
      ensures after[i].receipt == tx[i].receipt && OffersLeft(after[i], limits) <= OffersLeft(tx[i], limits)
    {
      ObserveUses(tx[i], now, limits);
      ObserveKeepsSdu(tx[i], now, limits);
    }
    hide OffersLeft, ObserveAll;
    forall a <- after
      ensures exists b :: b in tx && b.receipt == a.receipt && OffersLeft(a, limits) <= OffersLeft(b, limits)
    {
      var i :| 0 <= i < |after| && after[i] == a;
      assert tx[i] in tx;
    }
  }

  ghost predicate Picks(tx: seq<TxSdu>, picked: seq<nat>, id: nat)
    requires forall a | 0 <= a < |picked| :: picked[a] < |tx|
  {
    exists a :: 0 <= a < |picked| && tx[picked[a]].receipt == id
  }

  lemma PicksItsPosition(tx: seq<TxSdu>, picked: seq<nat>, count: nat, i: nat)
    requires Ordered(tx, count) && i < |tx| && forall a | 0 <= a < |picked| :: picked[a] < |tx|
    ensures Picks(tx, picked, tx[i].receipt) <==> i in picked
  {
    if a :| 0 <= a < |picked| && tx[picked[a]].receipt == tx[i].receipt {
      OnePosition(tx, count, i, picked[a]);
    }
  }

  /** Offering uses up one offer of every TL-SDU it picks, and nothing of the others. */
  lemma OfferAllUses(tx: seq<TxSdu>, picked: seq<nat>, limits: Limits, count: nat, id: nat)
    requires Ordered(tx, count) && Ordered(OfferAll(tx, picked), count) && AllOk(tx)
    requires forall a | 0 <= a < |picked| :: picked[a] < |tx| && !InFlight(tx[picked[a]])
    ensures LeftOf(OfferAll(tx, picked), id, limits) + (if Picks(tx, picked, id) then 1 else 0)
            <= LeftOf(tx, id, limits)
  {
    var after := OfferAll(tx, picked);
    hide OffersLeft, SduOk;
    if i :| 0 <= i < |tx| && tx[i].receipt == id {
      PicksItsPosition(tx, picked, count, i);
      assert after[i] == if i in picked then Offer(tx[i], i == picked[|picked| - 1]) else tx[i];
      OrderedLeftOf(tx, id, limits, count, i);
      OrderedLeftOf(after, id, limits, count, i);
      if i in picked {
        OfferUses(tx[i], i == picked[|picked| - 1], limits);
      }
    } else {
      LeftOfNone(after, id, limits);
    }
  }

  lemma OnePosition(tx: seq<TxSdu>, count: nat, i: nat, j: nat)
    requires Ordered(tx, count) && i < |tx| && j < |tx| && tx[i].receipt == tx[j].receipt
    ensures i == j
  {
  }
}
