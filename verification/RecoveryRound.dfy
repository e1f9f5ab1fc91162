/**
 One round of recovery through the sender: what the receiver's block names is what the next offer
 of that TL-SDU carries, and the receiver then lacks less.
 */
module RecoveryRound {
  import opened Wrappers
  import opened AlPdu
  import opened Tdma
  import opened Segmentation
  import opened Receiver
  import opened Reassembly
  import opened Sender
  import opened AdvancedLink
  import opened SendWindow
  import opened SendProgress
  import opened ArqSteps
  import opened Offers
  import C = Conservation

  // ----- Charging the segments a block names

  ghost predicate Rising(numbers: seq<nat>) {
    forall i, j | 0 <= i < j < |numbers| :: numbers[i] < numbers[j]
  }

  lemma {:induction false} GapsRise(first: nat, bitmap: seq<bool>)
    ensures Rising(Gaps(first, bitmap)) && forall k <- Gaps(first, bitmap) :: k >= first
    decreases |bitmap|
  {
    if bitmap != [] {
      GapsRise(first + 1, bitmap[1..]);
      RisesFrom(first, Gaps(first + 1, bitmap[1..]));
    }
  }

  lemma RisesFrom(first: nat, rest: seq<nat>)
    requires Rising(rest) && forall k <- rest :: k > first
    ensures Rising([first] + rest)
  {
    var numbers := [first] + rest;
    forall i, j | 0 <= i < j < |numbers|
      ensures numbers[i] < numbers[j]
    {
      assert numbers[j] == rest[j - 1] && rest[j - 1] in rest;
    }
  }

  lemma {:induction false} RetainRises(numbers: seq<nat>, count: nat)
    requires Rising(numbers)
    ensures Rising(Retain(numbers, count)) && forall k <- Retain(numbers, count) :: k in numbers
  {
    if numbers != [] {
      var rest := numbers[1..];
      assert Rising(rest) by {
        assert forall i | 0 <= i < |rest| :: rest[i] == numbers[i + 1];
      }
      RetainRises(rest, count);
      assert numbers == [numbers[0]] + rest;
      forall k <- rest
        ensures k > numbers[0]
      {
        var i :| 0 <= i < |rest| && rest[i] == k;
        assert numbers[i + 1] == k;
      }
      RisesFrom(numbers[0], Retain(rest, count));
    }
  }

  lemma MissingRises(block: AlAckBlock, count: nat)
    requires block.firstMissing.Some?
    ensures Rising(MissingSegments(block, count))
  {
    hide Gaps, Retain;
    GapsRise(block.firstMissing.value + 1, block.bitmap);
    RisesFrom(block.firstMissing.value, Gaps(block.firstMissing.value + 1, block.bitmap));
    RetainRises([block.firstMissing.value] + Gaps(block.firstMissing.value + 1, block.bitmap), count);
  }

  // One more repetition of this segment would be one too many; counters stop at 255.
  predicate UsedUp(counts: seq<nat>, k: nat, limit: nat)
    requires k < |counts|
  {
    counts[k] >= limit && limit < 255
  }

  /** Each segment named is charged once, and the limit is passed exactly when one of them was used up. */
  lemma {:induction false} ChargedOnce(counts: seq<nat>, missing: seq<nat>, limit: nat)
    requires Rising(missing) && forall i | 0 <= i < |missing| :: missing[i] < |counts|
    requires forall i | 0 <= i < |counts| :: counts[i] <= 255
    ensures var charge := ChargeSegments(counts, missing, limit);
            && (charge.exceeded <==> exists k <- missing :: UsedUp(counts, k, limit))
            && (!charge.exceeded ==> forall i | 0 <= i < |counts| ::
                  charge.counts[i] == if i in missing && counts[i] < 255 then counts[i] + 1 else counts[i])
    decreases |missing|
  {
    hide UsedUp;
    if missing != [] {
      var m, rest := missing[0], missing[1..];
      var charged := counts[m := Inc(counts[m])];
      assert missing == [m] + rest && m !in rest;
      OneMore(counts[m], limit);
      UsedUpIs(counts, m, limit);
      if charged[m] <= limit {
        ChargedOnce(charged, rest, limit);
        forall k <- rest
          ensures UsedUp(charged, k, limit) <==> UsedUp(counts, k, limit)
        {
          UsedUpIs(charged, k, limit);
          UsedUpIs(counts, k, limit);
        }
      }
    }
  }

  lemma UsedUpIs(counts: seq<nat>, k: nat, limit: nat)
    requires k < |counts|
    ensures UsedUp(counts, k, limit) <==> counts[k] >= limit && limit < 255
  {
  }

  lemma OneMore(count: nat, limit: nat)
    requires count <= 255
    ensures Inc(count) == (if count < 255 then count + 1 else count)
            && (Inc(count) > limit <==> count >= limit && limit < 255)
  {
  }

  // ----- What a block makes of the TL-SDU it names

  // Whether any segment that `block` names has no repetition left.
  ghost predicate LimitReached(sdu: TxSdu, block: AlAckBlock, limits: Limits)
    requires |sdu.segmentRetransmissions| == |sdu.segments| && block.firstMissing.Some?
  {
    exists k <- MissingSegments(block, |sdu.segments|) ::
        UsedUp(sdu.segmentRetransmissions, k, limits.segmentRetransmissions)
  }

  // `sdu` waits to be offered with these segments, its acknowledgement requests starting over.
  predicate WaitsWith(sdu: TxSdu, numbers: seq<nat>) {
    Idle(sdu) && sdu.ackRepeats == 0 && !sdu.reporter.Transmitted? && Due(sdu) == numbers
  }

  predicate Counted(sdu: TxSdu) {
    && |sdu.segmentRetransmissions| == |sdu.segments| && |sdu.segments| >= 1 && sdu.retransmissions <= 255
    && forall i | 0 <= i < |sdu.segmentRetransmissions| :: sdu.segmentRetransmissions[i] <= 255
  }

  predicate SameSegments(a: TxSdu, b: TxSdu) {
    a.receipt == b.receipt && a.ns == b.ns && a.segments == b.segments
  }

  // All of the TL-SDU is due again, at the cost of one of its N.273 repetitions.
  ghost predicate StartsOver(after: TxSdu, before: TxSdu) {
    && WaitsWith(after, AllNumbers(before)) && SameSegments(after, before)
    && after.retransmissions == if before.retransmissions < 255 then before.retransmissions + 1 else 255
  }

  // Exactly the segments named are due, each at the cost of one of its N.274 repetitions.
  ghost predicate RepeatsNamed(after: TxSdu, before: TxSdu, named: seq<nat>)
    requires Counted(before)
  {
    && WaitsWith(after, named) && SameSegments(after, before) && after.retransmissions == before.retransmissions
    && |after.segmentRetransmissions| == |before.segmentRetransmissions|
    && forall i | 0 <= i < |before.segmentRetransmissions| ::
         after.segmentRetransmissions[i] ==
         if i in named && before.segmentRetransmissions[i] < 255 then before.segmentRetransmissions[i] + 1
         else before.segmentRetransmissions[i]
  }

  /**
   A block that names segments makes exactly those due, or, when one of them has no repetition
   left, the whole TL-SDU; a block of length 63 makes the whole TL-SDU due.
   */
  lemma BlockMakesDue(sdu: TxSdu, block: AlAckBlock, limits: Limits)
    requires Counted(sdu)
    ensures block.length == 63 ==> StartsOver(ApplyReport(sdu, block, limits), sdu)
    ensures block.length != 63 && block.firstMissing.Some? && MissingSegments(block, |sdu.segments|) != [] ==>
              var after := ApplyReport(sdu, block, limits);
              if LimitReached(sdu, block, limits) then StartsOver(after, sdu)
              else RepeatsNamed(after, sdu, MissingSegments(block, |sdu.segments|))
  {
    hide MissingSegments, ChargeSegments, UsedUp;
    if block.length != 63 && block.firstMissing.Some? {
      MissingRises(block, |sdu.segments|);
      ChargedOnce(sdu.segmentRetransmissions, MissingSegments(block, |sdu.segments|), limits.segmentRetransmissions);
    }
  }

  // ----- The entry with a given N(S)

  // The first queued TL-SDU with this N(S), the one a block with that number is about.
  function EntryOf(tx: seq<TxSdu>, ns: nat): Option<TxSdu> {
    if Find(tx, ns) < |tx| then Some(tx[Find(tx, ns)]) else None
  }

  lemma FoundAt(tx: seq<TxSdu>, ns: nat, i: nat)
    requires i < |tx| && tx[i].ns == ns && forall j | 0 <= j < i :: tx[j].ns != ns
    ensures Find(tx, ns) == i
  {
  }

  lemma NotFound(tx: seq<TxSdu>, ns: nat)
    requires forall j | 0 <= j < |tx| :: tx[j].ns != ns
    ensures Find(tx, ns) == |tx|
  {
  }

  lemma RemovalKeepsEntry(tx: seq<TxSdu>, p: nat, ns: nat)
    requires p < |tx| && tx[p].ns != ns
    ensures EntryOf(RemoveAt(tx, p), ns) == EntryOf(tx, ns)
  {
    hide Find;
    var rest, f := RemoveAt(tx, p), Find(tx, ns);
    if f == |tx| {
      NotFound(rest, ns);
    } else {
      FoundAt(rest, ns, if f < p then f else f - 1);
    }
  }

  lemma ReplacementKeepsEntry(tx: seq<TxSdu>, p: nat, sdu: TxSdu, ns: nat)
    requires p < |tx| && sdu.ns == tx[p].ns
    ensures Find(tx[p := sdu], ns) == Find(tx, ns)
  {
    hide Find;
    var f := Find(tx, ns);
    if f == |tx| {
      NotFound(tx[p := sdu], ns);
    } else {
      FoundAt(tx[p := sdu], ns, f);
    }
  }

  lemma BlockOnEntry(tx: seq<TxSdu>, block: AlAckBlock, limits: Limits, ns: nat)
    requires WellFormed(tx)
    ensures block.nr != ns ==> EntryOf(ApplyBlock(tx, block, limits).tx, ns) == EntryOf(tx, ns)
    ensures block.nr == ns && !block.IsPositive() && EntryOf(tx, ns).Some? && WasSent(EntryOf(tx, ns).value) ==>
              EntryOf(ApplyBlock(tx, block, limits).tx, ns) == Some(ApplyReport(EntryOf(tx, ns).value, block, limits))
  {
    hide Find, WasSent;
    var p := Find(tx, block.nr);
    if p < |tx| && WasSent(tx[p]) {
      if block.IsPositive() {
        if block.nr != ns {
          RemovalKeepsEntry(tx, p, ns);
        }
      } else {
        ReportKeepsNs(tx[p], block, limits);
        ReplacementKeepsEntry(tx, p, ApplyReport(tx[p], block, limits), ns);
      }
    }
  }

  lemma ReportKeepsNs(sdu: TxSdu, block: AlAckBlock, limits: Limits)
    requires |sdu.segmentRetransmissions| == |sdu.segments|
    ensures ApplyReport(sdu, block, limits).ns == sdu.ns
  {
    hide MissingSegments, ChargeSegments;
  }

  // Block `b` of the acknowledgement is the only one with its number.
  predicate OnlyOne(blocks: seq<AlAckBlock>, b: nat)
    requires b < |blocks|
  {
    forall i | 0 <= i < |blocks| && i != b :: blocks[i].nr != blocks[b].nr
  }

  lemma {:induction false} BlocksElsewhere(tx: seq<TxSdu>, blocks: seq<AlAckBlock>, limits: Limits, ns: nat)
    requires WellFormed(tx) && forall i | 0 <= i < |blocks| :: blocks[i].nr != ns
    ensures EntryOf(ApplyBlocks(tx, blocks, limits).tx, ns) == EntryOf(tx, ns)
    decreases |blocks|
  {
    hide ApplyBlock, EntryOf, WellFormed;
    if blocks != [] {
      BlockOnEntry(tx, blocks[0], limits, ns);
      if ApplyBlock(tx, blocks[0], limits).failed.None? {
        BlocksElsewhere(ApplyBlock(tx, blocks[0], limits).tx, blocks[1..], limits, ns);
      }
    }
  }

  lemma {:induction false} BlocksOnEntry(tx: seq<TxSdu>, blocks: seq<AlAckBlock>, limits: Limits, b: nat)
    requires WellFormed(tx) && b < |blocks| && OnlyOne(blocks, b) && !blocks[b].IsPositive()
    requires EntryOf(tx, blocks[b].nr).Some? && WasSent(EntryOf(tx, blocks[b].nr).value)
    ensures ApplyBlocks(tx, blocks, limits).failed.None? ==>
              EntryOf(ApplyBlocks(tx, blocks, limits).tx, blocks[b].nr)
              == Some(ApplyReport(EntryOf(tx, blocks[b].nr).value, blocks[b], limits))
    decreases |blocks|
  {
    hide ApplyBlock, WasSent, WellFormed;
    EntryIsWellFormed(tx, blocks[b].nr);
    hide EntryOf;
    BlockOnEntry(tx, blocks[0], limits, blocks[b].nr);
    var head := ApplyBlock(tx, blocks[0], limits);
    if head.failed.None? {
      if b == 0 {
        assert forall i | 0 <= i < |blocks[1..]| :: blocks[1..][i] == blocks[i + 1];
        BlocksElsewhere(head.tx, blocks[1..], limits, blocks[0].nr);
      } else {
        OnlyOneOfRest(blocks, b);
        BlocksOnEntry(head.tx, blocks[1..], limits, b - 1);
      }
    }
  }

  lemma OnlyOneOfRest(blocks: seq<AlAckBlock>, b: nat)
    requires 0 < b < |blocks| && OnlyOne(blocks, b)
    ensures OnlyOne(blocks[1..], b - 1) && blocks[1..][b - 1] == blocks[b] && blocks[0].nr != blocks[b].nr
  {
    assert forall i | 0 <= i < |blocks[1..]| :: blocks[1..][i] == blocks[i + 1];
  }

  lemma EntryIsWellFormed(tx: seq<TxSdu>, ns: nat)
    requires WellFormed(tx) && EntryOf(tx, ns).Some?
    ensures |EntryOf(tx, ns).value.segmentRetransmissions| == |EntryOf(tx, ns).value.segments|
    ensures EntryOf(tx, ns).value.ns == ns
  {
    hide Find;
  }

  lemma PassingKeepsEntry(tx: seq<TxSdu>, n: nat, ns: nat)
    requires n <= Find(tx, ns) < |tx|
    ensures EntryOf(tx[n..], ns) == EntryOf(tx, ns)
  {
    hide Find;
    FoundAt(tx[n..], ns, Find(tx, ns) - n);
  }

  // The report leaves the TL-SDU with this N(S) in the queue: it was sent, and the window has not passed it.
  ghost predicate StillQueued(tx: seq<TxSdu>, blocks: seq<AlAckBlock>, limits: Limits, ns: nat)
    requires blocks != []
  {
    Passed(tx, blocks, limits) <= Find(tx, ns) < |tx| && WasSent(tx[Find(tx, ns)])
  }

  lemma AckOnEntry(tx: seq<TxSdu>, blocks: seq<AlAckBlock>, limits: Limits, b: nat)
    requires WellFormed(tx) && b < |blocks| && OnlyOne(blocks, b) && !blocks[b].IsPositive()
    requires StillQueued(tx, blocks, limits, blocks[b].nr)
    ensures |tx[Find(tx, blocks[b].nr)].segmentRetransmissions| == |tx[Find(tx, blocks[b].nr)].segments|
    ensures ApplyAck(tx, blocks, limits).failed.None? ==>
              EntryOf(ApplyAck(tx, blocks, limits).tx, blocks[b].nr)
              == Some(ApplyReport(tx[Find(tx, blocks[b].nr)], blocks[b], limits))
  {
    hide Find, WasSent, ApplyBlocks, PassedCount;
    var n := Passed(tx, blocks, limits);
    PassingKeepsEntry(tx, n, blocks[b].nr);
    assert WellFormed(tx[n..]);
    BlocksOnEntry(tx[n..], blocks, limits, b);
  }

  // ----- The next offer

  // The offers of this turn for the TL-SDU with this N(S).
  ghost predicate OffersOf(link: Link, r: Submission, o: nat, ns: nat) {
    o < |r.offered| && Find(link.tx, ns) < |link.tx| && r.offered[o].position == Find(link.tx, ns)
  }

  lemma IdleIsSeen(sdu: TxSdu, now: TdmaTime, limits: Limits)
    requires Idle(sdu)
    ensures Observe(sdu, now, limits) == Observed(sdu, false)
  {
  }

  lemma IdleEntryOffered(link: Link, now: TdmaTime, routeLive: bool, o: nat, ns: nat, sdu: TxSdu)
    requires AllSegmentsExist(link.tx) && EntryOf(link.tx, ns) == Some(sdu) && Idle(sdu)
    requires OffersOf(link, Submit(link, now, routeLive), o, ns)
    ensures CarryListed(sdu, Due(sdu), Submit(link, now, routeLive).offered[o].pdus)
  {
    hide Submit, ObserveAll, Find, Observe, AllSegmentsExist, CarryListed, Due, Idle;
    var i := Find(link.tx, ns);
    TurnOffers(link, now, routeLive);
    ObserveAllPointwise(link.tx, now, link.limits);
    IdleIsSeen(sdu, now, link.limits);
    var seen := ObserveAll(link.tx, now, link.limits).tx;
    assert seen[i] == sdu;
  }

  // ----- The round

  lemma ListedCarryAll(entry: TxSdu, sdu: seq<bool>, numbers: seq<nat>, pdus: seq<AlData>)
    requires entry.segments == Segments(sdu) && CarryListed(entry, numbers, pdus)
    ensures CarryAll(pdus, sdu, numbers)
  {
    hide Segments;
  }

  // Even a receiver that holds nothing of it has every segment once these PDUs have arrived.
  ghost predicate CarriesEverything(pdus: seq<AlData>) {
    forall ns: nat :: HasAllSegments(AbsorbAll(RxSdu(ns, map[], None, None), pdus))
  }

  lemma AllArrive(sdu: seq<bool>, entry: TxSdu, pdus: seq<AlData>)
    requires Numbered(sdu) && CarryAll(pdus, sdu, AllNumbers(entry)) && entry.segments == Segments(sdu)
    ensures CarriesEverything(pdus)
  {
    hide Numbered, CarryAll, AbsorbAll, HasAllSegments, Segments;
    forall ns: nat
      ensures HasAllSegments(AbsorbAll(RxSdu(ns, map[], None, None), pdus))
    {
      ReassemblyRoundTrip(sdu, ns, pdus, AllNumbers(entry));
      forall k: nat | k < |Segments(sdu)|
        ensures k in AllNumbers(entry)
      {
        assert AllNumbers(entry)[k] == k;
      }
    }
  }

  // What the receiver's entry makes of the round: it lacks what it lacked beyond the described
  // position, and less than before.
  ghost predicate LacksLess(rx: RxSdu, after: RxSdu, sdu: seq<bool>) {
    && Lacking(after, sdu) == (set k <- Lacking(rx, sdu) | k > Reach(rx))
    && |Lacking(after, sdu)| < |Lacking(rx, sdu)| && (HasAllSegments(after) <==> |Lacking(after, sdu)| == 0)
  }

  lemma NamedArrive(rx: RxSdu, sdu: seq<bool>, pdus: seq<AlData>)
    requires Waiting(rx) && Genuine(rx, sdu) && Numbered(sdu)
    requires AcknowledgementBlock(rx).firstMissing.Some?
    requires CarryAll(pdus, sdu, MissingSegments(AcknowledgementBlock(rx), |Segments(sdu)|))
    ensures LacksLess(rx, AbsorbAll(rx, pdus), sdu)
  {
    hide Waiting, Genuine, Numbered, CarryAll, AcknowledgementBlock, MissingSegments, AbsorbAll, HasAllSegments,
         Segments, Reach, FirstMissing;
    var named := MissingSegments(AcknowledgementBlock(rx), |Segments(sdu)|);
    RecoveryRoundMakesProgress(rx, sdu, pdus, named);
    NotExhausted(rx, sdu);
    BlockNamesExactlyTheLacking(rx, |Segments(sdu)|);
    hide NumbersExhausted;
    assert Lacking(rx, sdu) - Members(named) == set k <- Lacking(rx, sdu) | k > Reach(rx);
  }

  lemma NotExhausted(rx: RxSdu, sdu: seq<bool>)
    requires Waiting(rx) && Genuine(rx, sdu) && Numbered(sdu)
    ensures !NumbersExhausted(rx)
  {
    CompleteIsTheSdu(rx, sdu);
    hide Segments, HasAllSegments;
    var lost: nat :| lost < |Segments(sdu)| && lost !in rx.segments;
    assert lost <= 255;
  }

  // The TL-SDU with the block's number, as the acknowledgement finds it, is `sdu`.
  ghost predicate IsAbout(link: Link, blocks: seq<AlAckBlock>, b: nat, sdu: seq<bool>) {
    && b < |blocks| && OnlyOne(blocks, b) && StillQueued(link.tx, blocks, link.limits, blocks[b].nr)
    && var entry := link.tx[Find(link.tx, blocks[b].nr)];
       Counted(entry) && entry.segments == Segments(sdu) && Numbered(sdu)
  }

  /**
   One round through the sender. The receiver of `sdu` reports what it lacks; the sender takes the
   acknowledgement in, and its next offer of that TL-SDU arrives. If none of the segments named has
   been repeated too often, the receiver then lacks exactly what it lacked beyond the position the
   report described, at least one segment less; otherwise the offer carries every segment.
   */
  lemma RecoveryThroughTheSender(link: Link, ack: AlAck, heard: TdmaTime, now: TdmaTime, routeLive: bool, rx: RxSdu,
                                 sdu: seq<bool>, b: nat, o: nat)
    requires link.reset.None? && AllOk(link.tx) && C.Ascending(link.tx) && IsAbout(link, ack.blocks, b, sdu)
    requires Waiting(rx) && Genuine(rx, sdu) && ack.blocks[b] == AcknowledgementBlock(rx)
    ensures WellFormed(link.tx) && ack.blocks[b].firstMissing.Some?
    ensures var after := HandleAck(link, ack, heard);
            after.failed.None? ==>
              && AllSegmentsExist(after.link.tx)
              && var r := Submit(after.link, now, routeLive);
                 OffersOf(after.link, r, o, ack.blocks[b].nr) ==>
                   var got := AbsorbAll(rx, r.offered[o].pdus);
                   if LimitReached(link.tx[Find(link.tx, ack.blocks[b].nr)], ack.blocks[b], link.limits)
                   then CarriesEverything(r.offered[o].pdus) else LacksLess(rx, got, sdu)
  {
    hide AllOk, C.Ascending, WellFormed, Waiting, Genuine, Numbered, AcknowledgementBlock, Segments, Find, Submit,
         LacksLess, CarriesEverything, ApplyAck, LimitReached, AbsorbAll, AllSegmentsExist, OnlyOne, CarryListed, Due,
         MissingSegments, ApplyReport, Idle, Passed, WasSent;
    C.AckShares(link.tx, ack.blocks, link.limits);
    BlockNamesSome(rx, sdu);
    AckOnEntry(link.tx, ack.blocks, link.limits, b);
    var entry := link.tx[Find(link.tx, ack.blocks[b].nr)];
    BlockMakesDue(entry, ack.blocks[b], link.limits);
    var after := HandleAck(link, ack, heard);
    if after.failed.None? {
      SegmentsAllExist(after.link.tx);
      var r := Submit(after.link, now, routeLive);
      if OffersOf(after.link, r, o, ack.blocks[b].nr) {
        var waits := ApplyReport(entry, ack.blocks[b], link.limits);
        IdleEntryOffered(after.link, now, routeLive, o, ack.blocks[b].nr, waits);
        ListedCarryAll(waits, sdu, Due(waits), r.offered[o].pdus);
        if LimitReached(entry, ack.blocks[b], link.limits) {
          AllArrive(sdu, entry, r.offered[o].pdus);
        } else {
          NamedArrive(rx, sdu, r.offered[o].pdus);
        }
      }
    }
  }

  lemma BlockNamesSome(rx: RxSdu, sdu: seq<bool>)
    requires Waiting(rx) && Genuine(rx, sdu) && Numbered(sdu)
    ensures var block := AcknowledgementBlock(rx);
            && block.firstMissing.Some? && block.length != 63 && !block.IsPositive()
            && MissingSegments(block, |Segments(sdu)|) != []
  {
    hide AcknowledgementBlock, MissingSegments, Segments, Genuine, Numbered;
    BlockShape(rx);
    var first := OneNamedLacks(rx, sdu);
  }

  /**
   When the check has failed at the receiver, which answers with length 63, the next offer of that
   TL-SDU carries all of it.
   */
  lemma WholeAgainThroughTheSender(link: Link, ack: AlAck, heard: TdmaTime, now: TdmaTime, routeLive: bool,
                                   sdu: seq<bool>, b: nat, o: nat)
    requires link.reset.None? && AllOk(link.tx) && C.Ascending(link.tx) && IsAbout(link, ack.blocks, b, sdu)
    requires ack.blocks[b].length == 63
    ensures WellFormed(link.tx)
    ensures var after := HandleAck(link, ack, heard);
            after.failed.None? ==>
              && AllSegmentsExist(after.link.tx)
              && var r := Submit(after.link, now, routeLive);
                 OffersOf(after.link, r, o, ack.blocks[b].nr) ==>
                   CarriesEverything(r.offered[o].pdus)
  {
    hide AllOk, C.Ascending, WellFormed, Numbered, Segments, Find, Submit, CarriesEverything, ApplyAck, AbsorbAll,
         AllSegmentsExist, OnlyOne, CarryListed, Due, ApplyReport, Idle, Passed, WasSent;
    C.AckShares(link.tx, ack.blocks, link.limits);
    AckOnEntry(link.tx, ack.blocks, link.limits, b);
    var entry := link.tx[Find(link.tx, ack.blocks[b].nr)];
    BlockMakesDue(entry, ack.blocks[b], link.limits);
    var after := HandleAck(link, ack, heard);
    if after.failed.None? {
      SegmentsAllExist(after.link.tx);
      var r := Submit(after.link, now, routeLive);
      if OffersOf(after.link, r, o, ack.blocks[b].nr) {
        var waits := ApplyReport(entry, ack.blocks[b], link.limits);
        IdleEntryOffered(after.link, now, routeLive, o, ack.blocks[b].nr, waits);
        ListedCarryAll(waits, sdu, Due(waits), r.offered[o].pdus);
        AllArrive(sdu, entry, r.offered[o].pdus);
      }
    }
  }
}
