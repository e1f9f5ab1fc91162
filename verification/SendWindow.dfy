/**
 The send half against absolute TL-SDU numbers. The TL-SDUs accepted since the sequence
 variables were last at 0 are numbered 0, 1, 2, ... in `receipt`; N(S) is that number
 modulo 8, and up to 64 of them queue, so N(S) repeats inside one queue.
 */
module SendWindow {
  import opened Arithmetic
  import opened AlPdu
  import opened Tdma
  import opened Sender

  // The oldest TL-SDU still queued, or the next one to be accepted.
  function Front(tx: seq<TxSdu>, count: nat): nat {
    if tx == [] then count else tx[0].receipt
  }

  predicate Queued(tx: seq<TxSdu>, k: nat) {
    exists i :: 0 <= i < |tx| && tx[i].receipt == k
  }

  ghost predicate Ordered(tx: seq<TxSdu>, count: nat) {
    && (forall i, j | 0 <= i < j < |tx| :: tx[i].receipt < tx[j].receipt)
    && (forall i | 0 <= i < |tx| :: tx[i].receipt < count && tx[i].ns == tx[i].receipt % 8)
  }

  // The bookkeeping of one queued TL-SDU is consistent and its receipt is not final.
  predicate SduOk(sdu: TxSdu) {
    && |sdu.segmentRetransmissions| == |sdu.segments| && |sdu.segments| >= 1
    && SegmentsExist(sdu)
    && (sdu.ackRequested ==> sdu.attempt.Some?)
    && (sdu.sentAt.Some? ==> sdu.ackRequested)
    && (sdu.pending.Some? ==> !InFlight(sdu))
    && (sdu.attempt.Some? ==>
         sdu.attempt.value.Pending? || sdu.attempt.value.Transmitted? || sdu.attempt.value.Discarded?)
    && (sdu.reporter.Pending? || sdu.reporter.Transmitted?)
  }

  ghost predicate AllOk(tx: seq<TxSdu>) {
    forall i | 0 <= i < |tx| :: SduOk(tx[i])
  }

  ghost predicate SentBelow(tx: seq<TxSdu>, limit: nat) {
    forall i | 0 <= i < |tx| :: WasSent(tx[i]) ==> tx[i].receipt < limit
  }

  // Every accepted number that left the queue was inside the window that starts at the front.
  ghost predicate GapsInWindow(tx: seq<TxSdu>, count: nat, window: nat) {
    forall k: nat | k < count :: Queued(tx, k) || k < Front(tx, count) + window
  }

  ghost predicate WindowInv(tx: seq<TxSdu>, count: nat, window: nat) {
    && 1 <= window <= 3
    && Ordered(tx, count) && AllOk(tx)
    && SentBelow(tx, Front(tx, count) + window)
    && GapsInWindow(tx, count, window)
  }

  // No attempt of this TL-SDU has been reported as anything but discarded, nor has the peer
  // said anything about it.
  predicate Unaired(sdu: TxSdu) {
    && sdu.reporter.Pending? && sdu.ackRepeats == 0 && sdu.retransmissions == 0 && sdu.pending.None?
    && (forall i | 0 <= i < |sdu.segmentRetransmissions| :: sdu.segmentRetransmissions[i] == 0)
    && (sdu.attempt.Some? ==> sdu.attempt.value.Pending? || sdu.attempt.value.Discarded?)
  }

  // A recovery counter shows that the peer or T.252 has had a say about this TL-SDU.
  predicate Touched(sdu: TxSdu) {
    || sdu.ackRepeats > 0 || sdu.retransmissions > 0
    || (exists i | 0 <= i < |sdu.segmentRetransmissions| :: sdu.segmentRetransmissions[i] > 0)
  }

  // Selective retransmission is only ever due to recovery.
  ghost predicate PendingTouched(tx: seq<TxSdu>) {
    forall sdu <- tx :: sdu.pending.Some? ==> Touched(sdu)
  }

  // The entries of `after` that were not there before are touched and ask for nothing.
  ghost predicate OldOrTouched(before: seq<TxSdu>, after: seq<TxSdu>) {
    forall sdu <- after :: sdu in before || (Touched(sdu) && !sdu.ackRequested)
  }

  ghost predicate OneRequest(tx: seq<TxSdu>) {
    forall i, j | 0 <= i < |tx| && 0 <= j < |tx| :: tx[i].ackRequested && tx[j].ackRequested ==> i == j
  }

  // ----- Replacing entries in place

  ghost predicate SameQueue(a: seq<TxSdu>, b: seq<TxSdu>) {
    && |a| == |b|
    && forall i | 0 <= i < |a| :: a[i].receipt == b[i].receipt && a[i].ns == b[i].ns && a[i].segments == b[i].segments
  }

  lemma SameQueueKeeps(a: seq<TxSdu>, b: seq<TxSdu>, count: nat, window: nat)
    requires SameQueue(a, b)
    ensures Front(b, count) == Front(a, count)
    ensures Ordered(a, count) ==> Ordered(b, count)
    ensures forall k :: Queued(a, k) <==> Queued(b, k)
    ensures GapsInWindow(a, count, window) ==> GapsInWindow(b, count, window)
  {
    forall k
      ensures Queued(a, k) <==> Queued(b, k)
    {
      if Queued(a, k) {
        var i :| 0 <= i < |a| && a[i].receipt == k;
        assert b[i].receipt == k;
      }
      if Queued(b, k) {
        var i :| 0 <= i < |b| && b[i].receipt == k;
        assert a[i].receipt == k;
      }
    }
  }

  lemma ReplaceKeeps(tx: seq<TxSdu>, p: nat, sdu: TxSdu, count: nat, window: nat)
    requires WindowInv(tx, count, window) && p < |tx| && SduOk(sdu)
    requires sdu.receipt == tx[p].receipt && sdu.ns == tx[p].ns && sdu.segments == tx[p].segments
    requires WasSent(sdu) ==> tx[p].receipt < Front(tx, count) + window
    ensures WindowInv(tx[p := sdu], count, window) && Front(tx[p := sdu], count) == Front(tx, count)
    ensures SameQueue(tx, tx[p := sdu])
  {
    hide SduOk;
    SameQueueKeeps(tx, tx[p := sdu], count, window);
  }

  // ----- Removing entries that were on the air

  lemma RemoveQueued(tx: seq<TxSdu>, p: nat, count: nat)
    requires Ordered(tx, count) && p < |tx|
    ensures forall k :: Queued(RemoveAt(tx, p), k) <==> Queued(tx, k) && k != tx[p].receipt
  {
    hide Queued, Ordered, RemoveAt;
    forall k
      ensures Queued(RemoveAt(tx, p), k) <==> Queued(tx, k) && k != tx[p].receipt
    {
      if Queued(RemoveAt(tx, p), k) {
        WasQueued(tx, p, count, k);
      }
      if Queued(tx, k) && k != tx[p].receipt {
        StaysQueued(tx, p, k);
      }
    }
  }

  lemma WasQueued(tx: seq<TxSdu>, p: nat, count: nat, k: nat)
    requires Ordered(tx, count) && p < |tx| && Queued(RemoveAt(tx, p), k)
    ensures Queued(tx, k) && k != tx[p].receipt
  {
    var rest := RemoveAt(tx, p);
    var i :| 0 <= i < |rest| && rest[i].receipt == k;
    assert rest[i] == tx[if i < p then i else i + 1];
  }

  lemma StaysQueued(tx: seq<TxSdu>, p: nat, k: nat)
    requires p < |tx| && Queued(tx, k) && k != tx[p].receipt
    ensures Queued(RemoveAt(tx, p), k)
  {
    var i :| 0 <= i < |tx| && tx[i].receipt == k;
    assert RemoveAt(tx, p)[if i < p then i else i - 1] == tx[i];
  }

  lemma RemoveKeeps(tx: seq<TxSdu>, p: nat, count: nat, window: nat)
    requires WindowInv(tx, count, window) && p < |tx| && WasSent(tx[p])
    ensures WindowInv(RemoveAt(tx, p), count, window)
    ensures Front(tx, count) <= Front(RemoveAt(tx, p), count)
    ensures forall k :: Queued(RemoveAt(tx, p), k) <==> Queued(tx, k) && k != tx[p].receipt
  {
    hide SduOk, WasSent;
    RemoveQueued(tx, p, count);
    hide Queued;
    var rest := RemoveAt(tx, p);
    assert forall i | 0 <= i < |rest| :: rest[i] == tx[if i < p then i else i + 1];
  }

  // ----- Acknowledgements

  // What the sender may take from a report whose first block is about TL-SDU `base`:
  // `held` are the TL-SDUs the peer has in full.
  ghost predicate Sound(blocks: seq<AlAckBlock>, base: nat, held: iset<nat>) {
    && (forall k: nat | k < base :: k in held)
    && forall i | 0 <= i < |blocks| ::
         && blocks[i].nr == (base + i) % 8
         && (blocks[i].IsPositive() ==> base + i in held)
  }

  // Every entry of `after` descends from one of `before`.
  ghost predicate SubQueue(before: seq<TxSdu>, after: seq<TxSdu>) {
    forall a <- after :: exists b :: b in before && b.receipt == a.receipt && b.ns == a.ns && b.segments == a.segments
  }

  lemma AdvanceOf(front: nat, base: nat, window: nat)
    requires 1 <= window <= 3 && front <= base + 7 - window && base <= front + window
    ensures front % 8 == base % 8 <==> front == base
    ensures front < base <==> 1 <= (base % 8 - front % 8) % 8 <= window
  {
    Mod8Difference(base, front);
    Mod8Small(base - front);
    if front % 8 == base % 8 {
      Mod8Distinct(front, base);
    }
  }

  /** The entries at the front that a report retires were on the air and lie below its base. */
  lemma {:induction false} PassedAreBelow(tx: seq<TxSdu>, count: nat, base: nat, window: nat, limit: nat)
    requires 1 <= window <= 3 && Ordered(tx, count) && SentBelow(tx, limit)
    requires tx != [] ==> limit <= tx[0].receipt + window
    requires tx != [] && WasSent(tx[0]) ==> tx[0].receipt <= base + 7 - window && base <= tx[0].receipt + window
    ensures forall i | 0 <= i < PassedCount(tx, base % 8, window) :: WasSent(tx[i]) && tx[i].receipt < base
  {
    if tx != [] && tx[0].ns != base % 8 && WasSent(tx[0]) {
      AdvanceOf(tx[0].receipt, base, window);
      if tx[0].receipt < base {
        PassedAreBelow(tx[1..], count, base, window, limit);
      }
    }
  }

  lemma QueuedSplit(tx: seq<TxSdu>, n: nat, k: nat)
    requires n <= |tx|
    ensures Queued(tx, k) <==> Queued(tx[..n], k) || Queued(tx[n..], k)
  {
    if Queued(tx, k) {
      var i :| 0 <= i < |tx| && tx[i].receipt == k;
      if i < n {
        assert tx[..n][i].receipt == k;
      } else {
        assert tx[n..][i - n].receipt == k;
      }
    }
    if Queued(tx[n..], k) {
      var i :| 0 <= i < |tx| - n && tx[n..][i].receipt == k;
      assert tx[n + i].receipt == k;
    }
  }

  lemma {:induction false} DropKeeps(tx: seq<TxSdu>, n: nat, count: nat, window: nat)
    requires WindowInv(tx, count, window) && n <= |tx| && forall i | 0 <= i < n :: WasSent(tx[i])
    ensures WindowInv(tx[n..], count, window) && Front(tx, count) <= Front(tx[n..], count)
    decreases n
  {
    hide WindowInv, WasSent, Front;
    if n == 0 {
      assert tx[n..] == tx;
    } else {
      RemoveKeeps(tx, 0, count, window);
      assert RemoveAt(tx, 0) == tx[1..];
      DropKeeps(tx[1..], n - 1, count, window);
      assert tx[1..][n - 1..] == tx[n..];
    }
  }

  ghost predicate SentWithin(tx: seq<TxSdu>, low: nat, window: nat) {
    forall i | 0 <= i < |tx| :: WasSent(tx[i]) ==> low <= tx[i].receipt < low + window
  }

  lemma {:induction false} ChargeMarks(counts: seq<nat>, missing: seq<nat>, limit: nat)
    requires forall i | 0 <= i < |missing| :: missing[i] < |counts|
    ensures forall i | 0 <= i < |counts| :: ChargeSegments(counts, missing, limit).counts[i] >= 1 || counts[i] == 0
    ensures missing != [] ==> ChargeSegments(counts, missing, limit).counts[missing[0]] >= 1
    decreases |missing|
  {
    if missing != [] {
      var charged := counts[missing[0] := Inc(counts[missing[0]])];
      if charged[missing[0]] <= limit {
        ChargeMarks(charged, missing[1..], limit);
      }
    }
  }

  lemma ReportTouches(sdu: TxSdu, block: AlAckBlock, limits: Limits)
    requires SduOk(sdu)
    requires block.length == 63 || (block.firstMissing.Some? && block.firstMissing.value < |sdu.segments|)
    ensures Touched(ApplyReport(sdu, block, limits))
  {
    if block.length != 63 {
      var missing := MissingSegments(block, |sdu.segments|);
      assert missing[0] == block.firstMissing.value;
      ChargeMarks(sdu.segmentRetransmissions, missing, limits.segmentRetransmissions);
    }
  }

  // A block that is not positive asks for something the TL-SDU numbered `about` has.
  ghost predicate AsksForSome(tx: seq<TxSdu>, block: AlAckBlock, about: nat) {
    block.IsPositive() || block.length == 63
    || (block.firstMissing.Some? && forall i | 0 <= i < |tx| && tx[i].receipt == about ::
          block.firstMissing.value < |tx[i].segments|)
  }

  lemma ReportKeepsSdu(sdu: TxSdu, block: AlAckBlock, limits: Limits)
    requires SduOk(sdu)
    ensures var after := ApplyReport(sdu, block, limits);
            && SduOk(after) && !WasSent(after)
            && after.receipt == sdu.receipt && after.ns == sdu.ns && after.segments == sdu.segments
  {
    var after := ApplyReport(sdu, block, limits);
    assert after.pending == sdu.pending ==> OfferedSegments(after) == OfferedSegments(sdu);
  }

  /**
   One block: the TL-SDU it changes is the one it is about, absolute number included, so a
   positive block removes only a TL-SDU the peer has. A block whose N(R) fits only a later,
   unsent generation changes nothing.
   */
  lemma BlockKeeps(tx: seq<TxSdu>, block: AlAckBlock, limits: Limits, count: nat, low: nat, about: nat, held: iset<nat>)
    requires WindowInv(tx, count, limits.window) && SentWithin(tx, low, limits.window)
    requires block.nr == about % 8 && low <= about + 7 - limits.window && about < low + 2 * limits.window
    requires block.IsPositive() ==> about in held
    ensures var r := ApplyBlock(tx, block, limits);
            && WindowInv(r.tx, count, limits.window) && SentWithin(r.tx, low, limits.window)
            && Front(tx, count) <= Front(r.tx, count)
            && (forall k | Queued(tx, k) :: Queued(r.tx, k) || k in held)
            && (forall i | 0 <= i < |r.acked| :: r.acked[i].receipt in held)
            && SubQueue(tx, r.tx)
            && (r.tx != tx || r.acked != [] ==> exists i :: 0 <= i < |tx| && tx[i].receipt == about && WasSent(tx[i]))
  {
    var p := Find(tx, block.nr);
    if p < |tx| && WasSent(tx[p]) {
      Mod8Distinct(tx[p].receipt, about);
      hide SduOk, GapsInWindow, Queued, WasSent, Front, ApplyReport, SentWithin, SubQueue, WindowInv;
      if block.IsPositive() {
        RemovedKeeps(tx, p, count, limits.window, low);
      } else {
        ReportedKeeps(tx, p, block, limits, count, low);
      }
    } else {
      SameIsSub(tx);
    }
  }

  lemma RemovedKeeps(tx: seq<TxSdu>, p: nat, count: nat, window: nat, low: nat)
    requires WindowInv(tx, count, window) && SentWithin(tx, low, window) && p < |tx| && WasSent(tx[p])
    ensures var after := RemoveAt(tx, p);
            && WindowInv(after, count, window) && SentWithin(after, low, window)
            && Front(tx, count) <= Front(after, count) && SubQueue(tx, after)
            && forall k | Queued(tx, k) :: Queued(after, k) || k == tx[p].receipt
  {
    hide SduOk, GapsInWindow, Queued, WasSent, Front;
    RemoveKeeps(tx, p, count, window);
    assert forall i | 0 <= i < |RemoveAt(tx, p)| :: RemoveAt(tx, p)[i] == tx[if i < p then i else i + 1];
  }

  lemma ReportedKeeps(tx: seq<TxSdu>, p: nat, block: AlAckBlock, limits: Limits, count: nat, low: nat)
    requires WindowInv(tx, count, limits.window) && SentWithin(tx, low, limits.window) && p < |tx|
    ensures |tx[p].segmentRetransmissions| == |tx[p].segments|
    ensures var after := tx[p := ApplyReport(tx[p], block, limits)];
            && WindowInv(after, count, limits.window) && SentWithin(after, low, limits.window)
            && Front(tx, count) == Front(after, count)
            && SubQueue(tx, after) && forall k | Queued(tx, k) :: Queued(after, k)
  {
    assert SduOk(tx[p]);
    ReportKeepsSdu(tx[p], block, limits);
    hide SduOk, GapsInWindow, Queued, WasSent, Front, ApplyReport;
    ReplaceKeeps(tx, p, ApplyReport(tx[p], block, limits), count, limits.window);
    SameQueueKeeps(tx, tx[p := ApplyReport(tx[p], block, limits)], count, limits.window);
  }

  lemma SameIsSub(tx: seq<TxSdu>)
    ensures SubQueue(tx, tx)
  {
  }

  lemma {:induction false} BlocksKeep(tx: seq<TxSdu>, blocks: seq<AlAckBlock>, limits: Limits, count: nat, low: nat,
                                      about: nat, held: iset<nat>)
    requires WindowInv(tx, count, limits.window) && SentWithin(tx, low, limits.window)
    requires forall i | 0 <= i < |blocks| ::
               blocks[i].nr == (about + i) % 8 && (blocks[i].IsPositive() ==> about + i in held)
    requires low <= about + 7 - limits.window && about + |blocks| <= low + 2 * limits.window
    ensures var r := ApplyBlocks(tx, blocks, limits);
            && WindowInv(r.tx, count, limits.window)
            && Front(tx, count) <= Front(r.tx, count)
            && (forall k | Queued(tx, k) :: Queued(r.tx, k) || k in held)
            && (forall i | 0 <= i < |r.acked| :: r.acked[i].receipt in held)
            && SubQueue(tx, r.tx)
    decreases |blocks|
  {
    if blocks != [] {
      BlockKeeps(tx, blocks[0], limits, count, low, about, held);
      hide WindowInv, SentWithin, Queued, Front, ApplyBlock;
      var head := ApplyBlock(tx, blocks[0], limits);
      if head.failed.None? {
        assert forall i | 0 <= i < |blocks[1..]| :: blocks[1..][i] == blocks[i + 1];
        BlocksKeep(head.tx, blocks[1..], limits, count, low, about + 1, held);
      }
    }
  }

  lemma BlockTouches(tx: seq<TxSdu>, block: AlAckBlock, limits: Limits, count: nat, low: nat, about: nat)
    requires WindowInv(tx, count, limits.window) && SentWithin(tx, low, limits.window)
    requires block.nr == about % 8 && low <= about + 7 - limits.window && about < low + 2 * limits.window
    requires AsksForSome(tx, block, about)
    ensures OldOrTouched(tx, ApplyBlock(tx, block, limits).tx)
  {
    var p := Find(tx, block.nr);
    if p < |tx| && WasSent(tx[p]) && !block.IsPositive() {
      Mod8Distinct(tx[p].receipt, about);
      ReportTouches(tx[p], block, limits);
    }
  }

  /** Whatever a report that asks only for existing segments leaves changed shows in a recovery counter. */
  lemma {:induction false} BlocksTouch(tx: seq<TxSdu>, blocks: seq<AlAckBlock>, limits: Limits, count: nat, low: nat,
                                       about: nat, held: iset<nat>)
    requires WindowInv(tx, count, limits.window) && SentWithin(tx, low, limits.window)
    requires forall i | 0 <= i < |blocks| ::
               blocks[i].nr == (about + i) % 8 && (blocks[i].IsPositive() ==> about + i in held)
    requires low <= about + 7 - limits.window && about + |blocks| <= low + 2 * limits.window
    requires forall i | 0 <= i < |blocks| :: AsksForSome(tx, blocks[i], about + i)
    ensures OldOrTouched(tx, ApplyBlocks(tx, blocks, limits).tx)
    decreases |blocks|
  {
    hide WindowInv, SentWithin, Queued, Front, ApplyBlock, AsksForSome, OldOrTouched, SubQueue;
    NoneIsOld(tx);
    IsWellFormed(tx, count, limits.window);
    if blocks != [] {
      BlockKeeps(tx, blocks[0], limits, count, low, about, held);
      BlockTouches(tx, blocks[0], limits, count, low, about);
      var head := ApplyBlock(tx, blocks[0], limits);
      if head.failed.None? {
        var rest := blocks[1..];
        forall i | 0 <= i < |rest|
          ensures rest[i] == blocks[i + 1] && AsksForSome(head.tx, rest[i], about + 1 + i)
        {
          AskingStays(tx, head.tx, rest[i], about + 1 + i);
        }
        BlocksTouch(head.tx, rest, limits, count, low, about + 1, held);
        TouchedStays(tx, head.tx, ApplyBlocks(head.tx, rest, limits).tx);
      }
    }
  }

  lemma IsWellFormed(tx: seq<TxSdu>, count: nat, window: nat)
    requires WindowInv(tx, count, window)
    ensures WellFormed(tx)
  {
  }

  lemma NoneIsOld(tx: seq<TxSdu>)
    ensures OldOrTouched(tx, tx)
  {
  }

  lemma TouchedStays(before: seq<TxSdu>, middle: seq<TxSdu>, after: seq<TxSdu>)
    requires OldOrTouched(before, middle) && OldOrTouched(middle, after)
    ensures OldOrTouched(before, after)
  {
    hide Touched;
  }

  lemma AskingStays(tx: seq<TxSdu>, after: seq<TxSdu>, block: AlAckBlock, about: nat)
    requires SubQueue(tx, after) && AsksForSome(tx, block, about)
    ensures AsksForSome(after, block, about)
  {
    forall i | 0 <= i < |after| && after[i].receipt == about
      ensures exists j :: 0 <= j < |tx| && tx[j].receipt == about && tx[j].segments == after[i].segments
    {
      assert after[i] in after;
    }
  }

  // The entries an acknowledgement retires because the peer's window has passed them.
  function Passed(tx: seq<TxSdu>, blocks: seq<AlAckBlock>, limits: Limits): (n: nat)
    requires blocks != []
    ensures n <= |tx|
  {
    if IsWindowReport(blocks, limits.window) then PassedCount(tx, blocks[0].nr, limits.window) else 0
  }

  lemma PassedKeeps(tx: seq<TxSdu>, blocks: seq<AlAckBlock>, limits: Limits, count: nat, base: nat, held: iset<nat>)
    requires WindowInv(tx, count, limits.window)
    requires 1 <= |blocks| <= limits.window && Sound(blocks, base, held)
    requires Front(tx, count) <= base + 7 - limits.window && base <= Front(tx, count) + limits.window
    ensures var n := Passed(tx, blocks, limits);
            && (forall i | 0 <= i < n :: tx[i].receipt in held)
            && WindowInv(tx[n..], count, limits.window) && SentWithin(tx[n..], Front(tx, count), limits.window)
            && Front(tx, count) <= Front(tx[n..], count)
  {
    var low, n := Front(tx, count), Passed(tx, blocks, limits);
    PassedAreBelow(tx, count, base, limits.window, low + limits.window);
    assert forall i | 0 <= i < n :: WasSent(tx[i]) && tx[i].receipt in held;
    DropKeeps(tx, n, count, limits.window);
    assert forall i | 0 <= i < |tx[n..]| :: tx[n..][i] == tx[n + i];
  }

  /**
   A whole acknowledgement, taken in at most `7 - window` TL-SDUs below the front: the
   window invariant survives, the front never moves back, and every TL-SDU that leaves the
   queue as acknowledged is one the peer holds in full.
   */
  lemma AckKeeps(tx: seq<TxSdu>, blocks: seq<AlAckBlock>, limits: Limits, count: nat, base: nat, held: iset<nat>)
    requires WindowInv(tx, count, limits.window)
    requires 1 <= |blocks| <= limits.window && Sound(blocks, base, held)
    requires Front(tx, count) <= base + 7 - limits.window && base <= Front(tx, count) + limits.window
    ensures var r := ApplyAck(tx, blocks, limits);
            && WindowInv(r.tx, count, limits.window)
            && Front(tx, count) <= Front(r.tx, count)
            && (forall k | Queued(tx, k) :: Queued(r.tx, k) || k in held)
            && (forall i | 0 <= i < |r.acked| :: r.acked[i].receipt in held)
            && SubQueue(tx, r.tx)
  {
    var low := Front(tx, count);
    var passed := Passed(tx, blocks, limits);
    PassedKeeps(tx, blocks, limits, count, base, held);
    hide WindowInv, SentWithin, WasSent, Passed;
    BlocksKeep(tx[passed..], blocks, limits, count, low, base, held);
    forall k | Queued(tx, k)
      ensures Queued(tx[passed..], k) || k in held
    {
      QueuedSplit(tx, passed, k);
    }
  }

  lemma AckTouches(tx: seq<TxSdu>, blocks: seq<AlAckBlock>, limits: Limits, count: nat, base: nat, held: iset<nat>)
    requires WindowInv(tx, count, limits.window)
    requires 1 <= |blocks| <= limits.window && Sound(blocks, base, held)
    requires Front(tx, count) <= base + 7 - limits.window && base <= Front(tx, count) + limits.window
    requires forall i | 0 <= i < |blocks| :: AsksForSome(tx, blocks[i], base + i)
    ensures OldOrTouched(tx, ApplyAck(tx, blocks, limits).tx)
  {
    var passed := Passed(tx, blocks, limits);
    PassedKeeps(tx, blocks, limits, count, base, held);
    var low := Front(tx, count);
    hide WindowInv, SentWithin, WasSent, Passed, Touched;
    BlocksTouch(tx[passed..], blocks, limits, count, low, base, held);
  }

  // ----- Submission

  lemma ObserveKeepsSdu(sdu: TxSdu, now: TdmaTime, limits: Limits)
    requires SduOk(sdu)
    ensures var after := Observe(sdu, now, limits).sdu;
            && SduOk(after)
            && after.receipt == sdu.receipt && after.ns == sdu.ns && after.segments == sdu.segments
            && (WasSent(after) ==> WasSent(sdu))
            && (InFlight(after) ==> InFlight(sdu))
            && (after.ackRequested ==> sdu.ackRequested)
  {
    var after := Observe(sdu, now, limits).sdu;
    assert after.pending == sdu.pending ==> OfferedSegments(after) == OfferedSegments(sdu);
  }

  lemma {:induction false} ObserveAllPointwise(tx: seq<TxSdu>, now: TdmaTime, limits: Limits)
    ensures |ObserveAll(tx, now, limits).tx| == |tx|
    ensures forall i | 0 <= i < |tx| ::
              || ObserveAll(tx, now, limits).tx[i] == Observe(tx[i], now, limits).sdu
              || (ObserveAll(tx, now, limits).failed.Some? && ObserveAll(tx, now, limits).tx[i] == tx[i])
  {
    hide Observe;
    if tx != [] {
      ObserveAllPointwise(tx[1..], now, limits);
    }
  }

  lemma ObserveAllKeeps(tx: seq<TxSdu>, now: TdmaTime, limits: Limits, count: nat)
    requires WindowInv(tx, count, limits.window)
    ensures var after := ObserveAll(tx, now, limits).tx;
            && WindowInv(after, count, limits.window) && SameQueue(tx, after)
            && Front(after, count) == Front(tx, count)
            && (OneRequest(tx) ==> OneRequest(after))
  {
    var after := ObserveAll(tx, now, limits).tx;
    ObserveAllPointwise(tx, now, limits);
    forall i | 0 <= i < |tx|
      ensures SduOk(after[i]) && after[i].receipt == tx[i].receipt && after[i].ns == tx[i].ns
              && after[i].segments == tx[i].segments
      ensures WasSent(after[i]) ==> WasSent(tx[i])
      ensures after[i].ackRequested ==> tx[i].ackRequested
    {
      ObserveKeepsSdu(tx[i], now, limits);
    }
    hide SduOk, WasSent, ObserveAll;
    SameQueueKeeps(tx, after, count, limits.window);
  }

  lemma GenerationEndsAtRepeat(tx: seq<TxSdu>, count: nat, j: nat)
    requires Ordered(tx, count) && j < |tx| && tx[j].receipt == tx[0].receipt + 8
    ensures GenerationEnd(tx) <= j
  {
    var front := tx[0].receipt;
    Euclid(front + 8, 8, front / 8 + 1, front % 8);
    assert tx[j].ns == tx[0].ns && j >= 1;
  }

  /**
   The window test on 3-bit numbers is exact: a position the sender may offer holds a
   TL-SDU whose absolute number is inside the window that starts at the front.
   */
  lemma OfferableIsInWindow(tx: seq<TxSdu>, i: nat, limits: Limits, receiverNotReady: bool, count: nat)
    requires WindowInv(tx, count, limits.window) && i < |tx| && Offerable(tx, i, limits, receiverNotReady)
    ensures tx[0].receipt <= tx[i].receipt < tx[0].receipt + limits.window
  {
    hide SduOk;
    var front, id := tx[0].receipt, tx[i].receipt;
    if front + 8 < count {
      assert Queued(tx, front + 8);
      var j :| 0 <= j < |tx| && tx[j].receipt == front + 8;
      GenerationEndsAtRepeat(tx, count, j);
      assert i < j;
    }
    Mod8Difference(id, front);
    Mod8Small(id - front);
  }

  lemma OfferKeepsSdu(sdu: TxSdu, requestAck: bool)
    requires SduOk(sdu) && !InFlight(sdu)
    ensures SduOk(Offer(sdu, requestAck)) && InFlight(Offer(sdu, requestAck))
  {
  }

  lemma NoRequestIsNone(tx: seq<TxSdu>, limits: Limits, notReady: bool)
    requires Selected(tx, limits, notReady) != []
    ensures forall i | 0 <= i < |tx| :: !tx[i].ackRequested
  {
  }

  /** Offering keeps the window invariant, and leaves at most one acknowledgement request. */
  lemma OfferAllKeeps(tx: seq<TxSdu>, limits: Limits, notReady: bool, count: nat)
    requires WindowInv(tx, count, limits.window) && OneRequest(tx)
    ensures var picked := Selected(tx, limits, notReady); var after := OfferAll(tx, picked);
            && WindowInv(after, count, limits.window) && SameQueue(tx, after) && OneRequest(after)
            && Front(after, count) == Front(tx, count)
            && forall a | 0 <= a < |picked| ::
                 && picked[a] < |tx| && SegmentsExist(tx[picked[a]]) && !InFlight(tx[picked[a]])
                 && Front(tx, count) <= tx[picked[a]].receipt < Front(tx, count) + limits.window
  {
    var picked := Selected(tx, limits, notReady);
    var after := OfferAll(tx, picked);
    forall a | 0 <= a < |picked|
      ensures picked[a] < |tx| && !InFlight(tx[picked[a]]) && SegmentsExist(tx[picked[a]])
      ensures Front(tx, count) <= tx[picked[a]].receipt < Front(tx, count) + limits.window
    {
      OfferableIsInWindow(tx, picked[a], limits, notReady, count);
    }
    if picked == [] {
      assert after == tx;
    } else {
      NoRequestIsNone(tx, limits, notReady);
      OfferPicked(tx, picked, limits, count);
    }
  }

  lemma OfferPicked(tx: seq<TxSdu>, picked: seq<nat>, limits: Limits, count: nat)
    requires WindowInv(tx, count, limits.window) && picked != []
    requires forall i | 0 <= i < |tx| :: !tx[i].ackRequested
    requires forall a | 0 <= a < |picked| ::
               picked[a] < |tx| && !InFlight(tx[picked[a]]) && tx[picked[a]].receipt < Front(tx, count) + limits.window
    ensures var after := OfferAll(tx, picked);
            && WindowInv(after, count, limits.window) && SameQueue(tx, after) && OneRequest(after)
            && Front(after, count) == Front(tx, count)
  {
    hide SduOk, InFlight, WasSent, OfferAll, Front, Ordered, GapsInWindow, AllOk, SentBelow, OneRequest, SameQueue;
    assert AllOk(tx);
    OfferedAreOk(tx, picked, Front(tx, count) + limits.window);
    OfferedSameQueue(tx, picked);
    SameQueueKeeps(tx, OfferAll(tx, picked), count, limits.window);
  }

  lemma OfferedAreOk(tx: seq<TxSdu>, picked: seq<nat>, edge: nat)
    requires AllOk(tx) && SentBelow(tx, edge) && picked != []
    requires forall a | 0 <= a < |picked| ::
               picked[a] < |tx| && !InFlight(tx[picked[a]]) && tx[picked[a]].receipt < edge
    ensures AllOk(OfferAll(tx, picked)) && SentBelow(OfferAll(tx, picked), edge)
  {
    hide SduOk;
    var after := OfferAll(tx, picked);
    forall i | 0 <= i < |tx|
      ensures SduOk(after[i]) && (WasSent(after[i]) ==> after[i].receipt < edge)
    {
      if i in picked {
        OfferKeepsSdu(tx[i], i == picked[|picked| - 1]);
      }
    }
  }

  lemma OfferedSameQueue(tx: seq<TxSdu>, picked: seq<nat>)
    requires picked != [] && forall i | 0 <= i < |tx| :: !tx[i].ackRequested
    ensures SameQueue(tx, OfferAll(tx, picked)) && OneRequest(OfferAll(tx, picked))
  {
  }
}
