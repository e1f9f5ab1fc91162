/** A send queue never goes silent: what keeps an acknowledgement request or an offer coming. */
module SendProgress {
  import opened Arithmetic
  import opened Wrappers
  import opened AlPdu
  import opened Tdma
  import opened TxReceipt
  import opened Sender
  import opened SendWindow

  predicate Idle(sdu: TxSdu) {
    !InFlight(sdu) && !sdu.ackRequested
  }

  ghost predicate Requested(tx: seq<TxSdu>) {
    exists i :: 0 <= i < |tx| && tx[i].ackRequested
  }

  // Position `i` holds a TL-SDU that is inside the window and waits to be offered.
  predicate ReadyAt(tx: seq<TxSdu>, i: nat, window: nat)
    requires i < |tx|
  {
    Idle(tx[i]) && tx[i].receipt < tx[0].receipt + window
  }

  ghost predicate Live(tx: seq<TxSdu>, window: nat) {
    tx == [] || Requested(tx) || exists i :: 0 <= i < |tx| && ReadyAt(tx, i, window)
  }

  ghost predicate RetriesLeft(tx: seq<TxSdu>, limits: Limits) {
    forall i | 0 <= i < |tx| :: tx[i].retransmissions <= limits.sduRetransmissions
  }

  ghost predicate Alive(tx: seq<TxSdu>, limits: Limits) {
    Live(tx, limits.window) && RetriesLeft(tx, limits)
  }

  // ----- Selection finds what is ready

  lemma {:induction false} InFlightBound(tx: seq<TxSdu>, low: nat, high: nat, idle: nat)
    requires idle < |tx| && !InFlight(tx[idle]) && tx[idle].receipt < high
    requires forall i, j | 0 <= i < j < |tx| :: tx[i].receipt < tx[j].receipt
    requires low <= tx[0].receipt && forall i | 0 <= i < |tx| && InFlight(tx[i]) :: tx[i].receipt < high
    ensures InFlightCount(tx) < high - low
  {
    hide InFlight;
    if idle > 0 {
      InFlightBound(tx[1..], tx[0].receipt + 1, high, idle - 1);
    } else {
      InFlightBelow(tx[1..], tx[0].receipt + 1, high);
    }
  }

  lemma {:induction false} InFlightBelow(tx: seq<TxSdu>, low: nat, high: nat)
    requires forall i, j | 0 <= i < j < |tx| :: tx[i].receipt < tx[j].receipt
    requires low <= high && (tx != [] ==> low <= tx[0].receipt)
    requires forall i | 0 <= i < |tx| && InFlight(tx[i]) :: tx[i].receipt < high
    ensures InFlightCount(tx) <= high - low
  {
    hide InFlight;
    if tx != [] {
      if tx[0].receipt < high {
        InFlightBelow(tx[1..], tx[0].receipt + 1, high);
      } else {
        InFlightBelow(tx[1..], high, high);
      }
    }
  }

  lemma {:induction false} PickFinds(tx: seq<TxSdu>, i: nat, at: nat, budget: nat, limits: Limits, notReady: bool)
    requires i <= at < |tx| && budget > 0 && Offerable(tx, at, limits, notReady)
    ensures Pick(tx, i, budget, limits, notReady) != []
    decreases |tx| - i
  {
    hide Offerable;
    if !Offerable(tx, i, limits, notReady) {
      PickFinds(tx, i + 1, at, budget, limits, notReady);
    }
  }

  lemma ReadyIsOfferable(tx: seq<TxSdu>, i: nat, limits: Limits, count: nat)
    requires WindowInv(tx, count, limits.window) && RetriesLeft(tx, limits) && i < |tx| && ReadyAt(tx, i, limits.window)
    ensures Offerable(tx, i, limits, false)
  {
    hide SduOk;
    var front, id := tx[0].receipt, tx[i].receipt;
    assert front <= id;
    if GenerationEnd(tx) <= i {
      var repeat := GenerationEnd(tx);
      assert tx[repeat].ns == tx[0].ns && front < tx[repeat].receipt <= id;
      Mod8Distinct(tx[repeat].receipt, front);
    }
    Mod8Difference(id, front);
    Mod8Small(id - front);
  }

  /** With nothing outstanding and something waiting, a ready receiver is offered something. */
  lemma SelectedFinds(tx: seq<TxSdu>, limits: Limits, count: nat)
    requires WindowInv(tx, count, limits.window) && Alive(tx, limits) && tx != [] && !Requested(tx)
    ensures Selected(tx, limits, false) != []
  {
    var i :| 0 <= i < |tx| && ReadyAt(tx, i, limits.window);
    ReadyIsOfferable(tx, i, limits, count);
    InFlightBound(tx, tx[0].receipt, tx[0].receipt + limits.window, i);
    hide Offerable, WindowInv;
    PickFinds(tx, 0, i, limits.window - InFlightCount(tx), limits, false);
  }

  lemma OfferAllRequests(tx: seq<TxSdu>, picked: seq<nat>)
    requires picked != [] && forall a | 0 <= a < |picked| :: picked[a] < |tx|
    ensures Requested(OfferAll(tx, picked))
  {
    var last := picked[|picked| - 1];
    assert OfferAll(tx, picked)[last] == Offer(tx[last], true);
  }

  lemma OfferAllAlive(tx: seq<TxSdu>, limits: Limits, notReady: bool)
    requires Alive(tx, limits)
    ensures Alive(OfferAll(tx, Selected(tx, limits, notReady)), limits)
  {
    var picked := Selected(tx, limits, notReady);
    hide Offerable, Selected, ReadyAt;
    if picked == [] {
      assert OfferAll(tx, picked) == tx;
    } else {
      OfferAllRequests(tx, picked);
    }
  }

  // ----- What keeps a queue alive

  lemma EnqueueAlive(tx: seq<TxSdu>, x: TxSdu, limits: Limits)
    requires Alive(tx, limits) && NeverOffered(x) && limits.window >= 1
    ensures Alive(tx + [x], limits)
  {
    var after := tx + [x];
    assert after[|tx|] == x;
    if tx == [] {
      assert ReadyAt(after, 0, limits.window);
    } else if Requested(tx) {
      var i :| 0 <= i < |tx| && tx[i].ackRequested;
      assert after[i].ackRequested;
    } else {
      var i :| 0 <= i < |tx| && ReadyAt(tx, i, limits.window);
      assert ReadyAt(after, i, limits.window);
    }
  }

  // Entry by entry, `after` asks or is idle where `before` did, and has retries left.
  ghost predicate NoQuieter(before: seq<TxSdu>, after: seq<TxSdu>) {
    && |before| == |after|
    && forall i | 0 <= i < |before| ::
         && after[i].receipt == before[i].receipt
         && (Idle(before[i]) ==> Idle(after[i]))
         && (before[i].ackRequested ==> after[i].ackRequested || Idle(after[i]))
  }

  lemma NoQuieterKeepsLive(before: seq<TxSdu>, after: seq<TxSdu>, count: nat, window: nat)
    requires WindowInv(before, count, window) && Live(before, window) && NoQuieter(before, after)
    ensures Live(after, window)
  {
    if Requested(before) {
      var i :| 0 <= i < |before| && before[i].ackRequested;
      assert SduOk(before[i]);
      assert after[i].ackRequested || ReadyAt(after, i, window);
    } else if before != [] {
      var i :| 0 <= i < |before| && ReadyAt(before, i, window);
      assert ReadyAt(after, i, window);
    }
  }

  lemma ObserveOneNoQuieter(sdu: TxSdu, now: TdmaTime, limits: Limits)
    requires SduOk(sdu) && sdu.retransmissions <= limits.sduRetransmissions
    ensures var after := Observe(sdu, now, limits).sdu;
            && after.receipt == sdu.receipt && after.retransmissions <= limits.sduRetransmissions
            && (Idle(sdu) ==> Idle(after))
            && (sdu.ackRequested ==> after.ackRequested || Idle(after))
  {
  }

  lemma ObserveAllAlive(tx: seq<TxSdu>, now: TdmaTime, limits: Limits, count: nat)
    requires WindowInv(tx, count, limits.window) && Alive(tx, limits)
    ensures Alive(ObserveAll(tx, now, limits).tx, limits)
  {
    var after := ObserveAll(tx, now, limits).tx;
    ObserveAllPointwise(tx, now, limits);
    forall i | 0 <= i < |tx|
      ensures after[i].receipt == tx[i].receipt && after[i].retransmissions <= limits.sduRetransmissions
      ensures (Idle(tx[i]) ==> Idle(after[i])) && (tx[i].ackRequested ==> after[i].ackRequested || Idle(after[i]))
    {
      assert SduOk(tx[i]);
      ObserveOneNoQuieter(tx[i], now, limits);
    }
    hide ObserveAll, WindowInv, Idle;
    NoQuieterKeepsLive(tx, after, count, limits.window);
  }

  lemma MacReportAlive(tx: seq<TxSdu>, i: nat, state: TxState, limits: Limits)
    requires Alive(tx, limits) && i < |tx| && tx[i].attempt.Some?
    ensures Alive(tx[i := tx[i].(attempt := Some(state))], limits)
  {
    var after := tx[i := tx[i].(attempt := Some(state))];
    if Requested(tx) {
      var j :| 0 <= j < |tx| && tx[j].ackRequested;
      assert after[j].ackRequested;
    } else {
      var j :| 0 <= j < |tx| && ReadyAt(tx, j, limits.window);
      assert ReadyAt(after, j, limits.window);
    }
  }

  // ----- A report on the whole window

  // The front of the queue waits to be offered or lies at or above `edge`.
  predicate FrontReaches(tx: seq<TxSdu>, edge: nat) {
    tx == [] || !WasSent(tx[0]) || edge <= tx[0].receipt
  }

  /** Everything the peer's window has passed leaves the front. */
  lemma {:induction false} PassedReaches(tx: seq<TxSdu>, count: nat, base: nat, window: nat, low: nat)
    requires 1 <= window <= 3 && Ordered(tx, count) && SentWithin(tx, low, window) && low <= base <= low + window
    ensures FrontReaches(tx[PassedCount(tx, base % 8, window)..], base)
  {
    hide WasSent;
    if tx != [] && WasSent(tx[0]) && tx[0].receipt < base {
      Mod8Difference(base, tx[0].receipt);
      Mod8Small(base - tx[0].receipt);
      var n := PassedCount(tx[1..], base % 8, window);
      PassedReaches(tx[1..], count, base, window, low);
      assert PassedCount(tx, base % 8, window) == 1 + n by {
        if tx[0].ns == base % 8 {
          Mod8Distinct(tx[0].receipt, base);
        }
      }
      assert tx[1..][n..] == tx[1 + n..];
    } else if tx != [] && WasSent(tx[0]) {
      AboveStays(tx[0].receipt, base, window);
      assert tx[0..] == tx;
    } else {
      assert tx[0..] == tx;
    }
  }

  lemma AboveStays(id: nat, base: nat, window: nat)
    requires 1 <= window <= 3 && base <= id < base + window
    ensures id % 8 == base % 8 || (base % 8 - id % 8) % 8 > window
  {
    Mod8Difference(base, id);
    Mod8Small(base - id);
  }

  lemma BlockReaches(tx: seq<TxSdu>, block: AlAckBlock, limits: Limits, count: nat, low: nat, about: nat)
    requires WindowInv(tx, count, limits.window) && SentWithin(tx, low, limits.window)
    requires low <= about < low + 2 * limits.window && block.nr == about % 8
    requires FrontReaches(tx, about)
    ensures FrontReaches(ApplyBlock(tx, block, limits).tx, about + 1)
  {
    var p := Find(tx, block.nr);
    if p < |tx| && WasSent(tx[p]) {
      Mod8Distinct(tx[p].receipt, about);
      if !block.IsPositive() {
        ReportKeepsSdu(tx[p], block, limits);
      }
    }
  }

  lemma AllWellFormed(tx: seq<TxSdu>, count: nat, window: nat)
    requires WindowInv(tx, count, window)
    ensures WellFormed(tx)
  {
    hide SegmentsExist, WasSent;
    assert forall i | 0 <= i < |tx| :: SduOk(tx[i]);
  }

  ghost predicate AnyNumber(k: nat) {
    true
  }

  // No claim about what the peer holds.
  ghost function NoClaim(): iset<nat> {
    iset k: nat | AnyNumber(k)
  }

  lemma BlockMovesOn(tx: seq<TxSdu>, block: AlAckBlock, limits: Limits, count: nat, low: nat, about: nat)
    requires WindowInv(tx, count, limits.window) && SentWithin(tx, low, limits.window)
    requires low <= about < low + 2 * limits.window && block.nr == about % 8
    requires FrontReaches(tx, about)
    ensures WellFormed(tx)
    ensures var r := ApplyBlock(tx, block, limits);
            WindowInv(r.tx, count, limits.window) && SentWithin(r.tx, low, limits.window)
              && FrontReaches(r.tx, about + 1)
  {
    AllWellFormed(tx, count, limits.window);
    BlockKeeps(tx, block, limits, count, low, about, NoClaim());
    BlockReaches(tx, block, limits, count, low, about);
    hide WindowInv, SentWithin, FrontReaches, ApplyBlock;
  }

  lemma {:induction false} BlocksReach(tx: seq<TxSdu>, blocks: seq<AlAckBlock>, limits: Limits, count: nat, low: nat,
                                       about: nat)
    requires WindowInv(tx, count, limits.window) && SentWithin(tx, low, limits.window)
    requires forall i | 0 <= i < |blocks| :: blocks[i].nr == (about + i) % 8
    requires low <= about && about + |blocks| <= low + 2 * limits.window
    requires FrontReaches(tx, about)
    ensures WellFormed(tx)
    ensures var r := ApplyBlocks(tx, blocks, limits);
            && WindowInv(r.tx, count, limits.window) && SentWithin(r.tx, low, limits.window)
            && (r.failed.Some? || FrontReaches(r.tx, about + |blocks|))
    decreases |blocks|
  {
    AllWellFormed(tx, count, limits.window);
    hide WindowInv, SentWithin, FrontReaches, ApplyBlock;
    if blocks != [] {
      BlockMovesOn(tx, blocks[0], limits, count, low, about);
      var head := ApplyBlock(tx, blocks[0], limits);
      if head.failed.None? {
        assert forall i | 0 <= i < |blocks[1..]| :: blocks[1..][i] == blocks[i + 1];
        BlocksReach(head.tx, blocks[1..], limits, count, low, about + 1);
      }
    }
  }

  lemma {:induction false} BlocksKeepRetries(tx: seq<TxSdu>, blocks: seq<AlAckBlock>, limits: Limits)
    requires WellFormed(tx) && RetriesLeft(tx, limits)
    ensures ApplyBlocks(tx, blocks, limits).failed.Some? || RetriesLeft(ApplyBlocks(tx, blocks, limits).tx, limits)
    decreases |blocks|
  {
    hide WasSent, ApplyReport;
    if blocks != [] {
      var head := ApplyBlock(tx, blocks[0], limits);
      if head.failed.None? {
        BlocksKeepRetries(head.tx, blocks[1..], limits);
      }
    }
  }

  // Blocks for the whole window, the first about TL-SDU `base`.
  predicate ReportsWindow(blocks: seq<AlAckBlock>, base: nat, window: nat) {
    |blocks| == window && forall i | 0 <= i < |blocks| :: blocks[i].nr == (base + i) % 8
  }

  lemma WindowReportIsRecognised(blocks: seq<AlAckBlock>, base: nat, window: nat)
    requires window >= 1 && ReportsWindow(blocks, base, window)
    ensures IsWindowReport(blocks, window)
  {
    forall i | 0 <= i < |blocks| - 1
      ensures blocks[i + 1].nr == (blocks[i].nr + 1) % 8
    {
      Mod8Sum(base + i, 1);
    }
  }

  /**
   A report on the whole window that starts at or above the sender's front, whatever it says
   about each TL-SDU, leaves the queue empty, its front waiting to be offered, or the link
   to be reset.
   */
  lemma WindowReportRevives(tx: seq<TxSdu>, blocks: seq<AlAckBlock>, limits: Limits, count: nat, base: nat)
    requires WindowInv(tx, count, limits.window) && RetriesLeft(tx, limits)
    requires ReportsWindow(blocks, base, limits.window)
    requires Front(tx, count) <= base <= Front(tx, count) + limits.window
    ensures blocks != [] && WellFormed(tx)
    ensures var r := ApplyAck(tx, blocks, limits); r.failed.Some? || Alive(r.tx, limits)
  {
    var window, low := limits.window, Front(tx, count);
    AllWellFormed(tx, count, window);
    WindowReportIsRecognised(blocks, base, window);
    var rest := tx[Passed(tx, blocks, limits)..];
    AfterPassing(tx, blocks, limits, count, base);
    hide WindowInv, SentWithin, FrontReaches, RetriesLeft, Passed, Front, WasSent;
    BlocksReach(rest, blocks, limits, count, low, base);
    BlocksKeepRetries(rest, blocks, limits);
    var r := ApplyBlocks(rest, blocks, limits);
    if r.failed.None? && r.tx != [] {
      BeyondWindowWaits(r.tx, count, window, low, base + window);
    }
  }

  lemma AfterPassing(tx: seq<TxSdu>, blocks: seq<AlAckBlock>, limits: Limits, count: nat, base: nat)
    requires WindowInv(tx, count, limits.window) && RetriesLeft(tx, limits)
    requires ReportsWindow(blocks, base, limits.window) && blocks != [] && IsWindowReport(blocks, limits.window)
    requires Front(tx, count) <= base <= Front(tx, count) + limits.window
    ensures var rest := tx[Passed(tx, blocks, limits)..];
            && WindowInv(rest, count, limits.window) && SentWithin(rest, Front(tx, count), limits.window)
            && FrontReaches(rest, base) && RetriesLeft(rest, limits)
  {
    assert blocks[0].nr == (base + 0) % 8;
    PassedKeeps(tx, blocks, limits, count, base, NoClaim());
    assert SentWithin(tx, Front(tx, count), limits.window);
    PassedReaches(tx, count, base, limits.window, Front(tx, count));
    hide WindowInv, SentWithin, FrontReaches;
  }

  // Nothing was sent at or above `edge`, so a front that reaches it waits.
  lemma BeyondWindowWaits(tx: seq<TxSdu>, count: nat, window: nat, low: nat, edge: nat)
    requires WindowInv(tx, count, window) && SentWithin(tx, low, window)
    requires tx != [] && FrontReaches(tx, edge) && low + window <= edge
    ensures ReadyAt(tx, 0, window)
  {
    assert SduOk(tx[0]);
  }
}
