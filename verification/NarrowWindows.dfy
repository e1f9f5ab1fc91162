/**
 With a window of one or two a stale report does no harm: the link keeps going as long as every
 report covers the whole window. With a window of three that is not enough. Whatever the peer
 reports, only a window of one never stalls.
 */
module NarrowWindows {
  import opened Arithmetic
  import opened Wrappers
  import opened Fcs
  import opened AlPdu
  import opened Tdma
  import opened TxReceipt
  import opened Sender
  import opened AdvancedLink
  import opened SendWindow
  import opened SendProgress
  import opened Arq
  import opened ArqSteps
  import opened ArqReset
  import opened ArqTheorems
  import opened NoStall
  import opened RecoveryRuns
  import RunSteps
  import StallRuns

  // Every report the sender takes covers the whole window; it may be as old as the channel allows.
  ghost predicate CoversWindow(s: System, a: Action) {
    a.DeliverReport? ==> ReportsWindow(a.report.blocks, a.report.first, Window(s))
  }

  ghost predicate AlwaysCoversWindow(states: seq<System>, actions: seq<Action>)
    requires IsRun(states, actions)
  {
    forall i | 0 <= i < |actions| :: CoversWindow(states[i], actions[i])
  }

  // Out at the MAC or on the air with nobody asked to acknowledge it.
  predicate Unasked(sdu: TxSdu) {
    InFlight(sdu) && !sdu.ackRequested
  }

  ghost predicate NoneUnasked(tx: seq<TxSdu>) {
    forall sdu <- tx :: !Unasked(sdu)
  }

  // With a window of two only the front can be unasked, and then its neighbour is still queued.
  ghost predicate Tended(tx: seq<TxSdu>, window: nat) {
    forall i | 0 <= i < |tx| && Unasked(tx[i]) :: window == 2 && i == 0 && |tx| >= 2
      && tx[1].receipt == tx[0].receipt + 1
  }

  lemma TendedIsLive(tx: seq<TxSdu>, window: nat)
    requires Tended(tx, window) && window >= 1
    ensures Live(tx, window)
  {
    if tx != [] && !Requested(tx) {
      if Unasked(tx[0]) {
        assert !Unasked(tx[1]);
        assert ReadyAt(tx, 1, window);
      } else {
        assert ReadyAt(tx, 0, window);
      }
    }
  }

  // ----- Reports

  lemma BlockTouchesOnly(tx: seq<TxSdu>, block: AlAckBlock, limits: Limits)
    requires WellFormed(tx) && NoneUnasked(tx)
    ensures NoneUnasked(ApplyBlock(tx, block, limits).tx)
  {
    hide ApplyReport;
    var p := Find(tx, block.nr);
    if p < |tx| {
      ReportedIsIdle(tx[p], block, limits);
      assert forall sdu <- RemoveAt(tx, p) :: sdu in tx;
      assert forall sdu <- tx[p := ApplyReport(tx[p], block, limits)] ::
               sdu in tx || sdu == ApplyReport(tx[p], block, limits);
    }
  }

  lemma ReportedIsIdle(sdu: TxSdu, block: AlAckBlock, limits: Limits)
    requires |sdu.segmentRetransmissions| == |sdu.segments|
    ensures !InFlight(ApplyReport(sdu, block, limits))
  {
  }

  lemma {:induction false} BlocksTouchOnly(tx: seq<TxSdu>, blocks: seq<AlAckBlock>, limits: Limits)
    requires WellFormed(tx) && NoneUnasked(tx)
    ensures NoneUnasked(ApplyBlocks(tx, blocks, limits).tx)
    decreases |blocks|
  {
    if blocks != [] {
      BlockTouchesOnly(tx, blocks[0], limits);
      hide ApplyBlock, NoneUnasked;
      BlocksTouchOnly(ApplyBlock(tx, blocks[0], limits).tx, blocks[1..], limits);
    }
  }

  // The front is unasked, and its neighbour, the only other one the window allows, is not.
  ghost predicate FrontUnasked(tx: seq<TxSdu>, front: TxSdu, next: TxSdu) {
    |tx| >= 2 && tx[0] == front && tx[1] == next && Unasked(front) && forall i | 1 <= i < |tx| :: !Unasked(tx[i])
  }

  // A block that does not name the neighbour leaves the pair alone, or ends the front's attempt.
  lemma BlockLeavesPair(tx: seq<TxSdu>, block: AlAckBlock, limits: Limits, front: TxSdu, next: TxSdu)
    requires WellFormed(tx) && FrontUnasked(tx, front, next) && block.nr != next.ns
    ensures var after := ApplyBlock(tx, block, limits).tx; NoneUnasked(after) || FrontUnasked(after, front, next)
    ensures block.nr == front.ns ==> NoneUnasked(ApplyBlock(tx, block, limits).tx)
  {
    hide ApplyReport, Unasked, FrontUnasked, NoneUnasked, RemoveAt;
    var p := Find(tx, block.nr);
    PairIsFirst(tx, front, next);
    if p < |tx| {
      ReportedIsIdle(tx[p], block, limits);
      NotInFlight(ApplyReport(tx[p], block, limits));
      if p == 0 {
        FrontSettles(tx, front, next, ApplyReport(tx[0], block, limits));
      } else {
        LaterChanges(tx, front, next, p, ApplyReport(tx[p], block, limits));
      }
    }
  }

  lemma PairIsFirst(tx: seq<TxSdu>, front: TxSdu, next: TxSdu)
    requires FrontUnasked(tx, front, next)
    ensures |tx| >= 2 && tx[0] == front && tx[1] == next && WasSent(front)
  {
  }

  lemma NotInFlight(sdu: TxSdu)
    requires !InFlight(sdu)
    ensures !Unasked(sdu)
  {
  }

  lemma FrontSettles(tx: seq<TxSdu>, front: TxSdu, next: TxSdu, settled: TxSdu)
    requires FrontUnasked(tx, front, next) && !Unasked(settled)
    ensures NoneUnasked(RemoveAt(tx, 0)) && NoneUnasked(tx[0 := settled])
  {
    hide Unasked;
    assert RemoveAt(tx, 0) == tx[1..];
  }

  lemma LaterChanges(tx: seq<TxSdu>, front: TxSdu, next: TxSdu, p: nat, settled: TxSdu)
    requires FrontUnasked(tx, front, next) && 2 <= p < |tx| && !Unasked(settled)
    ensures FrontUnasked(RemoveAt(tx, p), front, next) && FrontUnasked(tx[p := settled], front, next)
  {
    hide Unasked;
    assert forall i | 0 <= i < |RemoveAt(tx, p)| :: RemoveAt(tx, p)[i] == tx[if i < p then i else i + 1];
  }

  lemma {:induction false} BlocksLeavePair(tx: seq<TxSdu>, blocks: seq<AlAckBlock>, limits: Limits, front: TxSdu,
                                           next: TxSdu)
    requires WellFormed(tx) && FrontUnasked(tx, front, next)
    requires (blocks != [] && blocks[0].nr == front.ns != next.ns) || forall i | 0 <= i < |blocks| ::
               blocks[i].nr != next.ns
    ensures var after := ApplyBlocks(tx, blocks, limits).tx; NoneUnasked(after) || FrontUnasked(after, front, next)
    decreases |blocks|
  {
    if blocks != [] {
      BlockLeavesPair(tx, blocks[0], limits, front, next);
      var head := ApplyBlock(tx, blocks[0], limits);
      hide ApplyBlock, NoneUnasked, FrontUnasked;
      if NoneUnasked(head.tx) {
        BlocksTouchOnly(head.tx, blocks[1..], limits);
      } else {
        BlocksLeavePair(head.tx, blocks[1..], limits, front, next);
      }
    }
  }

  // The window's passing, as far as the front is concerned.
  lemma FrontPasses(tx: seq<TxSdu>, base: nat, x: nat)
    requires tx != [] && tx[0].ns == x % 8 && WasSent(tx[0]) && base == x + 1
    ensures PassedCount(tx, base % 8, 2) >= 1
  {
    Mod8Difference(base, x);
  }

  // Which of two consecutive numbers within reach is the neighbour of `x`.
  lemma NamesNeighbour(base: nat, x: nat, k: nat)
    requires k < 2 && x <= base + 5 && base <= x + 2 && (base + k) % 8 == (x + 1) % 8
    ensures base + k == x + 1
  {
    Mod8Distinct(base + k, x + 1);
  }

  lemma ReportTends(tx: seq<TxSdu>, blocks: seq<AlAckBlock>, limits: Limits, count: nat, base: nat)
    requires WindowInv(tx, count, limits.window) && limits.window <= 2 && Tended(tx, limits.window)
    requires ReportsWindow(blocks, base, limits.window)
    requires Front(tx, count) <= base + 7 - limits.window && base <= Front(tx, count) + limits.window
    ensures WellFormed(tx) && blocks != []
    ensures Tended(ApplyAck(tx, blocks, limits).tx, limits.window)
  {
    AllOkIsWellFormed(tx);
    WindowReportIsRecognised(blocks, base, limits.window);
    var p := PassedCount(tx, blocks[0].nr, limits.window);
    if p == 0 && tx != [] && Unasked(tx[0]) {
      assert tx[0..] == tx;
      PairTends(tx, blocks, limits, count, base);
    } else {
      assert NoneUnasked(tx[p..]);
      hide NoneUnasked, WindowInv, PassedCount, Unasked;
      BlocksTouchOnly(tx[p..], blocks, limits);
      NoneIsTended(ApplyBlocks(tx[p..], blocks, limits).tx, limits.window);
    }
  }

  lemma NoneIsTended(tx: seq<TxSdu>, window: nat)
    requires NoneUnasked(tx)
    ensures Tended(tx, window)
  {
    hide Unasked;
  }

  lemma {:induction false} PairTends(tx: seq<TxSdu>, blocks: seq<AlAckBlock>, limits: Limits, count: nat, base: nat)
    requires WindowInv(tx, count, limits.window) && limits.window <= 2 && Tended(tx, limits.window) && WellFormed(tx)
    requires ReportsWindow(blocks, base, limits.window) && blocks != []
             && PassedCount(tx, blocks[0].nr, limits.window) == 0
    requires tx != [] && Unasked(tx[0])
    requires tx[0].receipt <= base + 5 && base <= tx[0].receipt + 2
    ensures Tended(ApplyBlocks(tx, blocks, limits).tx, limits.window)
  {
    var x := tx[0].receipt;
    assert limits.window == 2 && |tx| >= 2 && tx[1].receipt == x + 1;
    assert tx[0].ns == x % 8 && tx[1].ns == (x + 1) % 8 && |blocks| == 2 && blocks[0].nr == (base + 0) % 8
           && blocks[1].nr == (base + 1) % 8;
    assert FrontUnasked(tx, tx[0], tx[1]);
    hide WindowInv, SduOk, PassedCount;
    if base == x + 1 {
      FrontPasses(tx, base, x);
    } else if base == x {
      NextNumberDiffers(x);
    } else {
      forall k | 0 <= k < 2
        ensures blocks[k].nr != tx[1].ns
      {
        if (base + k) % 8 == (x + 1) % 8 {
          NamesNeighbour(base, x, k);
        }
      }
    }
    hide Unasked, FrontUnasked, NoneUnasked, ReportsWindow;
    if base != x + 1 {
      BlocksLeavePair(tx, blocks, limits, tx[0], tx[1]);
      PairIsTended(ApplyBlocks(tx, blocks, limits).tx, tx[0], tx[1]);
    }
  }

  lemma NextNumberDiffers(x: nat)
    ensures x % 8 != (x + 1) % 8
  {
  }

  lemma PairIsTended(tx: seq<TxSdu>, front: TxSdu, next: TxSdu)
    requires NoneUnasked(tx) || FrontUnasked(tx, front, next)
    requires next.receipt == front.receipt + 1
    ensures Tended(tx, 2)
  {
    hide Unasked;
  }

  // ----- Turns

  lemma AppendTends(tx: seq<TxSdu>, x: TxSdu, window: nat)
    requires Tended(tx, window) && !Unasked(x)
    ensures Tended(tx + [x], window)
  {
    hide Unasked;
  }

  lemma ReplaceTends(tx: seq<TxSdu>, i: nat, sdu: TxSdu, window: nat)
    requires Tended(tx, window) && i < |tx| && sdu.receipt == tx[i].receipt && (Unasked(sdu) ==> Unasked(tx[i]))
    ensures Tended(tx[i := sdu], window)
  {
    hide Unasked;
  }

  lemma LookLeavesAsked(sdu: TxSdu, now: TdmaTime, limits: Limits)
    requires SduOk(sdu)
    ensures var after := Observe(sdu, now, limits).sdu;
            after.receipt == sdu.receipt && (Unasked(after) ==> Unasked(sdu))
  {
    hide SegmentsExist;
  }

  lemma LookTends(tx: seq<TxSdu>, now: TdmaTime, limits: Limits, window: nat)
    requires Tended(tx, window) && AllOk(tx)
    ensures Tended(ObserveAll(tx, now, limits).tx, window)
  {
    var after := ObserveAll(tx, now, limits).tx;
    ObserveAllPointwise(tx, now, limits);
    forall i | 0 <= i < |tx|
      ensures after[i].receipt == tx[i].receipt && (Unasked(after[i]) ==> Unasked(tx[i]))
    {
      LookLeavesAsked(tx[i], now, limits);
    }
    hide Unasked, Observe, ObserveAll;
  }

  // What is picked lies at the front or next to it.
  lemma PickedAreFirst(tx: seq<TxSdu>, picked: seq<nat>, limits: Limits, count: nat)
    requires WindowInv(tx, count, limits.window) && limits.window <= 2
    requires picked == [] || exists notReady :: picked == Selected(tx, limits, notReady)
    ensures forall a | 0 <= a < |picked| ::
              && picked[a] < |tx| && picked[a] < limits.window && tx[picked[a]].receipt == tx[0].receipt + picked[a]
              && !InFlight(tx[picked[a]])
    ensures forall a, b | 0 <= a < b < |picked| :: picked[a] < picked[b]
    ensures picked != [] ==> forall i | 0 <= i < |tx| :: !tx[i].ackRequested
  {
    if picked != [] {
      var notReady :| picked == Selected(tx, limits, notReady);
      forall a | 0 <= a < |picked|
        ensures tx[picked[a]].receipt < tx[0].receipt + limits.window
      {
        OfferableIsInWindow(tx, picked[a], limits, notReady, count);
      }
      NoRequestIsNone(tx, limits, notReady);
    }
    hide SduOk, InFlight;
  }

  lemma OfferTends(tx: seq<TxSdu>, picked: seq<nat>, limits: Limits, count: nat)
    requires WindowInv(tx, count, limits.window) && limits.window <= 2 && Tended(tx, limits.window)
    requires picked == [] || exists notReady :: picked == Selected(tx, limits, notReady)
    ensures Tended(OfferAll(tx, picked), limits.window)
  {
    hide WindowInv, Selected;
    PickedAreFirst(tx, picked, limits, count);
    PickedTend(tx, picked, limits.window);
  }

  lemma PickedTend(tx: seq<TxSdu>, picked: seq<nat>, window: nat)
    requires Tended(tx, window) && window <= 2
    requires forall a | 0 <= a < |picked| ::
               picked[a] < |tx| && picked[a] < window && tx[picked[a]].receipt == tx[0].receipt + picked[a]
    requires forall a, b | 0 <= a < b < |picked| :: picked[a] < picked[b]
    ensures Tended(OfferAll(tx, picked), window)
  {
    hide InFlight;
    var after := OfferAll(tx, picked);
    forall i | 0 <= i < |tx| && Unasked(after[i])
      ensures window == 2 && i == 0 && |tx| >= 2 && tx[1].receipt == tx[0].receipt + 1
    {
      if i in picked {
        assert i != picked[|picked| - 1];
      }
    }
  }

  lemma SubmitTends(link: Link, count: nat, now: TdmaTime, routeLive: bool)
    requires WindowInv(link.tx, count, link.limits.window) && link.limits.window <= 2
             && Tended(link.tx, link.limits.window)
    ensures AllSegmentsExist(link.tx) && Tended(Submit(link, now, routeLive).link.tx, link.limits.window)
  {
    SegmentsAllExist(link.tx);
    var picked := SubmitShape(link, now, routeLive);
    ObserveAllKeeps(link.tx, now, link.limits, count);
    LookTends(link.tx, now, link.limits, link.limits.window);
    hide Submit, ObserveAll, Tended, WindowInv, Selected, AllSegmentsExist, OfferAll, Offerings;
    OfferTends(ObserveAll(link.tx, now, link.limits).tx, picked, link.limits, count);
  }

  // ----- Runs

  ghost predicate Tends(s: System) {
    Tended(s.sender.tx, Window(s))
  }

  lemma RestartTends(s: System, failedNs: nat)
    requires Inv(s) && s.sender.reset.None?
    ensures Tends(Restart(s, failedNs))
  {
    RestartKeeps(s, failedNs);
    RestartWaits(s, failedNs);
    hide Restart, Inv;
  }

  lemma AcceptTends(s: System, sdu: Bits)
    requires Tends(s)
    ensures Tends(AcceptStep(s, sdu))
  {
    hide Tended, Segmentation.Segments;
    AppendTends(s.sender.tx, NewSdu(|s.own.accepted|, s.sender.nextTxNs, Pending,
                                    Segmentation.Segments(sdu)), Window(s));
  }

  lemma MacReportsTends(s: System, i: nat, aired: bool)
    requires Tends(s) && i < |s.sender.tx| && s.sender.tx[i].attempt == Some(Pending)
    ensures Tends(MacReportsStep(s, i, aired))
  {
    hide Tended;
    ReplaceTends(s.sender.tx, i, s.sender.tx[i].(attempt := Some(if aired then Transmitted else Discarded)), Window(s));
  }

  lemma TickTends(s: System, now: TdmaTime, routeLive: bool)
    requires Inv(s) && Tends(s) && Window(s) <= 2 && CanTick(s, now, routeLive)
    ensures Tends(TickStep(s, now, routeLive))
  {
    hide Inv, Restart, Tended, Submit, WindowInv, AllSegmentsExist;
    TickNeedsNoReset(s, now, routeLive);
    SenderWindow(s);
    SubmitTends(s.sender, |s.own.accepted|, now, routeLive);
    SubmitKeepsLimits(s.sender, now, routeLive);
    var r := Submit(s.sender, now, routeLive);
    if r.failed.Some? {
      OfferedStays(s, now, routeLive);
      RestartTends(Offered(s, r), r.failed.value);
    }
  }

  lemma OfferedStays(s: System, now: TdmaTime, routeLive: bool)
    requires Inv(s) && CanTick(s, now, routeLive)
    ensures var t := Offered(s, Submit(s.sender, now, routeLive)); Inv(t) && t.sender.reset.None?
  {
    SenderIsOk(s);
    TickNeedsNoReset(s, now, routeLive);
    InStepFacts(s);
    hide Inv, Submit;
    TurnKeeps(s.sender, s.own, now, routeLive, s.data, s.mac);
    OfferedKeeps(s, Submit(s.sender, now, routeLive));
    OfferedNoReset(s, Submit(s.sender, now, routeLive));
  }

  lemma SenderIsOk(s: System)
    requires Inv(s)
    ensures SenderOk(s.sender, s.own)
  {
    hide SenderOk, PeerOk, AirOk, PhaseOk, HistoryOk;
  }

  lemma DeliverReportTends(s: System, report: Report, ready: bool, now: TdmaTime)
    requires Inv(s) && Tends(s) && Window(s) <= 2 && CanReport(s, report)
             && ReportsWindow(report.blocks, report.first, Window(s))
    ensures WellFormed(s.sender.tx) && report.blocks != [] && Tends(DeliverReportStep(s, report, ready, now))
  {
    hide Inv, Restart, Tended, HandleAck, ApplyAck, WindowInv, ReportsWindow, WellFormed;
    NoResetNow(s, report);
    SenderWindow(s);
    ReportIsSound(s, report);
    ReportTends(s.sender.tx, report.blocks, s.sender.limits, |s.own.accepted|, report.first);
    AckShape(s, report, ready, now);
    var r := HandleAck(s.sender, AlAck(ready, report.blocks), now);
    if r.failed.Some? {
      ToldKeeps(s, report, ready, now, r);
      RestartTends(Told(s, r), r.failed.value);
    }
  }

  lemma StepTends(s: System, a: Action)
    requires Inv(s) && Tends(s) && Window(s) <= 2 && Enabled(s, a) && CoversWindow(s, a)
    ensures Tends(Step(s, a))
  {
    hide Inv, AcceptStep, MacReportsStep, TickStep, DeliverReportStep, CanAir, CanArrive, CanReport, CanTick, Tends,
         ReportsWindow, WellFormed;
    match a
    case Accept(sdu) => AcceptTends(s, sdu);
    case MacReports(i, aired) => MacReportsTends(s, i, aired);
    case MacAirs(m) => QueueTends(s, Step(s, a));
    case Tick(now, routeLive) => TickTends(s, now, routeLive);
    case DeliverData(m) => QueueTends(s, Step(s, a));
    case DeliverReport(report, ready, now) => DeliverReportTends(s, report, ready, now);
    case ConfirmReset => QueueTends(s, Step(s, a));
  }

  lemma QueueTends(s: System, t: System)
    requires Tends(s) && t.sender.tx == s.sender.tx && t.sender.limits == s.sender.limits
    ensures Tends(t)
  {
    hide Tended;
  }

  lemma StartsTended(s: System)
    requires Initial(s)
    ensures Tends(s)
  {
  }

  lemma {:induction false} RunTends(states: seq<System>, actions: seq<Action>, n: nat)
    requires IsRun(states, actions) && AlwaysCoversWindow(states, actions) && n < |states| && Window(states[0]) <= 2
    ensures Tends(states[n]) && Window(states[n]) == Window(states[0])
  {
    hide Inv, Enabled, Step, CoversWindow, Tends, Initial;
    if n == 0 {
      StartsTended(states[0]);
    } else {
      RunTends(states, actions, n - 1);
      RunKeeps(states, actions, n - 1);
      StepTends(states[n - 1], actions[n - 1]);
      StepKeepsSettings(states[n - 1], actions[n - 1]);
    }
  }

  /**
   No stall, with a window of one or two, for all reports on the whole window however old the
   channel lets them be. With a window of one every report is of that kind.
   */
  lemma NoStallInNarrowWindows(states: seq<System>, actions: seq<Action>, n: nat, now: TdmaTime)
    requires IsRun(states, actions) && AlwaysCoversWindow(states, actions) && n < |states| && Window(states[0]) <= 2
    requires var s := states[n]; s.sender.reset.None? && s.sender.tx != [] && ReceiverReady(s.sender, now)
    ensures var link := states[n].sender;
            && AllSegmentsExist(link.tx)
            && var r := Submit(link, now, true);
               r.failed.Some? || Speaks(ObserveAll(link.tx, now, link.limits).tx, r)
  {
    hide IsRun, AlwaysCoversWindow, ReceiverReady, Speaks, Submit, ObserveAll, Inv, Tended, WindowInv, Initial, Live;
    RunTends(states, actions, n);
    RunWithin(states, actions, n);
    SenderWindow(states[n]);
    AtLeastOne(states[n]);
    TendedIsLive(states[n].sender.tx, Window(states[n]));
    TurnSpeaks(states[n].sender, |states[n].own.accepted|, now);
  }

  lemma AtLeastOne(s: System)
    requires Inv(s)
    ensures Window(s) >= 1
  {
  }

  lemma OneBlockCovers(s: System, report: Report)
    requires Inv(s) && CanReport(s, report) && Window(s) == 1
    ensures ReportsWindow(report.blocks, report.first, 1)
  {
    hide Inv, CanReport;
    ReportIsSound(s, report);
  }

  // ----- Exactly when a link keeps going

  ghost predicate ReachedCovering(s: System) {
    exists states, actions :: IsRun(states, actions) && AlwaysCoversWindow(states, actions) && states[|actions|] == s
  }

  /** Reports on the whole window keep every link going if and only if the window is one or two. */
  lemma WholeWindowReportsSuffice(window: nat)
    requires 1 <= window <= 3
    ensures (forall s: System | ReachedCovering(s) && Window(s) == window :: !HasStalled(s)) <==> window <= 2
  {
    if window <= 2 {
      forall s: System | ReachedCovering(s) && Window(s) == window
        ensures !HasStalled(s)
      {
        KeepsGoing(s);
      }
    } else {
      var s := WideStalls();
      assert ReachedCovering(s) && Window(s) == window && HasStalled(s);
    }
  }

  lemma KeepsGoing(s: System)
    requires ReachedCovering(s) && Window(s) <= 2
    ensures !HasStalled(s)
  {
    hide AlwaysCoversWindow, Initial, Step, Enabled, Inv, Silent, Speaks, Submit, ObserveAll;
    var states, actions :| IsRun(states, actions) && AlwaysCoversWindow(states, actions) && states[|actions|] == s;
    SameWindow(states, actions, |actions|);
    if HasStalled(s) {
      NoStallInNarrowWindows(states, actions, |actions|, RunSteps.T0);
      SilentDoesNotSpeak(s.sender, RunSteps.T0);
    }
  }

  lemma {:induction false} SameWindow(states: seq<System>, actions: seq<Action>, n: nat)
    requires IsRun(states, actions) && n < |states|
    ensures Window(states[n]) == Window(states[0])
  {
    hide Initial, Step, Enabled;
    if n > 0 {
      SameWindow(states, actions, n - 1);
      StepKeepsSettings(states[n - 1], actions[n - 1]);
    }
  }

  lemma SilentDoesNotSpeak(link: Link, now: TdmaTime)
    requires Stalled(link)
    ensures AllSegmentsExist(link.tx)
    ensures var r := Submit(link, now, true); r.failed.None? && !Speaks(ObserveAll(link.tx, now, link.limits).tx, r)
  {
    hide Submit, ObserveAll, AllSegmentsExist;
    assert Submit(link, now, true) == Submission(link, [], None);
  }

  // The stale report of `StallRuns`, taken.
  lemma WideStalls() returns (t: System)
    ensures ReachedCovering(t) && Window(t) == 3 && HasStalled(t)
  {
    hide HasStalled, Step, Enabled, RunSteps.Reached, ReportsWindow, Initial;
    var s, report := StallRuns.StaleReportStalls(RunSteps.T0);
    t := Step(s, DeliverReport(report, true, RunSteps.T0));
    ReachedOneMore(s, report, RunSteps.T0);
    StepKeepsSettings(s, DeliverReport(report, true, RunSteps.T0));
  }

  lemma ReachedOneMore(s: System, report: Report, now: TdmaTime)
    requires RunSteps.Reached(s) && Enabled(s, DeliverReport(report, true, now))
             && ReportsWindow(report.blocks, report.first, Window(s))
    ensures ReachedCovering(Step(s, DeliverReport(report, true, now)))
  {
    hide Enabled, Step, Initial, ReportsWindow;
    var states, actions :| IsRun(states, actions) && AlwaysAnsweredInFull(states, actions) && states[|actions|] == s;
    var a := DeliverReport(report, true, now);
    var states', actions' := states + [Step(s, a)], actions + [a];
    forall i | 0 <= i < |actions'|
      ensures Enabled(states'[i], actions'[i]) && states'[i + 1] == Step(states'[i], actions'[i])
              && CoversWindow(states'[i], actions'[i])
    {
      if i < |actions| {
        assert states'[i] == states[i] && actions'[i] == actions[i] && states'[i + 1] == states[i + 1];
        assert AnsweredInFull(states[i], actions[i]);
      }
    }
    assert IsRun(states', actions');
  }

  lemma OneAlwaysCovers(states: seq<System>, actions: seq<Action>)
    requires IsRun(states, actions) && Window(states[0]) == 1
    ensures AlwaysCoversWindow(states, actions)
  {
    hide Inv, Step, Initial, ReportsWindow, CanReport;
    forall i | 0 <= i < |actions|
      ensures CoversWindow(states[i], actions[i])
    {
      RunKeeps(states, actions, i);
      SameWindow(states, actions, i);
      if actions[i].DeliverReport? {
        OneBlockCovers(states[i], actions[i].report);
      }
    }
  }

  /**
   Over all runs, whatever reports the peer sends: no ready link with TL-SDUs queued ever stalls
   if and only if the window is one.
   */
  lemma OnlyOneNeverStalls(window: nat)
    requires 1 <= window <= 3
    ensures (forall s: System | RunSteps.Reachable(s) && Window(s) == window :: !HasStalled(s)) <==> window == 1
  {
    hide HasStalled, Step, Enabled, RunSteps.Reached, RunSteps.Reachable;
    if window == 1 {
      forall s: System | RunSteps.Reachable(s) && Window(s) == window
        ensures !HasStalled(s)
      {
        OneKeepsGoing(s);
      }
    } else {
      var s, report := StallRuns.BelowWindowReplyStalls(window, RunSteps.T0);
      var a := DeliverReport(report, true, RunSteps.T0);
      RunSteps.ReachedIsReachable(s);
      RunSteps.OneStepMore(s, a);
      StepKeepsSettings(s, a);
      assert Window(Step(s, a)) == window;
    }
  }

  lemma OneKeepsGoing(s: System)
    requires RunSteps.Reachable(s) && Window(s) == 1
    ensures !HasStalled(s)
  {
    hide HasStalled, AlwaysCoversWindow, Initial, Step, Enabled;
    var states, actions :| IsRun(states, actions) && states[|actions|] == s;
    SameWindow(states, actions, |actions|);
    OneAlwaysCovers(states, actions);
    KeepsGoing(s);
  }
}
