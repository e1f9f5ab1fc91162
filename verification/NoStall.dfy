/** When the advanced link keeps going, and the replies after which it falls silent. */
module NoStall {
  import opened Arithmetic
  import opened Wrappers
  import opened AlPdu
  import opened Fcs
  import opened Tdma
  import opened TxReceipt
  import opened Sender
  import opened AdvancedLink
  import opened SendWindow
  import opened SendProgress
  import opened Arq
  import opened ArqSteps
  import opened ArqReset
  import opened ArqTheorems
  import opened Terminals
  import opened Conservation
  import R = Receiver

  // Every acknowledgement the sender takes off the channel reports on the whole window
  // and starts no lower than the sender's front.
  ghost predicate AnsweredInFull(s: System, a: Action) {
    a.DeliverReport? ==>
      && ReportsWindow(a.report.blocks, a.report.first, Window(s))
      && Front(s.sender.tx, |s.own.accepted|) <= a.report.first
  }

  ghost predicate AlwaysAnsweredInFull(states: seq<System>, actions: seq<Action>)
    requires IsRun(states, actions)
  {
    forall i | 0 <= i < |actions| :: AnsweredInFull(states[i], actions[i])
  }

  ghost predicate Going(s: System) {
    Alive(s.sender.tx, s.sender.limits)
  }

  lemma RestartGoes(s: System, failedNs: nat)
    requires Inv(s) && s.sender.reset.None?
    ensures Going(Restart(s, failedNs))
  {
    var t := Restart(s, failedNs);
    hide Restart;
    RestartKeeps(s, failedNs);
    RestartWaits(s, failedNs);
    WaitingGoes(t.sender.tx, |t.own.accepted|, t.sender.limits);
  }

  lemma RestartWaits(s: System, failedNs: nat)
    requires Inv(s) && s.sender.reset.None? && Inv(Restart(s, failedNs))
    ensures var t := Restart(s, failedNs);
            && AllWaiting(t.sender.tx, |t.own.accepted|) && 1 <= t.sender.limits.window
  {
    hide SenderOk, PeerOk, AirOk, InStep, HistoryOk, FirstGeneration, Resetting, Before;
  }

  lemma WaitingGoes(tx: seq<TxSdu>, count: nat, limits: Limits)
    requires AllWaiting(tx, count) && 1 <= limits.window
    ensures Alive(tx, limits)
  {
    if tx != [] {
      assert NeverOffered(tx[0]);
      assert ReadyAt(tx, 0, limits.window);
    }
  }

  lemma SenderWindow(s: System)
    requires Inv(s)
    ensures WindowInv(s.sender.tx, |s.own.accepted|, s.sender.limits.window)
  {
    hide PeerOk, AirOk, PhaseOk, HistoryOk, FirstGeneration;
  }

  lemma AcceptGoes(s: System, sdu: Bits)
    requires Inv(s) && Going(s)
    ensures Going(AcceptStep(s, sdu))
  {
    SenderWindow(s);
    hide Inv, Alive;
    var x := NewSdu(|s.own.accepted|, s.sender.nextTxNs, Pending, Segmentation.Segments(sdu));
    NewSduOk(|s.own.accepted|, s.sender.nextTxNs, sdu);
    EnqueueAlive(s.sender.tx, x, s.sender.limits);
  }

  /** One turn of a link that keeps going keeps it going, whatever it submits. */
  lemma TurnGoes(link: Link, count: nat, now: TdmaTime, routeLive: bool)
    requires WindowInv(link.tx, count, link.limits.window) && Alive(link.tx, link.limits)
    ensures AllSegmentsExist(link.tx)
    ensures var r := Submit(link, now, routeLive); r.failed.None? ==> Alive(r.link.tx, link.limits)
  {
    hide ObserveAll, Alive, AllSegmentsExist, Selected, OfferAll, Offerings, Ordered, WasSent, SduOk;
    SegmentsAllExist(link.tx);
    ObserveAllAlive(link.tx, now, link.limits, count);
    var seen := ObserveAll(link.tx, now, link.limits).tx;
    OfferAllAlive(seen, link.limits, true);
    OfferAllAlive(seen, link.limits, false);
  }

  lemma TickGoes(s: System, now: TdmaTime, routeLive: bool)
    requires Inv(s) && Going(s) && CanTick(s, now, routeLive)
    ensures Going(TickStep(s, now, routeLive))
  {
    SenderWindow(s);
    TurnGoes(s.sender, |s.own.accepted|, now, routeLive);
    TurnKeeps(s.sender, s.own, now, routeLive, s.data, s.mac);
    var r := Submit(s.sender, now, routeLive);
    OfferedKeeps(s, r);
    OfferedNoReset(s, r);
    SubmitKeepsLimits(s.sender, now, routeLive);
    hide Submit, Inv, Restart, Alive;
    if r.failed.Some? {
      RestartGoes(Offered(s, r), r.failed.value);
    }
  }

  lemma SubmitKeepsLimits(link: Link, now: TdmaTime, routeLive: bool)
    requires AllSegmentsExist(link.tx)
    ensures Submit(link, now, routeLive).link.limits == link.limits
  {
    hide ObserveAll, AllSegmentsExist, Selected, OfferAll, Offerings;
  }

  lemma DeliverReportGoes(s: System, report: Report, ready: bool, now: TdmaTime)
    requires Inv(s) && Going(s) && CanReport(s, report)
    requires ReportsWindow(report.blocks, report.first, Window(s))
    requires Front(s.sender.tx, |s.own.accepted|) <= report.first
    ensures WellFormed(s.sender.tx) && report.blocks != [] && Going(DeliverReportStep(s, report, ready, now))
  {
    SenderWindow(s);
    ReportIsSound(s, report);
    WindowReportRevives(s.sender.tx, report.blocks, s.sender.limits, |s.own.accepted|, report.first);
    AckIsSound(s, report, ready, now);
    var r := HandleAck(s.sender, AlAck(ready, report.blocks), now);
    ToldKeeps(s, report, ready, now, r);
    AckShape(s, report, ready, now);
    hide HandleAck, ApplyAck, Inv, Restart, Alive;
    if r.failed.Some? {
      assert Told(s, r).sender.reset.None?;
      RestartGoes(Told(s, r), r.failed.value);
    }
  }

  lemma MacReportsGoes(s: System, i: nat, aired: bool)
    requires Going(s) && i < |s.sender.tx| && s.sender.tx[i].attempt == Some(Pending)
    ensures Going(MacReportsStep(s, i, aired))
  {
    MacReportAlive(s.sender.tx, i, if aired then Transmitted else Discarded, s.sender.limits);
    hide Alive;
  }

  lemma StepGoes(s: System, a: Action)
    requires Inv(s) && Going(s) && Enabled(s, a) && AnsweredInFull(s, a)
    ensures Going(Step(s, a))
  {
    hide Inv, AcceptStep, MacReportsStep, TickStep, DeliverReportStep, CanAir, CanArrive, CanReport, CanTick, Alive;
    match a
    case Accept(sdu) => AcceptGoes(s, sdu);
    case MacReports(i, aired) => MacReportsGoes(s, i, aired);
    case MacAirs(m) =>
    case Tick(now, routeLive) => TickGoes(s, now, routeLive);
    case DeliverData(m) =>
    case DeliverReport(report, ready, now) => DeliverReportGoes(s, report, ready, now);
    case ConfirmReset =>
  }

  lemma {:induction false} RunGoes(states: seq<System>, actions: seq<Action>, n: nat)
    requires IsRun(states, actions) && AlwaysAnsweredInFull(states, actions) && n < |states|
    ensures Inv(states[n]) && Going(states[n])
  {
    hide Inv, Enabled, Step, AnsweredInFull;
    RunKeeps(states, actions, n);
    if n == 0 {
      assert states[0].sender.tx == [];
    } else {
      RunGoes(states, actions, n - 1);
      hide Initial, Going;
      StepGoes(states[n - 1], actions[n - 1]);
    }
  }

  // The peer's receiver takes new TL-SDUs, as far as the sender knows at `now`.
  predicate ReceiverReady(link: Link, now: TdmaTime) {
    link.receiverReady
    || (link.notReadySince.Some? && now.Diff(link.notReadySince.value) >= T271_RECEIVER_NOT_READY)
  }

  // What a turn `r` does for the queue `seen` it looked at: an acknowledgement request is
  // outstanding afterwards, and if none was before, something was handed to the MAC.
  ghost predicate Speaks(seen: seq<TxSdu>, r: Submission) {
    && Requested(r.link.tx)
    && (!Requested(seen) ==> r.offered != [] && forall o | 0 <= o < |r.offered| :: r.offered[o].pdus != [])
  }

  lemma TurnTowardsReady(link: Link, now: TdmaTime)
    requires AllSegmentsExist(link.tx) && ReceiverReady(link, now)
    ensures AllSegmentsExist(ObserveAll(link.tx, now, link.limits).tx)
    ensures var seen := ObserveAll(link.tx, now, link.limits).tx; var picked := Selected(seen, link.limits, false);
            var r := Submit(link, now, true);
            r.failed.Some? || (r.link.tx == OfferAll(seen, picked) && r.offered == Offerings(seen, picked))
  {
    ObserveKeepsSegmentsExist(link.tx, now, link.limits);
    hide ObserveAll, AllSegmentsExist, Selected, OfferAll, Offerings;
  }

  lemma RequestedSelectsNothing(tx: seq<TxSdu>, limits: Limits)
    requires Requested(tx)
    ensures Selected(tx, limits, false) == []
  {
  }

  lemma OffersSomething(tx: seq<TxSdu>, picked: seq<nat>)
    requires AllSegmentsExist(tx) && forall a | 0 <= a < |picked| :: picked[a] < |tx|
    ensures forall o | 0 <= o < |picked| :: Offerings(tx, picked)[o].pdus != []
  {
    forall o | 0 <= o < |picked|
      ensures |OfferPdus(tx[picked[o]], o + 1 == |picked|)| > 0
    {
      assert |OfferedSegments(tx[picked[o]])| > 0;
    }
  }

  lemma SelectionSpeaks(tx: seq<TxSdu>, limits: Limits, count: nat)
    requires WindowInv(tx, count, limits.window) && Alive(tx, limits) && tx != [] && AllSegmentsExist(tx)
    ensures var picked := Selected(tx, limits, false);
            && Requested(OfferAll(tx, picked))
            && (!Requested(tx) ==> picked != [] && forall o | 0 <= o < |picked| :: Offerings(tx, picked)[o].pdus != [])
  {
    var picked := Selected(tx, limits, false);
    if Requested(tx) {
      RequestedSelectsNothing(tx, limits);
      assert OfferAll(tx, picked) == tx;
    } else {
      SelectedFinds(tx, limits, count);
      hide Selected, Requested, Alive, WindowInv;
      OfferAllRequests(tx, picked);
      OffersSomething(tx, picked);
    }
  }

  lemma TurnSpeaks(link: Link, count: nat, now: TdmaTime)
    requires WindowInv(link.tx, count, link.limits.window) && Alive(link.tx, link.limits)
    requires link.tx != [] && ReceiverReady(link, now)
    ensures AllSegmentsExist(link.tx)
    ensures var r := Submit(link, now, true);
            r.failed.Some? || Speaks(ObserveAll(link.tx, now, link.limits).tx, r)
  {
    SegmentsAllExist(link.tx);
    TurnTowardsReady(link, now);
    ObserveAllKeeps(link.tx, now, link.limits, count);
    ObserveAllAlive(link.tx, now, link.limits, count);
    hide ObserveAll, Alive, WindowInv, AllSegmentsExist, Selected, OfferAll, Requested, ReceiverReady, Submit;
    SelectionSpeaks(ObserveAll(link.tx, now, link.limits).tx, link.limits, count);
  }

  /**
   No stall. If every acknowledgement request was answered with a report on the whole window,
   none older than the sender's front, then in every reachable state of a link that is not
   resetting and has TL-SDUs queued, the next turn towards a ready receiver over a live route
   ends with an acknowledgement request outstanding (having offered something if none was),
   or finds the link exhausted and resets it.
   */
  lemma NoStall(states: seq<System>, actions: seq<Action>, n: nat, now: TdmaTime)
    requires IsRun(states, actions) && AlwaysAnsweredInFull(states, actions) && n < |states|
    requires var s := states[n]; s.sender.reset.None? && s.sender.tx != [] && ReceiverReady(s.sender, now)
    ensures var link := states[n].sender;
            && AllSegmentsExist(link.tx)
            && var r := Submit(link, now, true);
               r.failed.Some? || Speaks(ObserveAll(link.tx, now, link.limits).tx, r)
  {
    hide IsRun, AlwaysAnsweredInFull, ReceiverReady, Speaks, Submit, ObserveAll, Inv;
    RunGoes(states, actions, n);
    SenderWindow(states[n]);
    TurnSpeaks(states[n].sender, |states[n].own.accepted|, now);
  }

  // ----- Both halves of that condition are needed: `StallRuns` reaches the states below

  // Every turn from here on leaves the link exactly as it is and offers nothing.
  ghost predicate Silent(link: Link) {
    && AllSegmentsExist(link.tx)
    && forall now, routeLive :: Submit(link, now, routeLive) == Submission(link, [], None)
  }

  // TL-SDUs are queued, nobody is asked to acknowledge any, and no turn changes that.
  ghost predicate Stalled(link: Link) {
    link.tx != [] && !Requested(link.tx) && Silent(link)
  }

  // A ready link that waits for nobody and never will.
  ghost predicate HasStalled(s: System) {
    s.sender.reset.None? && s.sender.receiverReady && Stalled(s.sender)
  }

  // An acknowledgement after which a link of the given queue has stalled; it does not begin a reset.
  ghost predicate Stalls(link: Link, blocks: seq<AlAckBlock>, now: TdmaTime, left: seq<TxSdu>) {
    && WellFormed(link.tx) && blocks != []
    && var r := HandleAck(link, AlAck(true, blocks), now); r.failed.None? && r.link.tx == left && Stalled(r.link)
  }

  // On the air and reported so, but with nobody asked to acknowledge it.
  predicate Abandonable(sdu: TxSdu) {
    && sdu.attempt == Some(Transmitted) && !sdu.ackRequested && sdu.sentAt.None? && sdu.reporter.Transmitted?
    && |sdu.segments| >= 1 && |sdu.segmentRetransmissions| == |sdu.segments| && sdu.pending.None?
  }

  lemma {:induction false} AbandonedStay(tx: seq<TxSdu>, now: TdmaTime, limits: Limits)
    requires forall i | 0 <= i < |tx| :: Abandonable(tx[i])
    ensures ObserveAll(tx, now, limits) == ObservedAll(tx, None) && InFlightCount(tx) == |tx|
  {
    if tx != [] {
      AbandonedStay(tx[1..], now, limits);
      assert [tx[0]] + tx[1..] == tx;
    }
  }

  lemma InFlightSelectsNothing(tx: seq<TxSdu>, limits: Limits, notReady: bool)
    requires forall i | 0 <= i < |tx| :: InFlight(tx[i])
    ensures Selected(tx, limits, notReady) == []
  {
    var inFlight := InFlightCount(tx);
    PickNothing(tx, 0, if inFlight < limits.window then limits.window - inFlight else 0, limits, notReady);
  }

  lemma {:induction false} PickNothing(tx: seq<TxSdu>, i: nat, budget: nat, limits: Limits, notReady: bool)
    requires i <= |tx| && forall j | 0 <= j < |tx| :: InFlight(tx[j])
    ensures Pick(tx, i, budget, limits, notReady) == []
    decreases |tx| - i
  {
    if i < |tx| && budget > 0 {
      PickNothing(tx, i + 1, budget, limits, notReady);
    }
  }

  lemma AbandonedAreSilent(link: Link)
    requires link.receiverReady && link.tx != [] && forall i | 0 <= i < |link.tx| :: Abandonable(link.tx[i])
    ensures Stalled(link)
  {
    assert AllSegmentsExist(link.tx);
    forall now, routeLive
      ensures Submit(link, now, routeLive) == Submission(link, [], None)
    {
      AbandonedStay(link.tx, now, link.limits);
      InFlightSelectsNothing(link.tx, link.limits, false);
      assert OfferAll(link.tx, []) == link.tx;
      hide ObserveAll, Selected, AllSegmentsExist;
    }
  }

  // Two or more TL-SDUs of a window are out, all on the air, and the last one was asked about.
  predicate WholeWindowOut(link: Link, first: nat) {
    && link.receiverReady && link.reset.None? && 2 <= |link.tx| <= link.limits.window <= 3
    && (forall i | 0 <= i < |link.tx| :: link.tx[i].ns == (first + i) % 8)
    && (forall i | 0 <= i < |link.tx| - 1 :: Abandonable(link.tx[i]))
    && var last := link.tx[|link.tx| - 1];
       last.ackRequested && WasSent(last) && |last.segments| == |last.segmentRetransmissions|
  }

  /**
   The reply to a retransmission below the window covers only the TL-SDUs from the repeated
   one on. When the acknowledgement of several was lost and the last of them is repeated, that
   reply retires the last one alone: the others stay queued with nobody asked about them, and
   no later turn offers anything.
   */
  lemma BelowWindowReplySilences(link: Link, first: nat, sdus: map<nat, R.RxSdu>, pdu: AlData, now: TdmaTime)
    requires WholeWindowOut(link, first) && pdu.ns == link.tx[|link.tx| - 1].ns
    ensures var n := |link.tx|; var reply := R.Receive(link.limits.window, (first + n) % 8, sdus, pdu).ack;
            reply.Some? && Stalls(link, reply.value, now, link.tx[..n - 1])
  {
    hide WholeWindowOut, R.Receive, Stalls;
    LastOfWindow(link, first);
    ReplyBelow(link.limits.window, first + |link.tx| - 1, sdus, pdu);
    HeardLastOnly(link, first, pdu.ns, now);
  }

  lemma LastOfWindow(link: Link, first: nat)
    requires WholeWindowOut(link, first)
    ensures 2 <= |link.tx| && link.tx[|link.tx| - 1].ns == (first + |link.tx| - 1) % 8 && 1 <= link.limits.window <= 3
  {
  }

  // All up to `last` was delivered, so it lies one below the window.
  lemma ReplyBelow(window: nat, last: nat, sdus: map<nat, R.RxSdu>, pdu: AlData)
    requires pdu.ns == last % 8 && 1 <= window <= 3
    ensures R.Receive(window, (last + 1) % 8, sdus, pdu).ack == Some([Positive(pdu.ns)])
  {
    hide R.ReceiveSegment, R.Absorb, R.AcknowledgementBlocks;
    Mod8Difference(last, last + 1);
    Mod8Difference(last + 1, last);
    var ack := R.Receive(window, (last + 1) % 8, sdus, pdu).ack;
    assert |ack.value| == 1 && ack.value[0] == Positive((pdu.ns + 0) % 8) && pdu.ns % 8 == pdu.ns;
    assert ack.value == [Positive(pdu.ns)];
  }

  lemma AbandonedIsWellFormed(sdu: TxSdu)
    requires Abandonable(sdu)
    ensures |sdu.segmentRetransmissions| == |sdu.segments|
  {
  }

  lemma ReportsSome(blocks: seq<AlAckBlock>, first: nat)
    requires ReportsWindow(blocks, first, 3)
    ensures blocks != []
  {
  }

  // A report of one block, on the last TL-SDU alone, retires that one.
  lemma LastBlockRetires(tx: seq<TxSdu>, nr: nat, limits: Limits)
    requires tx != [] && WellFormed(tx) && nr == tx[|tx| - 1].ns && WasSent(tx[|tx| - 1]) && limits.window >= 2
    requires forall i | 0 <= i < |tx| - 1 :: tx[i].ns != nr
    ensures ApplyAck(tx, [Positive(nr)], limits) == Acked(tx[..|tx| - 1], [tx[|tx| - 1]], None)
  {
    hide WasSent;
    var n := |tx|;
    var blocks := [Positive(nr)];
    assert Find(tx, nr) == n - 1;
    assert RemoveAt(tx, n - 1) == tx[..n - 1];
    assert tx[0..] == tx && blocks[1..] == [];
    assert ApplyBlock(tx, blocks[0], limits) == Acked(tx[..n - 1], [tx[n - 1]], None);
    assert ApplyBlocks(tx[..n - 1], [], limits) == Acked(tx[..n - 1], [], None);
    assert [tx[n - 1]] + [] == [tx[n - 1]];
    assert ApplyBlocks(tx, blocks, limits) == Acked(tx[..n - 1], [tx[n - 1]], None);
  }

  lemma HeardLastOnly(link: Link, first: nat, nr: nat, now: TdmaTime)
    requires WholeWindowOut(link, first) && nr == link.tx[|link.tx| - 1].ns
    ensures Stalls(link, [Positive(nr)], now, link.tx[..|link.tx| - 1])
  {
    hide WasSent, Stalled, ApplyAck, Abandonable;
    var tx, n := link.tx, |link.tx|;
    forall i | 0 <= i < n
      ensures |tx[i].segmentRetransmissions| == |tx[i].segments|
    {
      if i < n - 1 {
        AbandonedIsWellFormed(tx[i]);
      }
    }
    NumberIsLast(link, first);
    LastBlockRetires(tx, nr, link.limits);
    AbandonedAreSilent(HandleAck(link, AlAck(true, [Positive(nr)]), now).link);
  }

  lemma NumberIsLast(link: Link, first: nat)
    requires WholeWindowOut(link, first)
    ensures forall i | 0 <= i < |link.tx| - 1 :: link.tx[i].ns != link.tx[|link.tx| - 1].ns
  {
    hide Abandonable, WasSent;
    forall i | 0 <= i < |link.tx| - 1
      ensures link.tx[i].ns != link.tx[|link.tx| - 1].ns
    {
      NumbersDiffer(first, i, |link.tx| - 1);
    }
  }

  lemma NumbersDiffer(first: nat, i: nat, j: nat)
    requires i < 8 && j < 8 && i != j
    ensures (first + i) % 8 != (first + j) % 8
  {
    if (first + i) % 8 == (first + j) % 8 {
      Mod8Distinct(first + i, first + j);
    }
  }

  lemma OtherNumbersChangeNothing(tx: seq<TxSdu>, block: AlAckBlock, limits: Limits)
    requires WellFormed(tx) && forall i | 0 <= i < |tx| :: tx[i].ns != block.nr
    ensures ApplyBlock(tx, block, limits) == Acked(tx, [], None)
  {
  }

  lemma PositiveRetiresFirst(tx: seq<TxSdu>, block: AlAckBlock, limits: Limits)
    requires WellFormed(tx) && tx != [] && tx[0].ns == block.nr && WasSent(tx[0]) && block.IsPositive()
    ensures ApplyBlock(tx, block, limits) == Acked(tx[1..], [tx[0]], None)
  {
    assert RemoveAt(tx, 0) == tx[1..];
  }

  // Three blocks, none of which exhausts the link, applied one after the other.
  lemma ApplyThree(tx: seq<TxSdu>, blocks: seq<AlAckBlock>, limits: Limits, tx1: seq<TxSdu>, tx2: seq<TxSdu>,
                   tx3: seq<TxSdu>)
    requires WellFormed(tx) && WellFormed(tx1) && WellFormed(tx2) && |blocks| == 3
    requires ApplyBlock(tx, blocks[0], limits).tx == tx1 && ApplyBlock(tx, blocks[0], limits).failed.None?
    requires ApplyBlock(tx1, blocks[1], limits).tx == tx2 && ApplyBlock(tx1, blocks[1], limits).failed.None?
    requires ApplyBlock(tx2, blocks[2], limits).tx == tx3 && ApplyBlock(tx2, blocks[2], limits).failed.None?
    ensures ApplyBlocks(tx, blocks, limits).tx == tx3 && ApplyBlocks(tx, blocks, limits).failed.None?
  {
    hide ApplyBlock;
    var two, one := blocks[1..], blocks[2..];
    assert two[0] == blocks[1] && two[1..] == one && one[0] == blocks[2] && one[1..] == [];
    assert ApplyBlocks(tx3, [], limits) == Acked(tx3, [], None);
    assert ApplyBlocks(tx2, one, limits).tx == tx3 && ApplyBlocks(tx2, one, limits).failed.None?;
    assert ApplyBlocks(tx1, two, limits).tx == tx3 && ApplyBlocks(tx1, two, limits).failed.None?;
  }

  lemma StaleReportApplies(tx: seq<TxSdu>, first: nat, blocks: seq<AlAckBlock>, limits: Limits)
    requires |tx| == 2 && tx[0].ns == (first + 2) % 8 && tx[1].ns == (first + 3) % 8
    requires limits.window == 3 && ReportsWindow(blocks, first, 3) && blocks[2].IsPositive() && WasSent(tx[0])
    requires WellFormed(tx) && blocks != []
    ensures ApplyAck(tx, blocks, limits).tx == tx[1..] && ApplyAck(tx, blocks, limits).failed.None?
  {
    hide WasSent, ApplyBlock, ApplyBlocks, PassedCount;
    assert blocks[0].nr == (first + 0) % 8 && blocks[1].nr == (first + 1) % 8 && blocks[2].nr == (first + 2) % 8;
    NumbersDiffer(first, 2, 0);
    NumbersDiffer(first, 2, 1);
    NumbersDiffer(first, 3, 0);
    NumbersDiffer(first, 3, 1);
    NothingPassed(tx, first);
    OtherNumbersChangeNothing(tx, blocks[0], limits);
    OtherNumbersChangeNothing(tx, blocks[1], limits);
    PositiveRetiresFirst(tx, blocks[2], limits);
    ApplyThree(tx, blocks, limits, tx, tx, tx[1..]);
    assert tx[0..] == tx;
  }

  lemma NothingPassed(tx: seq<TxSdu>, first: nat)
    requires tx != [] && tx[0].ns == (first + 2) % 8
    ensures PassedCount(tx, first % 8, 3) == 0
  {
    Mod8Difference(first, first + 2);
  }

  // Two TL-SDUs left of a window of three: the first asked for the acknowledgement, the
  // second is on the air with nobody asked about it.
  predicate LastTwoOut(link: Link, first: nat) {
    && link.limits.window == 3 && link.receiverReady && link.reset.None? && |link.tx| == 2
    && link.tx[0].ns == (first + 2) % 8 && link.tx[1].ns == (first + 3) % 8
    && link.tx[0].ackRequested && WasSent(link.tx[0]) && Abandonable(link.tx[1])
    && |link.tx[0].segments| == |link.tx[0].segmentRetransmissions|
  }

  /**
   A report on the whole window that is older than the sender's front can retire the only
   TL-SDU an acknowledgement was asked for and leave the other on the air with nobody asked.
   */
  lemma StaleReportSilences(link: Link, first: nat, blocks: seq<AlAckBlock>, now: TdmaTime)
    requires LastTwoOut(link, first) && ReportsWindow(blocks, first, 3) && blocks[2].IsPositive()
    ensures Stalls(link, blocks, now, link.tx[1..])
  {
    hide Stalled, ApplyAck, ReportsWindow, Abandonable, WasSent;
    AbandonedIsWellFormed(link.tx[1]);
    ReportsSome(blocks, first);
    StaleReportApplies(link.tx, first, blocks, link.limits);
    AbandonedAreSilent(HandleAck(link, AlAck(true, blocks), now).link);
  }

  // ----- A Success after the peer reported not ready

  // No turn offers anything until the peer sends an AL-ACK: T.271 does not run.
  ghost predicate Muted(link: Link) {
    && AllSegmentsExist(link.tx)
    && forall now, routeLive ::
         var r := Submit(link, now, routeLive); r.offered == [] && !r.link.receiverReady && r.link.notReadySince.None?
  }

  /**
   An AL-SETUP Success clears the time of the peer's last AL-RNR. It leaves the link muted
   exactly when the peer was not ready and the Success did not complete a reset.
   */
  lemma SuccessMutes(link: Link, request: AlSetup)
    requires LinkOk(link) && IsSuccess(request)
    ensures Muted(Confirmed(link, request)) <==> !link.receiverReady && link.reset.None?
  {
    var after := Confirmed(link, request);
    SegmentsAllExist(after.tx);
    hide ObserveAll, Selected, OfferAll, Offerings, AllSegmentsExist;
    if after.receiverReady {
      assert Submit(after, TdmaTime(1, 1, 1, 0), true).link.receiverReady;
    }
  }

  /** A muted link stays muted, turn after turn. */
  lemma MutedStays(link: Link, now: TdmaTime, routeLive: bool)
    requires Muted(link)
    ensures Muted(Submit(link, now, routeLive).link)
  {
    hide ObserveAll, Selected, OfferAll, Offerings, AllSegmentsExist;
    ObserveKeepsSegmentsExist(link.tx, now, link.limits);
    assert Submit(link, now, routeLive).link.tx == ObserveAll(link.tx, now, link.limits).tx;
  }

  /**
   What that means for a queue of TL-SDUs that all wait: after a Success, and with a live route,
   they are offered in the next turn exactly when the peer was ready or was being reset.
   */
  lemma SuccessReopens(link: Link, request: AlSetup, count: nat, now: TdmaTime)
    requires LinkOk(link) && IsSuccess(request)
    requires var after := Confirmed(link, request);
             && WindowInv(after.tx, count, after.limits.window) && RetriesLeft(after.tx, after.limits)
             && after.tx != [] && forall i | 0 <= i < |after.tx| :: Idle(after.tx[i])
    ensures AllSegmentsExist(Confirmed(link, request).tx)
    ensures Turn(Confirmed(link, request), now, true).offered != [] <==> link.receiverReady || link.reset.Some?
  {
    var after := Confirmed(link, request);
    SegmentsAllExist(after.tx);
    if after.receiverReady {
      WaitingIsSeen(after.tx, now, after.limits);
      IdleIsAlive(after.tx, after.limits);
      SelectedFinds(after.tx, after.limits, count);
    }
    hide ObserveAll, Selected, OfferAll, AllSegmentsExist, WindowInv, RetriesLeft;
  }

  lemma IdleIsAlive(tx: seq<TxSdu>, limits: Limits)
    requires RetriesLeft(tx, limits) && tx != [] && limits.window >= 1 && forall i | 0 <= i < |tx| :: Idle(tx[i])
    ensures Alive(tx, limits) && !Requested(tx)
  {
    assert ReadyAt(tx, 0, limits.window);
  }

  lemma {:induction false} WaitingIsSeen(tx: seq<TxSdu>, now: TdmaTime, limits: Limits)
    requires forall i | 0 <= i < |tx| :: Idle(tx[i])
    ensures ObserveAll(tx, now, limits) == ObservedAll(tx, None)
  {
    if tx != [] {
      WaitingIsSeen(tx[1..], now, limits);
      assert [tx[0]] + tx[1..] == tx;
    }
  }
}
