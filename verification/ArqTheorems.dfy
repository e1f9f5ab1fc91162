/** What holds in every reachable state of the advanced link. */
module ArqTheorems {
  import opened Arithmetic
  import opened Wrappers
  import opened Fcs
  import opened AlPdu
  import opened Tdma
  import opened Segmentation
  import opened Sender
  import opened AdvancedLink
  import opened Reassembly
  import opened SendWindow
  import opened ReceiveWindow
  import opened Arq
  import opened ArqSteps
  import opened ArqReset
  import R = Receiver

  lemma InitialHolds(s: System)
    requires Initial(s)
    ensures Inv(s)
  {
    FreshWindow(Window(s), []);
    assert s.delivered[|s.delivered| - s.base..] == s.heard.accepted[..s.base];
    hide WindowOk, LastAired, SenderOk, HistoryOk, AirOk, InStep;
    InitialSender(s);
    InitialHistory(s);
    InitialPhase(s);
  }

  lemma InitialSender(s: System)
    requires Initial(s)
    ensures SenderOk(s.sender, s.own) && AirOk(s.data + s.mac, s.heard, s.horizon)
  {
    hide Segments, Carries, SduOk;
  }

  lemma InitialHistory(s: System)
    requires Initial(s)
    ensures HistoryOk(s)
  {
  }

  lemma InitialPhase(s: System)
    requires Initial(s)
    ensures InStep(s)
  {
    hide Held, ClaimsHeld;
  }

  lemma OffersQueued(link: Link, g: Generation, r: Submission, data: set<OnAir>, mac: set<OnAir>)
    requires TurnOk(link, g, r, data, mac)
    ensures forall o | 0 <= o < |r.offered| :: r.offered[o].position < |link.tx|
  {
    hide SenderOk, AirOk, UnairedOk;
  }

  lemma TickKeeps(s: System, now: TdmaTime, routeLive: bool)
    requires Inv(s) && s.sender.reset.None?
    ensures CanTick(s, now, routeLive) && Inv(TickStep(s, now, routeLive))
  {
    hide Submit, Inv, Offered, Restart, SenderOk, UnairedOk, TurnOk, AllSegmentsExist, HeldBy, ReportsOk, Queued, Front;
    InStepFacts(s);
    TurnKeeps(s.sender, s.own, now, routeLive, s.data, s.mac);
    var r := Submit(s.sender, now, routeLive);
    OffersQueued(s.sender, s.own, r, s.data, s.mac);
    OfferedKeeps(s, r);
    OfferedNoReset(s, r);
    if r.failed.Some? {
      RestartKeeps(Offered(s, r), r.failed.value);
    }
  }

  lemma OfferedNoReset(s: System, r: Submission)
    requires TurnOk(s.sender, s.own, r, s.data, s.mac)
    ensures Offered(s, r).sender.reset == s.sender.reset
  {
    hide SenderOk, AirOk, UnairedOk;
  }

  lemma DeliverReportKeeps(s: System, report: Report, ready: bool, now: TdmaTime)
    requires Inv(s) && CanReport(s, report)
    ensures WellFormed(s.sender.tx) && report.blocks != [] && Inv(DeliverReportStep(s, report, ready, now))
  {
    hide HandleAck, Inv, Restart, SenderOk, UnairedOk, HeldBy, Queued, Front;
    AckIsSound(s, report, ready, now);
    var r := HandleAck(s.sender, AlAck(ready, report.blocks), now);
    ToldKeeps(s, report, ready, now, r);
    assert Told(s, r).sender.reset.None?;
    if r.failed.Some? {
      RestartKeeps(Told(s, r), r.failed.value);
    }
  }

  /** Every step keeps the invariant. */
  lemma StepKeeps(s: System, a: Action)
    requires Inv(s) && Enabled(s, a)
    ensures Inv(Step(s, a))
  {
    hide Inv, AcceptStep, MacReportsStep, TickStep, DeliverDataStep, DeliverReportStep, ConfirmResetStep, CanAir,
         CanArrive, CanReport, CanTick;
    match a
    case Accept(sdu) => AcceptKeeps(s, sdu);
    case MacReports(i, aired) => MacReportsKeeps(s, i, aired);
    case MacAirs(m) => MacAirsKeeps(s, m);
    case Tick(now, routeLive) =>
      TickNeedsNoReset(s, now, routeLive);
      TickKeeps(s, now, routeLive);
    case DeliverData(m) => DeliverDataKeeps(s, m);
    case DeliverReport(report, ready, now) => DeliverReportKeeps(s, report, ready, now);
    case ConfirmReset => ConfirmKeeps(s);
  }

  lemma TickNeedsNoReset(s: System, now: TdmaTime, routeLive: bool)
    requires CanTick(s, now, routeLive)
    ensures s.sender.reset.None?
  {
    hide Submit, AllSegmentsExist;
  }

  /** Every state of every run satisfies the invariant. */
  lemma {:induction false} RunKeeps(states: seq<System>, actions: seq<Action>, n: nat)
    requires IsRun(states, actions) && n < |states|
    ensures Inv(states[n])
  {
    hide Inv, Enabled, Step, Initial;
    if n == 0 {
      InitialHolds(states[0]);
    } else {
      RunKeeps(states, actions, n - 1);
      StepKeeps(states[n - 1], actions[n - 1]);
    }
  }

  /**
   Order and integrity. In every reachable state what the peer has handed up is a
   subsequence of what was accepted: `trace` names, in strictly increasing order, the
   arrival of each TL-SDU handed up, so none is altered, repeated or out of order, whatever
   the channel lost, repeated or reordered. Without a reset it is a prefix: nothing is left
   out either. This spans any number of resets, each of which ends with the channel drained
   and both ends starting from N(S) 0 (`ConfirmResetStep`).
   */
  lemma DeliversInOrder(states: seq<System>, actions: seq<Action>, n: nat)
    requires IsRun(states, actions) && n < |states|
    ensures var s := states[n];
            && |s.trace| == |s.delivered|
            && (forall i, j | 0 <= i < j < |s.trace| :: s.trace[i] < s.trace[j])
            && (forall i | 0 <= i < |s.trace| :: s.trace[i] < |s.arrivals| && s.delivered[i] == s.arrivals[s.trace[i]])
            && (s.resets == 0 ==> s.delivered <= s.arrivals)
  {
    hide SenderOk, PeerOk, AirOk, UnairedOk, ReportsOk, HeldBy, Queued, Front, Resetting, Before, IsRun;
    RunKeeps(states, actions, n);
    var s := states[n];
    assert s.resets == 0 ==> s.delivered == s.arrivals[..s.base] by {
      if s.resets == 0 {
        assert s.own == s.heard;
        assert s.delivered[0..] == s.delivered;
      }
    }
  }

  // The peer handed the TL-SDU numbered `k` up, or holds all its bits behind a gap.
  ghost predicate PeerHasAll(s: System, k: nat) {
    && k < |s.own.accepted|
    && (|| (k < s.base <= |s.delivered| && s.delivered[|s.delivered| - s.base + k] == s.own.accepted[k])
        || (k % 8 in s.peer.rxSdus && s.peer.rxSdus[k % 8].complete == Some(s.own.accepted[k])))
  }

  lemma HeldIsComplete(s: System, k: nat)
    requires Inv(s) && s.sender.reset.None? && HeldBy(s, k)
    ensures PeerHasAll(s, k)
  {
    hide SenderOk, AirOk, ReportsOk, UnairedOk, Queued, LastAired, WindowOk, GenerationOk, TraceOk, Before, Resting,
         FirstGeneration;
    if k < s.base {
      assert s.delivered[|s.delivered| - s.base..][k] == s.heard.accepted[..s.base][k];
    } else {
      EntryHolds(Window(s), s.peer.nextRxNs, s.peer.rxSdus, s.base, s.heard.accepted, s.horizon, LastAired(s.data), k);
    }
  }

  lemma EntryHolds(window: nat, next: nat, sdus: map<nat, R.RxSdu>, base: nat, accepted: seq<Bits>, limit: nat,
                   aired: iset<nat>, k: nat)
    requires WindowOk(window, next, sdus, base, accepted, limit, aired)
    requires base <= k < base + window && k % 8 in sdus && sdus[k % 8].complete.Some?
    ensures k < |accepted| && sdus[k % 8].complete.value == accepted[k]
  {
    hide Genuine, R.HasAllSegments, Numbered;
    AbsoluteOf(base, k);
    hide Absolute;
  }

  /**
   Nothing is forgotten. While no reset is on, every TL-SDU accepted since the last one, or kept
   by it, is still queued or the peer has all of it. Until the first reset that is everything.
   */
  lemma NothingForgotten(states: seq<System>, actions: seq<Action>, n: nat, k: nat)
    requires IsRun(states, actions) && n < |states| && states[n].sender.reset.None? && k < |states[n].own.accepted|
    ensures Queued(states[n].sender.tx, k) || PeerHasAll(states[n], k)
    ensures states[n].resets == 0 ==> states[n].own.accepted == states[n].arrivals
  {
    hide IsRun, PeerHasAll, SenderOk, PeerOk, AirOk, HistoryOk, UnairedOk, ReportsOk, Queued, HeldBy;
    RunKeeps(states, actions, n);
    if HeldBy(states[n], k) {
      HeldIsComplete(states[n], k);
    }
  }

  /**
   Acknowledgement soundness. Whenever the sender takes an acknowledgement off the channel,
   every TL-SDU it completes as acknowledged, named by a positive block or passed by the
   window, is one whose every bit the peer has.
   */
  lemma AcknowledgementSoundness(states: seq<System>, actions: seq<Action>, n: nat, report: Report, ready: bool,
                                 now: TdmaTime)
    requires IsRun(states, actions) && n < |states| && CanReport(states[n], report)
    ensures var s := states[n];
            && WellFormed(s.sender.tx) && report.blocks != []
            && forall done <- HandleAck(s.sender, AlAck(ready, report.blocks), now).acked :: PeerHasAll(s, done.receipt)
  {
    hide IsRun, Inv, HandleAck, HeldBy, PeerHasAll;
    RunKeeps(states, actions, n);
    var s := states[n];
    AckIsSound(s, report, ready, now);
    NoResetNow(s, report);
    hide CanReport;
    forall done <- HandleAck(s.sender, AlAck(ready, report.blocks), now).acked
      ensures PeerHasAll(s, done.receipt)
    {
      HeldIsComplete(s, done.receipt);
    }
  }

  lemma NoResetNow(s: System, report: Report)
    requires CanReport(s, report)
    ensures s.sender.reset.None?
  {
  }

  /**
   Send window. In every reachable state outside a reset: every PDU ever handed to the MAC
   belongs to a TL-SDU numbered below front plus window; TL-SDUs in flight are numbered from
   the front up, so their 3-bit N(S) differ; and at most one of them has an
   acknowledgement request pending.
   */
  lemma SendWindowHolds(states: seq<System>, actions: seq<Action>, n: nat)
    requires IsRun(states, actions) && n < |states| && states[n].sender.reset.None?
    ensures var s := states[n]; var tx := s.sender.tx; var front := Front(tx, |s.own.accepted|);
            && (forall m <- s.data + s.mac :: m.id < front + Window(s))
            && (forall i | 0 <= i < |tx| && InFlight(tx[i]) :: front <= tx[i].receipt < front + Window(s))
            && (forall i, j | 0 <= i < j < |tx| && InFlight(tx[i]) && InFlight(tx[j]) :: tx[i].ns != tx[j].ns)
            && (forall i, j | 0 <= i < |tx| && 0 <= j < |tx| && tx[i].ackRequested && tx[j].ackRequested :: i == j)
  {
    hide IsRun, PeerOk, HistoryOk, UnairedOk, ReportsOk, Carries, SduOk, HeldBy, Queued, Segments;
    RunKeeps(states, actions, n);
    var s := states[n];
    var tx := s.sender.tx;
    forall i, j | 0 <= i < j < |tx| && InFlight(tx[i]) && InFlight(tx[j])
      ensures tx[i].ns != tx[j].ns
    {
      if tx[i].ns == tx[j].ns {
        Mod8Distinct(tx[i].receipt, tx[j].receipt);
      }
    }
  }

  /** The technical guards of the step relation always hold: they exclude no step. */
  lemma GuardsExcludeNothing(states: seq<System>, actions: seq<Action>, n: nat, now: TdmaTime, routeLive: bool,
                             report: Report)
    requires IsRun(states, actions) && n < |states| && states[n].sender.reset.None?
    ensures CanTick(states[n], now, routeLive)
    ensures CanReport(states[n], report) ==> WellFormed(states[n].sender.tx) && report.blocks != []
  {
    hide Inv, CanTick, CanReport, WellFormed, HandleAck, TickStep;
    RunKeeps(states, actions, n);
    TickKeeps(states[n], now, routeLive);
    if CanReport(states[n], report) {
      AckIsSound(states[n], report, true, now);
    }
  }
}
