/** Over a whole run each TL-SDU is offered boundedly often before it is done or the link resets. */
module RecoveryRuns {
  import opened Wrappers
  import opened AlPdu
  import opened Fcs
  import opened Tdma
  import opened TxReceipt
  import opened Sender
  import opened AdvancedLink
  import opened SendWindow
  import opened SendProgress
  import opened Recovery
  import opened Arq
  import opened ArqSteps
  import opened ArqTheorems
  import opened NoStall

  ghost predicate OffersId(tx: seq<TxSdu>, offered: seq<Offering>, id: nat)
    requires forall o | 0 <= o < |offered| :: offered[o].position < |tx|
  {
    exists o :: 0 <= o < |offered| && tx[offered[o].position].receipt == id
  }

  // Whether this step offers the TL-SDU numbered `id` to the MAC.
  ghost predicate Offers(s: System, a: Action, id: nat) {
    a.Tick? && CanTick(s, a.now, a.routeLive) && OffersId(s.sender.tx, Submit(s.sender, a.now, a.routeLive).offered, id)
  }

  // Whether in this step the MAC discards the attempt on the TL-SDU numbered `id`.
  ghost predicate Discards(s: System, a: Action, id: nat) {
    a.MacReports? && !a.aired && a.position < |s.sender.tx| && s.sender.tx[a.position].receipt == id
  }

  ghost function OfferCount(states: seq<System>, actions: seq<Action>, lo: nat, hi: nat, id: nat): nat
    requires hi <= |actions| <= |states|
  {
    if hi <= lo then 0
    else OfferCount(states, actions, lo, hi - 1, id) + if Offers(states[hi - 1], actions[hi - 1], id) then 1 else 0
  }

  ghost function DiscardCount(states: seq<System>, actions: seq<Action>, lo: nat, hi: nat, id: nat): nat
    requires hi <= |actions| <= |states|
  {
    if hi <= lo then 0
    else DiscardCount(states, actions, lo, hi - 1, id) + if Discards(states[hi - 1], actions[hi - 1], id) then 1 else 0
  }

  // ----- Retry counters stay within their limits

  ghost predicate WithinLimits(s: System) {
    RetriesLeft(s.sender.tx, s.sender.limits)
  }

  lemma RestartWithin(s: System, failedNs: nat)
    requires Inv(s) && s.sender.reset.None?
    ensures WithinLimits(Restart(s, failedNs))
  {
    RestartGoes(s, failedNs);
    hide Restart, Live;
  }

  lemma TickFacts(s: System, now: TdmaTime, routeLive: bool)
    requires Inv(s) && CanTick(s, now, routeLive)
    ensures s.sender.reset.None? && SenderOk(s.sender, s.own) && UnairedOk(s.sender.tx, s.data, s.mac)
  {
    hide SenderOk, PeerOk, AirOk, HistoryOk, FirstGeneration, UnairedOk, ReportsOk, HeldBy, Queued, Front, Submit;
  }

  lemma TickWithin(s: System, now: TdmaTime, routeLive: bool)
    requires Inv(s) && WithinLimits(s) && CanTick(s, now, routeLive)
    ensures WithinLimits(TickStep(s, now, routeLive))
  {
    hide Submit, Inv, Restart, RetriesLeft, SenderOk, TurnOk, UnairedOk, WindowInv, AllSegmentsExist;
    TickFacts(s, now, routeLive);
    SenderWindow(s);
    TurnKeeps(s.sender, s.own, now, routeLive, s.data, s.mac);
    TurnWithin(s.sender, |s.own.accepted|, now, routeLive);
    var r := Submit(s.sender, now, routeLive);
    OfferedKeeps(s, r);
    OfferedNoReset(s, r);
    if r.failed.Some? {
      RestartWithin(Offered(s, r), r.failed.value);
    }
  }

  lemma TurnWithin(link: Link, count: nat, now: TdmaTime, routeLive: bool)
    requires WindowInv(link.tx, count, link.limits.window) && RetriesLeft(link.tx, link.limits)
             && AllSegmentsExist(link.tx)
    ensures RetriesLeft(Submit(link, now, routeLive).link.tx, Submit(link, now, routeLive).link.limits)
  {
    hide Submit, ObserveAll, AllSegmentsExist, Selected, Turned, RetriesLeft;
    var picked := SubmitShape(link, now, routeLive);
    ObserveAllWithin(link.tx, now, link.limits);
    TurnedWithin(link, ObserveAll(link.tx, now, link.limits).tx, picked, Submit(link, now, routeLive));
  }

  lemma TurnedWithin(link: Link, seen: seq<TxSdu>, picked: seq<nat>, r: Submission)
    requires Turned(link, seen, picked, r) && RetriesLeft(seen, link.limits)
    ensures RetriesLeft(r.link.tx, r.link.limits)
  {
    hide Selected, SegmentsExist, Offerings;
  }

  lemma ObserveAllWithin(tx: seq<TxSdu>, now: TdmaTime, limits: Limits)
    requires AllOk(tx) && RetriesLeft(tx, limits)
    ensures RetriesLeft(ObserveAll(tx, now, limits).tx, limits)
  {
    ObserveAllPointwise(tx, now, limits);
    forall i | 0 <= i < |tx|
      ensures Observe(tx[i], now, limits).sdu.retransmissions <= limits.sduRetransmissions
    {
      ObserveOneNoQuieter(tx[i], now, limits);
    }
    hide Observe, ObserveAll;
  }

  lemma AckKeepsRetries(tx: seq<TxSdu>, blocks: seq<AlAckBlock>, limits: Limits)
    requires WellFormed(tx) && blocks != [] && RetriesLeft(tx, limits)
    ensures ApplyAck(tx, blocks, limits).failed.Some? || RetriesLeft(ApplyAck(tx, blocks, limits).tx, limits)
  {
    hide ApplyBlocks;
    BlocksKeepRetries(tx[Passed(tx, blocks, limits)..], blocks, limits);
  }

  lemma DeliverReportWithin(s: System, report: Report, ready: bool, now: TdmaTime)
    requires Inv(s) && WithinLimits(s) && CanReport(s, report)
    ensures WellFormed(s.sender.tx) && report.blocks != [] && WithinLimits(DeliverReportStep(s, report, ready, now))
  {
    hide HandleAck, Inv, Restart, RetriesLeft, ApplyAck, SenderOk, UnairedOk, HeldBy, Queued, Front, WellFormed;
    AckIsSound(s, report, ready, now);
    var r := HandleAck(s.sender, AlAck(ready, report.blocks), now);
    ToldKeeps(s, report, ready, now, r);
    AckShape(s, report, ready, now);
    AckKeepsRetries(s.sender.tx, report.blocks, s.sender.limits);
    if r.failed.Some? {
      assert Told(s, r).sender.reset.None?;
      RestartWithin(Told(s, r), r.failed.value);
    }
  }

  lemma AcceptWithin(s: System, sdu: Bits)
    requires WithinLimits(s)
    ensures WithinLimits(AcceptStep(s, sdu))
  {
  }

  lemma StepWithin(s: System, a: Action)
    requires Inv(s) && WithinLimits(s) && Enabled(s, a)
    ensures WithinLimits(Step(s, a))
  {
    hide Inv, AcceptStep, TickStep, DeliverReportStep, CanAir, CanArrive, CanReport, CanTick;
    match a
    case Accept(sdu) => AcceptWithin(s, sdu);
    case MacReports(i, aired) =>
    case MacAirs(m) =>
    case Tick(now, routeLive) => TickWithin(s, now, routeLive);
    case DeliverData(m) =>
    case DeliverReport(report, ready, now) => DeliverReportWithin(s, report, ready, now);
    case ConfirmReset =>
  }

  lemma {:induction false} RunWithin(states: seq<System>, actions: seq<Action>, n: nat)
    requires IsRun(states, actions) && n < |states|
    ensures Inv(states[n]) && WithinLimits(states[n])
  {
    hide Inv, Enabled, Step;
    RunKeeps(states, actions, n);
    if n == 0 {
      assert states[0].sender.tx == [];
    } else {
      RunWithin(states, actions, n - 1);
      hide Initial, WithinLimits;
      StepWithin(states[n - 1], actions[n - 1]);
    }
  }

  // ----- Every step pays for the offers it makes

  ghost function Potential(s: System, id: nat): nat {
    LeftOf(s.sender.tx, id, s.sender.limits)
  }

  // `t` has at least `offers` fewer offers of `id` left than `s`, but for `discards` more.
  ghost predicate Pays(s: System, a: Action, t: System, id: nat) {
    Potential(t, id) + (if Offers(s, a, id) then 1 else 0) <= Potential(s, id) + (if Discards(s, a, id) then 1 else 0)
  }

  lemma {:induction false} LeftOfAppended(tx: seq<TxSdu>, x: TxSdu, id: nat, limits: Limits)
    requires x.receipt != id
    ensures LeftOf(tx + [x], id, limits) == LeftOf(tx, id, limits)
  {
    hide OffersLeft;
    if tx == [] {
      assert [x][1..] == [] && tx + [x] == [x];
    } else {
      assert (tx + [x])[1..] == tx[1..] + [x];
      LeftOfAppended(tx[1..], x, id, limits);
    }
  }

  lemma AcceptPays(s: System, sdu: Bits, id: nat)
    requires id < |s.own.accepted|
    ensures Pays(s, Accept(sdu), AcceptStep(s, sdu), id)
  {
    LeftOfAppended(s.sender.tx, NewSdu(|s.own.accepted|, s.sender.nextTxNs, Pending, Segmentation.Segments(sdu)), id,
                   s.sender.limits);
    hide OffersLeft;
  }

  lemma WindowIsOrdered(tx: seq<TxSdu>, count: nat, window: nat)
    requires WindowInv(tx, count, window)
    ensures Ordered(tx, count)
  {
    hide SduOk, WasSent;
  }

  lemma MacReportPays(s: System, i: nat, aired: bool, id: nat)
    requires Inv(s) && i < |s.sender.tx| && s.sender.tx[i].attempt == Some(Pending)
    ensures Pays(s, MacReports(i, aired), MacReportsStep(s, i, aired), id)
  {
    hide Inv, WindowInv, MacReportsStep, Ordered, LeftOf;
    SenderWindow(s);
    var tx, count := s.sender.tx, |s.own.accepted|;
    var after := tx[i := tx[i].(attempt := Some(if aired then Transmitted else Discarded))];
    WindowIsOrdered(tx, count, s.sender.limits.window);
    MacReportsMoves(s, i, aired);
    OneEntryChanged(tx, after, i, id, s.sender.limits, count);
  }

  lemma OneEntryChanged(tx: seq<TxSdu>, after: seq<TxSdu>, i: nat, id: nat, limits: Limits, count: nat)
    requires Ordered(tx, count) && i < |tx| == |after| && after == tx[i := after[i]]
             && after[i].receipt == tx[i].receipt
    requires after[i].ns == tx[i].ns
    ensures LeftOf(after, id, limits) ==
            if tx[i].receipt == id then OffersLeft(after[i], limits) else LeftOf(tx, id, limits)
    ensures tx[i].receipt == id ==> LeftOf(tx, id, limits) == OffersLeft(tx[i], limits)
  {
    hide OffersLeft;
    assert Ordered(after, count);
    if tx[i].receipt == id {
      OrderedLeftOf(tx, id, limits, count, i);
      OrderedLeftOf(after, id, limits, count, i);
    } else if j :| 0 <= j < |tx| && tx[j].receipt == id {
      OrderedLeftOf(tx, id, limits, count, j);
      OrderedLeftOf(after, id, limits, count, j);
    } else {
      LeftOfNone(tx, id, limits);
      LeftOfNone(after, id, limits);
    }
  }

  lemma TurnPays(link: Link, g: Generation, now: TdmaTime, routeLive: bool, id: nat)
    requires SenderOk(link, g) && RetriesLeft(link.tx, link.limits) && AllSegmentsExist(link.tx)
    ensures var r := Submit(link, now, routeLive);
            && (forall o | 0 <= o < |r.offered| :: r.offered[o].position < |link.tx|)
            && LeftOf(r.link.tx, id, link.limits) + (if OffersId(link.tx, r.offered, id) then 1 else 0)
               <= LeftOf(link.tx, id, link.limits)
  {
    var count, limits := |g.accepted|, link.limits;
    var seen := ObserveAll(link.tx, now, limits).tx;
    var picked := SubmitShape(link, now, routeLive);
    ObserveAllKeeps(link.tx, now, limits, count);
    ObserveAllUses(link.tx, now, limits);
    UsesUpLowers(link.tx, seen, id, limits, count);
    hide Submit, ObserveAll, SduOk, UsesUp, LeftOf, AllSegmentsExist, RetriesLeft;
    OfferedPays(link, seen, picked, Submit(link, now, routeLive), count, id);
  }

  lemma OfferedPays(link: Link, seen: seq<TxSdu>, picked: seq<nat>, r: Submission, count: nat, id: nat)
    requires WindowInv(seen, count, link.limits.window) && OneRequest(seen) && SameQueue(link.tx, seen)
    requires Turned(link, seen, picked, r)
    ensures forall o | 0 <= o < |r.offered| :: r.offered[o].position < |link.tx|
    ensures LeftOf(r.link.tx, id, link.limits) + (if OffersId(link.tx, r.offered, id) then 1 else 0)
            <= LeftOf(seen, id, link.limits)
  {
    hide SduOk, LeftOf, Selected, OfferAll, InFlight, SegmentsExist;
    SelectedIsPickable(seen, picked, link.limits, count);
    OfferAllUses(seen, picked, link.limits, count, id);
    hide WindowInv, OneRequest, Front;
    assert |r.offered| == |picked| && forall o | 0 <= o < |picked| :: r.offered[o].position == picked[o];
    hide Turned;
    assert OffersId(link.tx, r.offered, id) <==> Picks(seen, picked, id);
  }

  lemma TickPays(s: System, now: TdmaTime, routeLive: bool, id: nat)
    requires Inv(s) && WithinLimits(s) && CanTick(s, now, routeLive) && TickStep(s, now, routeLive).resets == s.resets
    ensures Pays(s, Tick(now, routeLive), TickStep(s, now, routeLive), id)
  {
    hide Submit, Inv, LeftOf, OffersId, RetriesLeft, TickStep, AllSegmentsExist, SenderOk, TurnOk, UnairedOk;
    TickFacts(s, now, routeLive);
    TurnKeeps(s.sender, s.own, now, routeLive, s.data, s.mac);
    TurnPays(s.sender, s.own, now, routeLive, id);
    SubmitKeepsLimits(s.sender, now, routeLive);
    TickWithoutReset(s, now, routeLive);
  }

  lemma TickWithoutReset(s: System, now: TdmaTime, routeLive: bool)
    requires CanTick(s, now, routeLive) && TickStep(s, now, routeLive).resets == s.resets
    ensures TickStep(s, now, routeLive) == Offered(s, Submit(s.sender, now, routeLive))
  {
    hide Submit, AllSegmentsExist;
  }

  lemma DeliverReportPays(s: System, report: Report, ready: bool, now: TdmaTime, id: nat)
    requires Inv(s) && WithinLimits(s) && CanReport(s, report) && Countable(s.sender.limits)
    ensures WellFormed(s.sender.tx) && report.blocks != []
    ensures DeliverReportStep(s, report, ready, now).resets == s.resets ==>
              Pays(s, DeliverReport(report, ready, now), DeliverReportStep(s, report, ready, now), id)
  {
    hide Inv, HandleAck, LeftOf, RetriesLeft, Sound, AsksForSome, WindowInv, Ordered, ApplyAck, UsesUp, HeldSet, Front,
         WellFormed, OneRequest, PendingTouched, UnairedOk, Queued, HeldBy;
    SenderWindow(s);
    ReportIsSound(s, report);
    AckIsSound(s, report, ready, now);
    AckShape(s, report, ready, now);
    var tx, limits, count := s.sender.tx, s.sender.limits, |s.own.accepted|;
    var r := HandleAck(s.sender, AlAck(ready, report.blocks), now);
    WindowIsOrdered(tx, count, limits.window);
    WindowIsOrdered(r.link.tx, count, limits.window);
    AckUses(tx, report.blocks, limits, count, report.first, HeldSet(s));
    UsesUpLowers(tx, r.link.tx, id, limits, count);
  }

  lemma StepPays(s: System, a: Action, id: nat)
    requires Inv(s) && WithinLimits(s) && Enabled(s, a) && Countable(s.sender.limits)
    requires id < |s.own.accepted| && Step(s, a).resets == s.resets
    ensures Pays(s, a, Step(s, a), id)
  {
    hide Inv, AcceptStep, MacReportsStep, TickStep, DeliverReportStep, CanAir, CanArrive, CanReport, CanTick, LeftOf,
         OffersId, Pays;
    match a
    case Accept(sdu) => AcceptPays(s, sdu, id);
    case MacReports(i, aired) => MacReportPays(s, i, aired, id);
    case MacAirs(m) => QuietPays(s, a, id);
    case Tick(now, routeLive) => TickPays(s, now, routeLive, id);
    case DeliverData(m) => QuietPays(s, a, id);
    case DeliverReport(report, ready, now) => DeliverReportPays(s, report, ready, now, id);
    case ConfirmReset => QuietPays(s, a, id);
  }

  lemma QuietPays(s: System, a: Action, id: nat)
    requires Enabled(s, a) && (a.MacAirs? || a.DeliverData? || a.ConfirmReset?)
    ensures Pays(s, a, Step(s, a), id)
  {
    hide LeftOf, CanAir, CanArrive, CanReport, CanTick, OffersId;
  }

  // No reset begins between the two ends.
  ghost predicate NoResetBetween(states: seq<System>, lo: nat, hi: nat)
    requires lo <= hi < |states|
  {
    forall i | lo <= i < hi :: states[i + 1].resets == states[i].resets
  }

  lemma RestartKeepsLimits(s: System, failedNs: nat)
    ensures Restart(s, failedNs).sender.limits == s.sender.limits && Restart(s, failedNs).resets == s.resets + 1
  {
    hide Retained, Find;
  }

  lemma TickKeepsSettings(s: System, now: TdmaTime, routeLive: bool)
    requires CanTick(s, now, routeLive)
    ensures var t := TickStep(s, now, routeLive);
            t.sender.limits == s.sender.limits && (t.resets == s.resets ==> t.own == s.own)
  {
    SubmitKeepsLimits(s.sender, now, routeLive);
    var r := Submit(s.sender, now, routeLive);
    hide Submit, Restart;
    if r.failed.Some? {
      RestartKeepsLimits(Offered(s, r), r.failed.value);
    }
  }

  lemma DeliverReportKeepsSettings(s: System, report: Report, ready: bool, now: TdmaTime)
    requires WellFormed(s.sender.tx) && report.blocks != []
    ensures var t := DeliverReportStep(s, report, ready, now);
            t.sender.limits == s.sender.limits && (t.resets == s.resets ==> t.own == s.own)
  {
    var r := HandleAck(s.sender, AlAck(ready, report.blocks), now);
    assert r.link.limits == s.sender.limits;
    hide HandleAck, Restart;
    if r.failed.Some? {
      RestartKeepsLimits(Told(s, r), r.failed.value);
    }
  }

  /** The negotiated limits stay, and without a reset so does the numbering. */
  lemma StepKeepsSettings(s: System, a: Action)
    requires Enabled(s, a)
    ensures Step(s, a).sender.limits == s.sender.limits
    ensures Step(s, a).resets == s.resets ==> |s.own.accepted| <= |Step(s, a).own.accepted|
  {
    hide TickStep, DeliverReportStep, CanAir, CanArrive, CanReport, CanTick;
    match a
    case Accept(sdu) => hide Segmentation.Segments;
    case MacReports(i, aired) => hide OfTlSdu;
    case MacAirs(m) =>
    case Tick(now, routeLive) => TickKeepsSettings(s, now, routeLive);
    case DeliverData(m) => hide HandleData;
    case DeliverReport(report, ready, now) => DeliverReportKeepsSettings(s, report, ready, now);
    case ConfirmReset =>
  }

  lemma {:induction false} SettingsStay(states: seq<System>, actions: seq<Action>, lo: nat, hi: nat)
    requires IsRun(states, actions) && lo <= hi < |states| && NoResetBetween(states, lo, hi)
    ensures states[hi].sender.limits == states[lo].sender.limits
            && |states[lo].own.accepted| <= |states[hi].own.accepted|
    decreases hi
  {
    hide Enabled, Step, Initial;
    if lo < hi {
      SettingsStay(states, actions, lo, hi - 1);
      StepKeepsSettings(states[hi - 1], actions[hi - 1]);
    }
  }

  lemma {:induction false} RunPays(states: seq<System>, actions: seq<Action>, lo: nat, hi: nat, id: nat)
    requires IsRun(states, actions) && lo <= hi < |states| && NoResetBetween(states, lo, hi)
    requires Countable(states[lo].sender.limits) && id < |states[lo].own.accepted|
    ensures Potential(states[hi], id) + OfferCount(states, actions, lo, hi, id)
            <= Potential(states[lo], id) + DiscardCount(states, actions, lo, hi, id)
    decreases hi
  {
    hide Enabled, Step, Initial, Inv, Potential, Offers, Discards, WithinLimits;
    if lo < hi {
      RunPays(states, actions, lo, hi - 1, id);
      SettingsStay(states, actions, lo, hi - 1);
      RunWithin(states, actions, hi - 1);
      assert states[hi - 1 + 1] == Step(states[hi - 1], actions[hi - 1]);
      assert states[hi - 1 + 1].resets == states[hi - 1].resets;
      StepPays(states[hi - 1], actions[hi - 1], id);
    }
  }

  lemma {:induction false} LeftOfBound(tx: seq<TxSdu>, id: nat, limits: Limits, g: Generation)
    requires forall i | 0 <= i < |tx| ::
               tx[i].receipt < |g.accepted| && tx[i].segments == Segmentation.Segments(g.accepted[tx[i].receipt])
    requires WellFormed(tx) && id < |g.accepted|
    ensures LeftOf(tx, id, limits) <= OfferBound(|Segmentation.Segments(g.accepted[id])|, limits)
  {
    hide OffersLeft, Segmentation.Segments;
    if tx != [] {
      if tx[0].receipt == id {
        OffersAreBounded(tx[0], limits);
      } else {
        LeftOfBound(tx[1..], id, limits, g);
      }
    }
  }

  lemma PotentialBound(s: System, id: nat)
    requires Inv(s) && id < |s.own.accepted|
    ensures Potential(s, id) <= OfferBound(|Segmentation.Segments(s.own.accepted[id])|, s.sender.limits)
  {
    SenderWindow(s);
    AllWellFormed(s.sender.tx, |s.own.accepted|, s.sender.limits.window);
    QueueIsAccepted(s);
    hide Inv;
    LeftOfBound(s.sender.tx, id, s.sender.limits, s.own);
  }

  lemma QueueIsAccepted(s: System)
    requires Inv(s)
    ensures forall i | 0 <= i < |s.sender.tx| ::
              && s.sender.tx[i].receipt < |s.own.accepted|
              && s.sender.tx[i].segments == Segmentation.Segments(s.own.accepted[s.sender.tx[i].receipt])
  {
    hide PeerOk, AirOk, PhaseOk, HistoryOk, FirstGeneration, SduOk, Segmentation.Segments;
  }

  /**
   Recovery terminates. Over any part of a run without a reset, a TL-SDU of `n` segments is
   offered to the MAC at most `6 * (N.273 + 1 + n * (N.274 + 1)) + 6` times, plus once for
   every attempt on it that the MAC discarded; then it is acknowledged or the link resets.
   */
  lemma RecoveryTerminates(states: seq<System>, actions: seq<Action>, lo: nat, hi: nat, id: nat)
    requires IsRun(states, actions) && lo <= hi < |states| && NoResetBetween(states, lo, hi)
    requires Countable(states[lo].sender.limits) && id < |states[lo].own.accepted|
    ensures OfferCount(states, actions, lo, hi, id)
            <= OfferBound(|Segmentation.Segments(states[lo].own.accepted[id])|, states[lo].sender.limits)
               + DiscardCount(states, actions, lo, hi, id)
  {
    hide Inv, IsRun, NoResetBetween, Potential, OfferBound, Segmentation.Segments;
    RunKeeps(states, actions, lo);
    RunPays(states, actions, lo, hi, id);
    PotentialBound(states[lo], id);
  }
}
