/**
 Setting a link up, resetting it in place, and giving it up: what both ends agree on, how often an
 AL-SETUP is repeated, and when a link that gets no Success goes.
 */
module LinkSetup {
  import opened Wrappers
  import opened AlPdu
  import opened Tdma
  import opened TxReceipt
  import opened Sender
  import opened AdvancedLink
  import opened Terminals
  import opened Arq

  // ----- Negotiation

  // The parameters a PDU names, with one slot when it names none.
  predicate Names(setup: AlSetup, link: Link) {
    && setup.maximumSdu == link.maximumSdu && setup.limits == link.limits
    && link.slots == if setup.uplinkSlots.Some? then setup.uplinkSlots.value else 1
  }

  // As asked for where the link can do that; else within what it can do, and no more than asked for
  // unless that was nothing at all.
  predicate Within(link: Link, request: AlSetup) {
    && 1 <= link.limits.window <= 3 && 1 <= link.slots <= 3 && link.maximumSdu <= 6
    && (request.limits.window >= 1 ==> link.limits.window <= request.limits.window)
    && (RequestedSlots(request) >= 1 ==> link.slots <= RequestedSlots(request))
    && link.maximumSdu <= request.maximumSdu
    && (1 <= request.limits.window <= 3 ==> link.limits.window == request.limits.window)
    && (1 <= RequestedSlots(request) <= 3 ==> link.slots == RequestedSlots(request))
    && (request.maximumSdu <= 6 ==> link.maximumSdu == request.maximumSdu)
    && link.limits.sduRetransmissions == request.limits.sduRetransmissions
    && link.limits.segmentRetransmissions == request.limits.segmentRetransmissions
  }

  // A link on which nothing has happened yet.
  predicate IsFresh(link: Link) {
    && link.tx == [] && link.nextTxNs == 0 && link.nextRxNs == 0 && link.rxSdus == map[]
    && link.receiverReady && link.notReadySince.None? && link.reset.None?
  }

  /**
   Negotiation. A request other than a Success leaves a fresh link within what was asked and what
   can be done, and is answered with exactly the parameters of that link. The answer is a Success,
   and the link ready, unless a Service definition could not be granted as it stands: then it is a
   Service change, and the link waits for the peer's Success from now on.
   */
  lemma NegotiationAgrees(x: Terminal, request: AlSetup, now: TdmaTime)
    requires !IsSuccess(request)
    ensures var s, response := SetUp(x, request, now), SetupResponse(request);
            && s.terminal.link.Some? && s.terminal.waiting == x.waiting && response.Some?
            && var link := s.terminal.link.value;
               && IsFresh(link) && Within(link, request) && Names(response.value, link)
               && response.value.linkNumber == 0 && !response.value.asymmetric
               && (response.value.report == 0 || response.value.report == 2)
               && (response.value.report == 2 <==> request.report == 1 && !Names(request, link))
               && (link.ready <==> response.value.report == 0)
               && link.setupStartedAt == if link.ready then None else Some(now)
  {
  }

  /**
   A Success is not answered. It makes the link it finds ready with the parameters it names, keeps
   the queue and both numberings, and ends an in-place reset; without a link it opens a fresh one.
   */
  lemma SuccessConfirms(x: Terminal, request: AlSetup, now: TdmaTime)
    requires IsSuccess(request)
    ensures SetupResponse(request).None?
    ensures var s := SetUp(x, request, now);
            && s.terminal.link.Some? && s.ended == map[] && s.terminal.waiting == x.waiting
            && var link := s.terminal.link.value;
               && link.ready && link.setupStartedAt.None? && link.reset.None? && Within(link, request)
               && (x.link.None? ==> IsFresh(link))
               && (x.link.Some? ==>
                     && link.tx == x.link.value.tx && link.rxSdus == x.link.value.rxSdus
                     && link.nextTxNs == x.link.value.nextTxNs && link.nextRxNs == x.link.value.nextRxNs
                     && (x.link.value.reset.Some? ==> link.receiverReady))
  {
  }

  /** The confirmation of a reset in the composed system is the handler's own. */
  lemma ConfirmationIsTheHandlers(s: System, request: AlSetup)
    requires s.sender.reset.Some? && 1 <= Window(s) <= 3 && s.sender.setupStartedAt.None?
    requires request.limits == s.sender.limits && request.maximumSdu == s.sender.maximumSdu <= 6
    requires RequestedSlots(request) == s.sender.slots && 1 <= s.sender.slots <= 3
    ensures ConfirmResetStep(s).sender == Confirmed(s.sender, request)
  {
  }

  // ----- In-place reset

  /**
   A reset clears both directions: what was received is dropped, both numberings start at 0, the link
   is not ready, and the first AL-SETUP is with the MAC.
   */
  lemma ResetBegins(link: Link, failedNs: nat)
    requires link.reset.None?
    ensures var after := BeginReset(link, failedNs);
            && after.rxSdus == map[] && after.nextRxNs == 0 && after.nextTxNs == |after.tx| % 8
            && !after.ready && !after.receiverReady && after.notReadySince.None?
            && after.reset == Some(Reset(Pending, None, 0)) && after.limits == link.limits
  {
    hide Retained, Find;
  }

  /**
   An acknowledgement that exhausts a TL-SDU resets the link there and then: what it completed ends
   acknowledged, and what the reset gives up of the rest ends lost. Otherwise only the completed end.
   */
  lemma AckMayReset(x: Terminal, ack: AlAck, now: TdmaTime)
    requires x.link.Some? && WellFormed(x.link.value.tx) && ack.blocks != []
    ensures var r, s := HandleAck(x.link.value, ack, now), HearAck(x, ack, now);
            && s.terminal.waiting == x.waiting
            && match r.failed
               case None => s.terminal.link == Some(r.link) && s.ended == EndAcked(r.acked)
               case Some(ns) =>
                 && s.terminal.link == Some(BeginReset(r.link, ns))
                 && s.ended == EndAcked(r.acked) + EndLost(LostToReset(r.link, ns))
  {
    hide HandleAck, BeginReset, LostToReset, EndAcked, EndLost, WellFormed;
  }

  /** While it resets a link takes in neither data nor acknowledgements, offers nothing, and is not reset again. */
  lemma ResettingIgnores(link: Link, ack: AlAck, pdu: AlData, now: TdmaTime, routeLive: bool, ns: nat)
    requires link.reset.Some? && WellFormed(link.tx) && ack.blocks != [] && AllSegmentsExist(link.tx)
    ensures HandleAck(link, ack, now) == AckOutcome(link, [], None)
    ensures HandleData(link, pdu) == DataOutcome(link, None, [])
    ensures var r := Turn(link, now, routeLive);
            r.offered == [] && r.failed.None? && (r.link.Some? ==> r.link.value == link.(reset := r.link.value.reset))
    ensures BeginReset(link, ns) == link && LostToReset(link, ns) == []
  {
    hide TdmaTime.Diff;
  }

  // Reset attempt `n` is with the MAC; the first is number 0.
  predicate AttemptOut(reset: Reset, n: nat) {
    reset == Reset(Pending, None, n)
  }

  // The MAC airs the AL-SETUP, and the LLC notices at `t`.
  function SetupAired(reset: Reset, t: TdmaTime): ResetTurn {
    WatchReset(reset.(attempt := Transmitted), t)
  }

  /** While the MAC holds an AL-SETUP, and for 16 slots after it was noticed on the air, nothing is repeated. */
  lemma SetupTimerRuns(reset: Reset, n: nat, t: TdmaTime, later: TdmaTime)
    requires AttemptOut(reset, n) && later.Diff(t) < 16
    ensures WatchReset(reset, t) == ResetTurn(reset, false, false)
    ensures var aired := SetupAired(reset, t);
            !aired.repeated && !aired.exhausted && aired.reset.sentAt == Some(t)
              && WatchReset(aired.reset, later) == aired
  {
    hide TdmaTime.Diff;
    NoTimePasses(t);
  }

  /**
   After 16 slots without an answer, or at once when the MAC discards it, the AL-SETUP is repeated,
   at most three times; after the fourth attempt the link is given up.
   */
  lemma SetupTimerEnds(reset: Reset, n: nat, t: TdmaTime, later: TdmaTime)
    requires AttemptOut(reset, n) && n <= 3 && later.Diff(t) >= 16
    ensures var r := WatchReset(SetupAired(reset, t).reset, later);
            if n == 3 then r.exhausted else !r.exhausted && r.repeated && AttemptOut(r.reset, n + 1)
    ensures var r := WatchReset(reset.(attempt := Discarded), later);
            if n == 3 then r.exhausted else !r.exhausted && r.repeated && AttemptOut(r.reset, n + 1)
  {
    hide TdmaTime.Diff;
    NoTimePasses(t);
  }

  /** A turn gives a resetting link up exactly when its last AL-SETUP is exhausted. */
  lemma ResettingLinkGoes(link: Link, now: TdmaTime, routeLive: bool)
    requires link.reset.Some? && AllSegmentsExist(link.tx)
    ensures Turn(link, now, routeLive).link.None? <==> WatchReset(link.reset.value, now).exhausted
    ensures Turn(link, now, routeLive).link.Some? ==>
              Turn(link, now, routeLive).link.value.reset == Some(WatchReset(link.reset.value, now).reset)
  {
    hide TdmaTime.Diff;
  }

  // ----- A link that waits for its Success

  /** A link that waits for the peer's Success offers nothing, and goes exactly when 64 slots have passed. */
  lemma UnconfirmedLinkGoes(link: Link, started: TdmaTime, now: TdmaTime, routeLive: bool)
    requires !link.ready && link.reset.None? && link.setupStartedAt == Some(started) && AllSegmentsExist(link.tx)
    ensures var r := Turn(link, now, routeLive);
            && r.offered == [] && r.failed.None?
            && if now.Diff(started) >= 64 then r.link.None? else r.link == Some(link)
  {
    hide TdmaTime.Diff;
  }

  /** A ready link takes its turn; the queue of a link given up ends, and an exhausted link resets. */
  lemma ReadyLinkTurns(x: Terminal, now: TdmaTime, routeLive: bool)
    requires x.link.Some? && AllSegmentsExist(x.link.value.tx)
    ensures var link, s := x.link.value, EndTick(x, now, routeLive);
            && s.terminal.waiting == x.waiting
            && (Turn(link, now, routeLive).link.None? ==> s.terminal.link.None? && s.ended == EndLost(link.tx))
            && (link.ready && link.reset.None? ==>
                  var r := Submit(link, now, routeLive);
                  && Turn(link, now, routeLive).offered == r.offered
                  && s.terminal.link == Some(if r.failed.Some? then BeginReset(r.link, r.failed.value) else r.link)
                  && s.ended == if r.failed.Some? then EndLost(LostToReset(r.link, r.failed.value)) else map[])
  {
    hide TdmaTime.Diff, Submit, BeginReset, LostToReset, EndLost;
  }
}
