/**
 When the basic link hands a message over, again, and when it gives up: T.251 and N.252, and what
 an acknowledgement needs to complete a message.
 */
module BasicLinkTimers {
  import opened Wrappers
  import opened Tdma
  import opened TxReceipt
  import opened BasicLink

  // ----- One attempt

  // Message `m` has just been handed over: a fresh copy on every route, in its own timeslot.
  ghost predicate IsAttempt(m: Msg, now: TdmaTime, route: Route) {
    && |m.copies| == route.extraCopies + 1 && (forall i | 0 <= i < |m.copies| :: m.copies[i] == Pending)
    && m.doneAt.None? && m.observed == 0 && m.attemptAssigned == route.onAssigned
    && m.submittedAt.Some? && (now.IsValid() && 1 <= m.firstSlot <= 4 ==> IsNext(now, m.firstSlot, m.submittedAt.value))
  }

  // `time` is the first slot from `now` on with this number.
  ghost predicate IsNext(now: TdmaTime, ts: int, time: TdmaTime) {
    exists n: nat :: n < 4 && time == now.AddTimeslots(n) && now.AddTimeslots(n).t == ts
                     && forall k: nat | k < n :: now.AddTimeslots(k).t != ts
  }

  // What stays the same about a message whatever is done with it.
  predicate SameMessage(a: Msg, b: Msg) {
    IdOf(a) == IdOf(b) && a.ns == b.ns && a.firstSlot == b.firstSlot && a.fixedAssigned == b.fixedAssigned
  }

  lemma SubmitIsAttempt(m: Msg, now: TdmaTime, route: Route)
    ensures var after := Submit(m, now, route);
            && IsAttempt(after, now, route) && SameMessage(after, m) && after.retransmits == m.retransmits
            && after.reporter == m.reporter && after.everTransmitted == m.everTransmitted
  {
    hide TdmaTime.ForwardToTimeslot, TdmaTime.AddTimeslots;
    if now.IsValid() && 1 <= m.firstSlot <= 4 {
      NextTimeslot(now, m.firstSlot);
    }
  }

  // ----- T.251 and N.252

  predicate OnAssigned(m: Msg) {
    m.attemptAssigned || m.fixedAssigned
  }

  // T.251 has run out: 16 slots after the attempt was last noticed, or 288 on an assigned channel.
  // The comparison is unsigned, so a time before that passes too.
  predicate TimerOver(m: Msg, now: TdmaTime) {
    m.doneAt.Some? && !(0 <= now.Diff(m.doneAt.value) < if OnAssigned(m) then 288 else 16)
  }

  // Copies of the attempt may still be unfinished on another route.
  predicate HeldBack(m: Msg, now: TdmaTime, route: Route) {
    m.submittedAt.Some? && 0 <= now.Diff(m.submittedAt.value) < route.pendingWindow
  }

  function MostRepeats(m: Msg): nat {
    if OnAssigned(m) then 5 else 3
  }

  /**
   A message whose timer has run out and whose copies are not held back is handed over again, on
   every route, while it has repeats left: three, or five on an assigned channel. After the last
   one it is given up 4 slots, or 360, beyond the timer; otherwise it only stays as noted.
   */
  lemma RetryDecides(m0: Msg, now: TdmaTime, route: Route)
    ensures var m, r := NoteCopies(m0, now), Retry(m0, now, route);
            var due := TimerOver(m, now) && !HeldBack(m, now, route);
            && (r.again <==> due && m.retransmits < MostRepeats(m))
            && (r.exhausted <==> due && m.retransmits >= MostRepeats(m)
                                 && now.Diff(m.doneAt.value) >= if OnAssigned(m) then 648 else 20)
            && (if r.again then IsAttempt(r.msg, now, route) && SameMessage(r.msg, m)
                && r.msg.retransmits == m.retransmits + 1
                else r.msg == m)
  {
    hide TdmaTime.Diff, TdmaTime.ForwardToTimeslot, IsAttempt;
    var m := NoteCopies(m0, now);
    SubmitIsAttempt(m.(retransmits := m.retransmits + 1), now, route);
    hide NoteCopies, Submit;
  }

  // ----- What the copies of an attempt tell

  function OnAir(copies: seq<TxState>): set<nat> {
    set i: nat | i < |copies| && copies[i].IsTransmitted()
  }

  lemma {:induction false} CountsOnAir(copies: seq<TxState>)
    ensures TransmittedCount(copies) == |OnAir(copies)|
  {
    hide TxState.IsTransmitted, OnAir, TransmittedCount;
    NoneOnAir();
    if copies == [] {
    } else {
      var last := |copies| - 1;
      CountsOnAir(copies[..last]);
      CountAppends(copies[..last], copies[last]);
      assert copies[..last] + [copies[last]] == copies;
      OnAirAppends(copies[..last], copies[last]);
    }
  }

  lemma OnAirAppends(copies: seq<TxState>, x: TxState)
    ensures OnAir(copies + [x]) == OnAir(copies) + if x.IsTransmitted() then {|copies|} else {}
    ensures |copies| !in OnAir(copies)
  {
    hide TxState.IsTransmitted;
  }

  lemma NoneOnAir()
    ensures OnAir([]) == {} && TransmittedCount([]) == 0
  {
  }

  lemma {:induction false} CountAppends(copies: seq<TxState>, x: TxState)
    ensures TransmittedCount(copies + [x]) == TransmittedCount(copies) + if x.IsTransmitted() then 1 else 0
  {
    hide TxState.IsTransmitted;
    if copies == [] {
      assert (copies + [x])[1..] == [];
    } else {
      CountAppends(copies[1..], x);
      assert (copies + [x])[1..] == copies[1..] + [x];
    }
  }

  // The MAC has reported on every copy of the attempt.
  predicate AllReported(m: Msg) {
    m.copies != [] && forall i | 0 <= i < |m.copies| :: !m.copies[i].Pending?
  }

  /**
   Each further copy on the air starts the timer again; an attempt of which no copy was aired starts
   it once, when the last one is discarded; otherwise nothing changes.
   */
  lemma CopiesAreNoted(m: Msg, now: TdmaTime)
    ensures var after, count := NoteCopies(m, now), |OnAir(m.copies)|;
            if count > m.observed then
              && after.doneAt == Some(now) && after.observed == count && after.everTransmitted
              && after.reporter.IsTransmitted()
              && after == m.(doneAt := after.doneAt, observed := count, everTransmitted := true,
                             reporter := after.reporter)
            else if m.doneAt.None? && AllReported(m) then after == m.(doneAt := Some(now))
            else after == m
  {
    CountsOnAir(m.copies);
    hide OnAir;
  }

  // ----- Over the queue

  lemma {:induction false} RetryAllDecides(queue: seq<Msg>, now: TdmaTime, routes: Routes, i: nat)
    requires i < |queue|
    ensures var all, r := RetryAll(queue, now, routes), Retry(queue[i], now, routes(queue[i].ssi));
            && |all.queue| == |queue| && all.queue[i] == r.msg
            && (r.again ==> IdOf(queue[i]) in all.again) && (r.exhausted ==> queue[i].ssi in all.exhausted)
  {
    hide Retry;
    RetryAllLength(queue, now, routes);
    if i > 0 {
      RetryAllDecides(queue[1..], now, routes, i - 1);
    }
  }

  lemma {:induction false} RetryAllLength(queue: seq<Msg>, now: TdmaTime, routes: Routes)
    ensures |RetryAll(queue, now, routes).queue| == |queue|
  {
    hide Retry;
    if queue != [] {
      RetryAllLength(queue[1..], now, routes);
    }
  }

  /** Every message that is due is handed over again in that very tick. */
  lemma DueIsRepeated(l: Link, now: TdmaTime, routes: Routes, i: nat)
    requires CanTick(l, now, routes) && i < |l.queue|
    requires var m, route := NoteCopies(l.queue[i], now), routes(l.queue[i].ssi);
             TimerOver(m, now) && !HeldBack(m, now, route) && m.retransmits < MostRepeats(m)
    ensures IdOf(l.queue[i]) in Tick(l, now, routes).again
  {
    hide CanTick, Retry, NoteCopies, TimerOver, HeldBack, MostRepeats, RetryAll, LeftOver, SubmitFree;
    RetryDecides(l.queue[i], now, routes(l.queue[i].ssi));
    RetryAllDecides(l.queue, now, routes, i);
  }

  // ----- Acknowledgements

  // Some copy of the message has reached the air, in this attempt or an earlier one, or every copy
  // of this attempt has been reported on.
  predicate WasSubmitted(m: Msg) {
    m.doneAt.Some? || m.everTransmitted || m.reporter.IsTransmitted() || OnAir(m.copies) != {}
  }

  lemma AnswersWhen(m: Msg, nr: nat, sameProtection: bool)
    ensures Answers(CatchUp(m), nr, sameProtection) <==> WasSubmitted(m) && sameProtection && nr == m.ns
    ensures SameMessage(CatchUp(m), m) && CatchUp(m).submittedAt == m.submittedAt
            && CatchUp(m).retransmits == m.retransmits
    ensures CatchUp(m).copies == m.copies && CatchUp(m).doneAt == m.doneAt && CatchUp(m).observed == m.observed
  {
    CountsOnAir(m.copies);
    EmptyIsNone(OnAir(m.copies));
    hide OnAir;
  }

  lemma EmptyIsNone(s: set<nat>)
    ensures |s| == 0 <==> s == {}
  {
  }

  /**
   An acknowledgement completes the terminal's outstanding message exactly when that was submitted,
   with the protection the message had and its N(S); it touches no other message, and one it does
   not complete stays first in its queue.
   */
  lemma AckCompletes(queue: seq<Msg>, outcome: Outcome, ssi: nat, nr: nat, sameProtection: bool,
                     accepted: map<nat, nat>)
    requires AllLanes(queue, accepted)
    ensures forall i | 0 <= i < |queue| :: Open(queue[i])
    ensures var r, lane := HearAck(queue, outcome, ssi, nr, sameProtection), Lane(queue, ssi);
            && (forall other: nat | other != ssi :: Lane(r.queue, other) == Lane(queue, other))
            && if IsOut(lane) && WasSubmitted(lane[0]) && sameProtection && nr == lane[0].ns then
                 Lane(r.queue, ssi) == lane[1..] && r.outcome == outcome[IdOf(lane[0]) := Acknowledged]
               else
                 && r.outcome == outcome && |Lane(r.queue, ssi)| == |lane|
                 && (lane != [] ==> Lane(r.queue, ssi)[1..] == lane[1..] && SameMessage(Lane(r.queue, ssi)[0], lane[0]))
  {
    hide Lane, AllLanes, Open, HearAck, WasSubmitted, Answers, CatchUp;
    HearAckLane(queue, outcome, ssi, nr, sameProtection, accepted);
    var lane := Lane(queue, ssi);
    if IsOut(lane) {
      AnswersWhen(lane[0], nr, sameProtection);
    }
  }
}
