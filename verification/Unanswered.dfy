/**
 A TL-SDU nobody answers: what T.252 makes of it attempt by attempt, up to the reset. Attempts are
 numbered from 0; every sixth one offers the whole TL-SDU, the others its final segment alone.
 */
module Unanswered {
  import opened Wrappers
  import opened Tdma
  import opened TxReceipt
  import opened Sender
  import opened SendProgress
  import opened Offers

  // The MAC airs the attempt, which the LLC notices at `t`.
  function Aired(sdu: TxSdu, t: TdmaTime, limits: Limits): Observed {
    Observe(Offer(sdu, true).(attempt := Some(Transmitted)), t, limits)
  }

  // A TL-SDU that waits for attempt number `n`, no answer having come to any before.
  predicate WaitsForAttempt(sdu: TxSdu, n: nat) {
    && Idle(sdu) && |sdu.segments| >= 1 && (sdu.reporter.Pending? || sdu.reporter.Transmitted?)
    && sdu.ackRepeats == n % 6 && sdu.retransmissions == n / 6
    && Due(sdu) == if n % 6 == 0 then AllNumbers(sdu) else [|sdu.segments| - 1]
  }

  // Nothing but the recovery state differs.
  predicate SameTlSdu(a: TxSdu, b: TxSdu) {
    && a.receipt == b.receipt && a.ns == b.ns && a.segments == b.segments
    && a.segmentRetransmissions == b.segmentRetransmissions
  }

  lemma FirstAttempt(receipt: nat, ns: nat, segments: seq<seq<bool>>)
    requires segments != []
    ensures WaitsForAttempt(NewSdu(receipt, ns, Pending, segments), 0)
  {
  }

  /** The timer runs from when the attempt was noticed on the air, and until it ends nothing changes. */
  lemma TimerRuns(sdu: TxSdu, n: nat, t: TdmaTime, later: TdmaTime, limits: Limits)
    requires WaitsForAttempt(sdu, n) && later.Diff(t) < 36
    ensures var aired := Aired(sdu, t, limits);
            && !aired.failed && aired.sdu.ackRequested && aired.sdu.sentAt == Some(t)
            && Observe(aired.sdu, later, limits) == aired
  {
    hide TdmaTime.Diff;
    NoTimePasses(t);
  }

  /**
   After 36 slots without an answer the TL-SDU waits for the next attempt, or, if that was the last
   of the 6 * (N.273 + 1) attempts, the link is exhausted.
   */
  lemma TimerEnds(sdu: TxSdu, n: nat, t: TdmaTime, later: TdmaTime, limits: Limits)
    requires WaitsForAttempt(sdu, n) && later.Diff(t) >= 36 && n < 6 * (limits.sduRetransmissions + 1)
    ensures var after := Observe(Aired(sdu, t, limits).sdu, later, limits);
            if n + 1 == 6 * (limits.sduRetransmissions + 1) then after.failed
            else !after.failed && WaitsForAttempt(after.sdu, n + 1) && SameTlSdu(after.sdu, sdu)
  {
    hide TdmaTime.Diff;
    AiredAt(sdu, n, t, limits);
    SixCount(n, limits.sduRetransmissions);
  }

  lemma AiredAt(sdu: TxSdu, n: nat, t: TdmaTime, limits: Limits)
    requires WaitsForAttempt(sdu, n)
    ensures !Aired(sdu, t, limits).failed && Aired(sdu, t, limits).sdu ==
            sdu.(attempt := Some(Transmitted), ackRequested := true, sentAt := Some(t), pending := None,
                 reporter := Transmitted)
  {
    hide TdmaTime.Diff;
    NoTimePasses(t);
  }

  lemma SixCount(n: nat, limit: nat)
    requires n < 6 * (limit + 1)
    ensures n % 6 < 5 ==> (n + 1) % 6 == n % 6 + 1 && (n + 1) / 6 == n / 6 && n + 1 != 6 * (limit + 1)
    ensures n % 6 == 5 ==> (n + 1) % 6 == 0 && (n + 1) / 6 == n / 6 + 1
    ensures n % 6 == 5 ==> (n / 6 >= limit <==> n + 1 == 6 * (limit + 1))
  {
  }

  // The times at which one attempt is noticed on the air and its timer has ended.
  datatype Round = Round(noticed: TdmaTime, ended: TdmaTime)

  function AfterRounds(sdu: TxSdu, rounds: seq<Round>, limits: Limits): Observed {
    if rounds == [] then Observed(sdu, false)
    else
      var last := |rounds| - 1;
      var before := AfterRounds(sdu, rounds[..last], limits);
      if before.failed then before else Observe(Aired(before.sdu, rounds[last].noticed, limits).sdu,
                                                rounds[last].ended, limits)
  }

  /**
   Unanswered from first to last: after `n` attempts of which each ran out, the TL-SDU waits for the
   next as `WaitsForAttempt` describes, and the link is exhausted exactly after 6 * (N.273 + 1).
   */
  lemma {:induction false} UnansweredAttempts(sdu: TxSdu, rounds: seq<Round>, limits: Limits)
    requires WaitsForAttempt(sdu, 0) && |rounds| <= 6 * (limits.sduRetransmissions + 1)
    requires forall i | 0 <= i < |rounds| :: rounds[i].ended.Diff(rounds[i].noticed) >= 36
    ensures var after := AfterRounds(sdu, rounds, limits);
            && (after.failed <==> |rounds| == 6 * (limits.sduRetransmissions + 1))
            && (!after.failed ==> WaitsForAttempt(after.sdu, |rounds|) && SameTlSdu(after.sdu, sdu))
    decreases |rounds|
  {
    hide WaitsForAttempt, Aired, Observe, TdmaTime.Diff;
    if rounds != [] {
      var last := |rounds| - 1;
      UnansweredAttempts(sdu, rounds[..last], limits);
      TimerEnds(AfterRounds(sdu, rounds[..last], limits).sdu, last, rounds[last].noticed, rounds[last].ended, limits);
    }
  }
}
