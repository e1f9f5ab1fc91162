/** The basic-link half of the LLC: its queue of acknowledged messages, updated in place. */
module BasicLinkEntity {
  import opened Wrappers
  import opened Tdma
  import opened TxReceipt
  import opened BasicLink

  class BasicLinkQueue {
    var now: TdmaTime
    var outbound: seq<Msg>
    var linkSendSeq: map<nat, nat>
    // The receipts of messages that left the queue.
    var outcome: Outcome
    // Messages accepted from the service user so far; the number of a message stands for its receipt.
    var accepted: map<nat, nat>

    function State(): Link
      reads this
    {
      Link(outbound, linkSendSeq, outcome, accepted)
    }

    ghost predicate Valid()
      reads this
    {
      Inv(State())
    }

    constructor (start: TdmaTime)
      ensures Valid() && State() == Link([], map[], map[], map[]) && now == start
    {
      now, outbound, linkSendSeq, outcome, accepted := start, [], map[], map[], map[];
      assert forall ssi: nat :: Lane([], ssi) == [];
    }

    // get_next_send_seq: V(S) of the terminal, which then toggles.
    method GetNextSendSeq(ssi: nat) returns (ns: nat)
      modifies this`linkSendSeq
      ensures ns == SendSeq(old(linkSendSeq), ssi)
      ensures linkSendSeq == old(linkSendSeq)[ssi := (ns + 1) % 2]
    {
      ns := if ssi in linkSendSeq then linkSendSeq[ssi] else 0;
      linkSendSeq := linkSendSeq[ssi := (ns + 1) % 2];
    }

    /** Data from the service user. */
    method Request(ssi: nat, fixedAssigned: bool)
      requires Valid()
      modifies this
      ensures Valid() && State() == Requested(old(State()), ssi, fixedAssigned, now.t) && now == old(now)
    {
      hide Inv, NewMsg;
      RequestKeeps(State(), ssi, fixedAssigned, now.t);
      var ns := GetNextSendSeq(ssi);
      outbound := outbound + [NewMsg(ssi, Accepted(accepted, ssi), ns, fixedAssigned, now.t)];
      accepted := accepted[ssi := Accepted(accepted, ssi) + 1];
    }

    method FindOutstanding(ssi: nat) returns (position: nat)
      ensures position == Outstanding(outbound, ssi)
    {
      position := 0;
      while position < |outbound| && !(outbound[position].ssi == ssi && outbound[position].submittedAt.Some?)
        invariant position <= |outbound|
        invariant Outstanding(outbound, ssi) == position + Outstanding(outbound[position..], ssi)
      {
        position := position + 1;
      }
    }

    // take_expected_ack_for_ssi
    method TakeOutstanding(ssi: nat) returns (taken: Option<Msg>)
      modifies this`outbound
      ensures var p := Outstanding(old(outbound), ssi);
              if p < |old(outbound)| then taken == Some(old(outbound)[p]) && outbound == Without(old(outbound), p)
              else taken == None && outbound == old(outbound)
    {
      var position := FindOutstanding(ssi);
      if position == |outbound| {
        return None;
      }
      taken := Some(outbound[position]);
      outbound := outbound[..position] + outbound[position + 1..];
    }

    method CountTransmitted(copies: seq<TxState>) returns (count: nat)
      ensures count == TransmittedCount(copies)
    {
      count := 0;
      for i := 0 to |copies|
        invariant TransmittedCount(copies) == count + TransmittedCount(copies[i..])
      {
        assert copies[i..][0] == copies[i] && copies[i..][1..] == copies[i + 1..];
        if copies[i].IsTransmitted() {
          count := count + 1;
        }
      }
    }

    /** A BL-ACK from the terminal. */
    method ProcessIncomingAck(ssi: nat, nr: nat, sameProtection: bool)
      requires Valid()
      modifies this`outbound, this`outcome
      ensures Valid()
      ensures (forall i | 0 <= i < |old(outbound)| :: Open(old(outbound)[i]))
              && Ended(outbound, outcome) == HearAck(old(outbound), old(outcome), ssi, nr, sameProtection)
    {
      AckKeeps(State(), ssi, nr, sameProtection);
      hide Inv, Outstanding, Without, CatchUp, AllDone;
      var taken := TakeOutstanding(ssi);
      if taken.None? {
        return;
      }
      assert Open(taken.value);
      var expected := CatchUpOne(taken.value);
      if (expected.doneAt.None? && !expected.everTransmitted) || !sameProtection || expected.ns != nr {
        outbound := [expected] + outbound;
        return;
      }
      CatchUpStaysOpen(taken.value);
      if !expected.reporter.IsTransmitted() {
        expected := expected.(reporter := expected.reporter.Reset().MarkTransmitted());
      }
      outcome := outcome[IdOf(expected) := expected.reporter.MarkAcknowledged()];
    }

    // An attempt on the air that nobody has noted yet counts as transmitted.
    method CatchUpOne(m0: Msg) returns (m: Msg)
      ensures m == CatchUp(m0)
    {
      m := m0;
      var onAir := CountTransmitted(m.copies);
      if m.doneAt.None? && (m.reporter.IsTransmitted() || onAir > 0) {
        m := m.(everTransmitted := true);
        if !m.reporter.IsTransmitted() {
          m := m.(reporter := m.reporter.Reset().MarkTransmitted());
        }
      }
    }

    method NoteOne(m0: Msg) returns (m: Msg)
      ensures m == NoteCopies(m0, now)
    {
      m := m0;
      var onAir := CountTransmitted(m.copies);
      if onAir > m.observed {
        m := m.(everTransmitted := true, observed := onAir);
        if !m.reporter.IsTransmitted() {
          m := m.(reporter := m.reporter.Reset().MarkTransmitted());
        }
        m := m.(doneAt := Some(now));
      } else if m.doneAt.None? && AllDone(m.copies) {
        m := m.(doneAt := Some(now));
      }
    }

    /** The retry pass over the queue, and what is given up after it. */
    method SubmitRetransmissions(routes: Routes) returns (again: seq<Id>)
      requires CanTick(State(), now, routes)
      modifies this`outbound, this`outcome
      ensures var r := RetryAll(old(outbound), now, routes);
              && again == r.again && AllOutstanding(r.queue, r.exhausted)
              && Ended(outbound, outcome) == GiveUp(r.queue, old(outcome), r.exhausted)
    {
      var removals;
      again, removals := RetryPass(routes);
      hide RetryAll;
      for i := 0 to |removals|
        invariant AllOutstanding(outbound, removals[i..])
        invariant GiveUp(outbound, outcome, removals[i..]) == GiveUp(RetryAll(old(outbound), now, routes).queue,
                                                                     old(outcome), removals)
      {
        assert removals[i..][0] == removals[i] && removals[i..][1..] == removals[i + 1..];
        // The lookup cannot fail.
        var taken := TakeOutstanding(removals[i]);
        outcome := outcome[IdOf(taken.value) := MarkReporterLost(taken.value.reporter)];
      }
    }

    method RetryPass(routes: Routes) returns (again: seq<Id>, removals: seq<nat>)
      modifies this`outbound
      ensures RetriedAll(outbound, again, removals) == RetryAll(old(outbound), now, routes)
    {
      hide RetryAll, Joined, Retry;
      ghost var before := outbound;
      again, removals := [], [];
      assert before[0..] == before;
      NoneRetried(before, now, routes);
      for i := 0 to |outbound|
        invariant |outbound| == |before| && outbound[i..] == before[i..]
        invariant RetryAll(before, now, routes) == Joined(outbound[..i], again, removals,
                                                          RetryAll(before[i..], now, routes))
      {
        var id := IdOf(outbound[i]);
        var r := RetryOne(outbound[i], routes(outbound[i].ssi));
        NextRetried(outbound[..i], again, removals, before, i, now, routes);
        assert outbound[i := r.msg][..i + 1] == outbound[..i] + [r.msg];
        outbound := outbound[i := r.msg];
        if r.again {
          again := again + [id];
        }
        if r.exhausted {
          removals := removals + [id.ssi];
        }
      }
      assert outbound[..|outbound|] == outbound;
    }

    method RetryOne(m0: Msg, route: Route) returns (r: Retried)
      ensures r == Retry(m0, now, route)
    {
      hide NoteCopies, TdmaTime.Diff;
      var m := NoteOne(m0);
      if !RetryDue(m, now) || Deferred(m, now, route) {
        return Retried(m, false, false);
      }
      if m.retransmits < RetransmitLimit(m) {
        m := m.(retransmits := m.retransmits + 1);
        return Retried(Submit(m, now, route), true, false);
      }
      r := Retried(m, false, GraceOver(m, now));
    }

    // submit_free_messages_to_umac
    method SubmitFreeMessages(routes: Routes) returns (submitted: seq<Id>)
      modifies this`outbound
      ensures Freed(outbound, submitted) == SubmitFree(old(outbound), {}, now, routes)
    {
      ghost var before := outbound;
      var blocked: set<nat> := {};
      submitted := [];
      assert before[0..] == before;
      for i := 0 to |outbound|
        invariant |outbound| == |before| && outbound[i..] == before[i..]
        invariant SubmitFree(before, {}, now, routes) == After(outbound[..i], submitted,
                                                               SubmitFree(before[i..], blocked, now, routes))
      {
        var m := outbound[i];
        NextFreed(outbound[..i], submitted, before, i, blocked, now, routes);
        hide SubmitFree, After, Submit;
        if m.submittedAt.None? && m.ssi !in blocked {
          submitted := submitted + [IdOf(m)];
          m := Submit(m, now, routes(m.ssi));
        }
        assert outbound[i := m][..i + 1] == outbound[..i] + [m];
        blocked := blocked + {outbound[i].ssi};
        outbound := outbound[i := m];
      }
      assert outbound[..|outbound|] == outbound;
    }

    /** The end of a tick. */
    method TickEnd(routes: Routes) returns (again: seq<Id>, submitted: seq<Id>)
      requires Valid()
      modifies this`outbound, this`outcome
      ensures Valid()
      ensures CanTick(old(State()), now, routes) && Ticked(State(), again, submitted) == Tick(old(State()), now, routes)
    {
      hide Inv, RetryAll, GiveUp, SubmitFree, AllOutstanding;
      TickKeeps(State(), now, routes);
      again := SubmitRetransmissions(routes);
      submitted := SubmitFreeMessages(routes);
    }
  }

  lemma CatchUpStaysOpen(m: Msg)
    requires Open(m)
    ensures Open(CatchUp(m))
  {
  }

  function Joined(done: seq<Msg>, again: seq<Id>, removals: seq<nat>, rest: RetriedAll): RetriedAll {
    RetriedAll(done + rest.queue, again + rest.again, removals + rest.exhausted)
  }

  lemma NoneRetried(queue: seq<Msg>, now: TdmaTime, routes: Routes)
    ensures Joined([], [], [], RetryAll(queue, now, routes)) == RetryAll(queue, now, routes)
    ensures forall done, again, removals ::
              Joined(done, again, removals, RetryAll([], now, routes)) == RetriedAll(done, again, removals)
  {
    hide Retry;
  }

  lemma NextRetried(done: seq<Msg>, again: seq<Id>, removals: seq<nat>, queue: seq<Msg>, i: nat, now: TdmaTime,
                    routes: Routes)
    requires i < |queue|
    ensures var r := Retry(queue[i], now, routes(queue[i].ssi));
            Joined(done, again, removals, RetryAll(queue[i..], now, routes)) ==
            Joined(done + [r.msg], if r.again then again + [IdOf(queue[i])] else again,
                   if r.exhausted then removals + [queue[i].ssi] else removals, RetryAll(queue[i + 1..], now, routes))
  {
    hide Retry;
    assert queue[i..][0] == queue[i] && queue[i..][1..] == queue[i + 1..];
  }

  function After(done: seq<Msg>, submitted: seq<Id>, rest: Freed): Freed {
    Freed(done + rest.queue, submitted + rest.submitted)
  }

  lemma NextFreed(done: seq<Msg>, submitted: seq<Id>, queue: seq<Msg>, i: nat, blocked: set<nat>, now: TdmaTime,
                  routes: Routes)
    requires i < |queue|
    ensures var m := queue[i]; var free := m.submittedAt.None? && m.ssi !in blocked;
            After(done, submitted, SubmitFree(queue[i..], blocked, now, routes)) ==
            After(done + [if free then Submit(m, now, routes(m.ssi)) else m], if free then submitted + [IdOf(m)]
                  else submitted,
                  SubmitFree(queue[i + 1..], blocked + {m.ssi}, now, routes))
  {
    hide Submit;
    assert queue[i..][0] == queue[i] && queue[i..][1..] == queue[i + 1..];
  }
}
