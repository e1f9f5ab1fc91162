/**
 Reception of any PDU whatever, genuine or not: what the receiver answers, what it keeps, and what
 becomes of a TL-SDU whose bits fail the check.
 */
module AnyData {
  import opened Wrappers
  import opened Fcs
  import opened AlPdu
  import opened Receiver
  import W = ReceiveWindow

  // Every segment is there and together they pass the check.
  predicate Passes(rx: RxSdu) {
    HasAllSegments(rx) && Check(Assembled(rx))
  }

  // The bits before the FCS.
  function Contents(rx: RxSdu): Bits
    requires Passes(rx)
  {
    Assembled(rx)[..|Assembled(rx)| - 32]
  }

  predicate CompleteAt(sdus: map<nat, RxSdu>, ns: nat) {
    ns in sdus && sdus[ns].complete.Some?
  }

  // What counts as complete passed the check, and holds the bits before the FCS.
  ghost predicate Checked(sdus: map<nat, RxSdu>) {
    forall ns <- sdus ::
      && sdus[ns].ns == ns
      && (sdus[ns].complete.Some? ==>
            Passes(sdus[ns]) && sdus[ns].complete.value == Contents(sdus[ns]))
  }

  predicate InWindow(window: nat, next: nat, ns: nat) {
    (ns - next) % 8 < window
  }

  // The entry of the PDU's TL-SDU once its segment has been taken in.
  function WithSegment(sdus: map<nat, RxSdu>, pdu: AlData): RxSdu {
    Absorb(W.EntryFor(sdus, pdu.ns), pdu)
  }

  // What is held when the answer is made, before delivery.
  function Held(sdus: map<nat, RxSdu>, pdu: AlData): map<nat, RxSdu> {
    var rx := WithSegment(sdus, pdu);
    if CompleteAt(sdus, pdu.ns) then sdus
    else if !HasAllSegments(rx) then sdus[pdu.ns := rx]
    else if Check(Assembled(rx)) then sdus[pdu.ns := rx.(complete := Some(Contents(rx)))]
    else sdus - {pdu.ns}
  }

  // ----- What is held

  lemma HeldIsChecked(sdus: map<nat, RxSdu>, pdu: AlData)
    requires Checked(sdus)
    ensures Checked(Held(sdus, pdu))
  {
    hide Check, Assemble, AllPresent;
  }

  lemma {:induction false} DrainKeepsChecked(next: nat, sdus: map<nat, RxSdu>)
    requires Checked(sdus)
    ensures var d := Drain(next, sdus);
            && Checked(d.sdus) && d.sdus.Keys <= sdus.Keys && !CompleteAt(d.sdus, d.next)
            && (forall ns <- d.sdus :: d.sdus[ns] == sdus[ns])
            && (forall bits <- d.delivered :: exists ns :: CompleteAt(sdus, ns) && sdus[ns].complete == Some(bits))
    decreases |sdus|
  {
    hide Passes, Contents;
    if CompleteAt(sdus, next) {
      var rest := sdus - {next};
      assert rest.Keys == sdus.Keys - {next} && |rest.Keys| < |sdus.Keys|;
      DrainKeepsChecked((next + 1) % 8, rest);
      assert CompleteAt(sdus, next) && sdus[next].complete == Some(sdus[next].complete.value);
      forall ns | CompleteAt(rest, ns)
        ensures CompleteAt(sdus, ns)
      {
      }
    }
  }

  lemma ReceiveDrainsHeld(window: nat, next: nat, sdus: map<nat, RxSdu>, pdu: AlData)
    requires InWindow(window, next, pdu.ns) && !CompleteAt(sdus, pdu.ns)
    ensures var r, d := Receive(window, next, sdus, pdu), Drain(next, Held(sdus, pdu));
            r.next == d.next && r.sdus == d.sdus && r.delivered == d.delivered
  {
    hide Check, Assemble, AllPresent, AcknowledgementBlocks, Drain;
  }

  /** Whatever arrives, all that is held as complete or delivered has passed the check. */
  lemma OnlyCheckedIsDelivered(window: nat, next: nat, sdus: map<nat, RxSdu>, pdu: AlData)
    requires Checked(sdus)
    ensures var r := Receive(window, next, sdus, pdu);
            && Checked(r.sdus)
            && forall bits <- r.delivered ::
                 exists rx: RxSdu :: Passes(rx) && bits == Contents(rx) && rx in Held(sdus, pdu).Values
  {
    hide Check, Assemble, AllPresent, AcknowledgementBlocks, Drain, ReceiveSegment;
    if InWindow(window, next, pdu.ns) && !CompleteAt(sdus, pdu.ns) {
      HeldIsChecked(sdus, pdu);
      ReceiveDrainsHeld(window, next, sdus, pdu);
      var held := Held(sdus, pdu);
      DrainKeepsChecked(next, held);
      hide Receive, Held, Passes, Contents;
      forall bits <- Drain(next, held).delivered
        ensures exists rx: RxSdu :: Passes(rx) && bits == Contents(rx) && rx in held.Values
      {
        var ns :| CompleteAt(held, ns) && held[ns].complete == Some(bits);
        assert held[ns] in held.Values;
      }
    }
  }

  /** One more segment: nothing else is added, and the final one is the last that was marked so. */
  lemma SegmentTakenIn(sdus: map<nat, RxSdu>, pdu: AlData)
    ensures var before, after := W.EntryFor(sdus, pdu.ns), WithSegment(sdus, pdu);
            && after.segments.Keys == before.segments.Keys + {pdu.segment}
            && (pdu.segment !in before.segments ==> after.segments[pdu.segment] == pdu.bits)
            && after.finalSegment == (if pdu.finalSegment then Some(pdu.segment) else before.finalSegment)
            && after.ns == before.ns && after.complete == before.complete
  {
  }

  /** The first copy of a segment stays, whatever a later one with the same number says. */
  lemma FirstCopyStays(window: nat, next: nat, sdus: map<nat, RxSdu>, pdu: AlData, k: nat)
    requires k in W.EntryFor(sdus, pdu.ns).segments
    ensures k in WithSegment(sdus, pdu).segments && WithSegment(sdus, pdu).segments[k] == W.EntryFor(sdus,
                                                                                                     pdu.ns).segments[k]
    ensures var r := Receive(window, next, sdus, pdu);
            pdu.ns in r.sdus && pdu.ns in sdus ==>
              k in r.sdus[pdu.ns].segments && r.sdus[pdu.ns].segments[k] == sdus[pdu.ns].segments[k]
  {
    hide Check, Assemble, AllPresent, AcknowledgementBlocks, Drain, ReceiveSegment;
    if InWindow(window, next, pdu.ns) && !CompleteAt(sdus, pdu.ns) {
      ReceiveDrainsHeld(window, next, sdus, pdu);
      DrainOnlyRemoves(next, Held(sdus, pdu));
    }
  }

  lemma {:induction false} DrainOnlyRemoves(next: nat, sdus: map<nat, RxSdu>)
    ensures var d := Drain(next, sdus); d.sdus.Keys <= sdus.Keys && forall ns <- d.sdus :: d.sdus[ns] == sdus[ns]
    decreases |sdus|
  {
    if CompleteAt(sdus, next) {
      var rest := sdus - {next};
      assert rest.Keys == sdus.Keys - {next} && |rest.Keys| < |sdus.Keys|;
      DrainOnlyRemoves((next + 1) % 8, rest);
    }
  }

  // ----- The answer

  // One block for each number of the window, positive exactly where a TL-SDU is held complete.
  ghost predicate ReportsHeld(blocks: seq<AlAckBlock>, window: nat, next: nat, held: map<nat, RxSdu>) {
    && |blocks| == window
    && forall i | 0 <= i < window ::
         blocks[i].nr == (next + i) % 8 && (blocks[i].IsPositive() <==> CompleteAt(held, (next + i) % 8))
  }

  lemma BlocksReportHeld(window: nat, next: nat, held: map<nat, RxSdu>, override: Option<AlAckBlock>)
    requires forall ns <- held :: held[ns].ns == ns
    requires override.Some? ==> !override.value.IsPositive() && override.value.nr !in held
    ensures var blocks := AcknowledgementBlocks(window, next, held, override);
            && ReportsHeld(blocks, window, next, held)
            && (override.Some? ==> forall i | 0 <= i < window && (next + i) % 8 == override.value.nr ::
                  blocks[i] == override.value)
  {
    hide FirstMissing, LastDescribed;
    forall i: nat | i < window
      ensures var block := WindowBlock(next, held, override, i);
              && block.nr == (next + i) % 8 && (block.IsPositive() <==> CompleteAt(held, (next + i) % 8))
    {
    }
  }

  /**
   The answer to any PDU in the window. It comes when the PDU asks for it or leaves no segment
   lacking, covers the whole window, and acknowledges exactly the TL-SDUs held complete at that
   moment, all of which passed the check.
   */
  lemma AnswerInWindow(window: nat, next: nat, sdus: map<nat, RxSdu>, pdu: AlData)
    requires Checked(sdus) && InWindow(window, next, pdu.ns)
    ensures var r := Receive(window, next, sdus, pdu);
            && (r.ack.Some? <==> CompleteAt(sdus, pdu.ns) || HasAllSegments(WithSegment(sdus, pdu)) || pdu.ackRequested)
            && Checked(Held(sdus, pdu))
            && (r.ack.Some? ==> ReportsHeld(r.ack.value, window, next, Held(sdus, pdu)))
  {
    HeldIsChecked(sdus, pdu);
    hide Check, Assemble, AllPresent, AcknowledgementBlocks, Drain, Checked, ReportsHeld, WindowBlock;
    CheckedNumbers(Held(sdus, pdu));
    BlocksReportHeld(window, next, Held(sdus, pdu), None);
    if pdu.ns !in Held(sdus, pdu) {
      BlocksReportHeld(window, next, Held(sdus, pdu), Some(WholeAgain(pdu.ns)));
    }
  }

  lemma CheckedNumbers(sdus: map<nat, RxSdu>)
    requires Checked(sdus)
    ensures forall ns <- sdus :: sdus[ns].ns == ns
  {
    hide Passes;
  }

  /**
   A TL-SDU whose bits fail the check: its block asks for all of it again, nothing of it is
   delivered, and the next segment of it that arrives finds an empty entry.
   */
  lemma FailedCheck(window: nat, next: nat, sdus: map<nat, RxSdu>, pdu: AlData, again: AlData)
    requires Checked(sdus) && InWindow(window, next, pdu.ns) && !CompleteAt(sdus, pdu.ns) && pdu.ns <= 7
    requires var rx := WithSegment(sdus, pdu); HasAllSegments(rx) && !Check(Assembled(rx))
    requires again.ns == pdu.ns
    ensures var r := Receive(window, next, sdus, pdu);
            && r.ack.Some? && |r.ack.value| == window
            && (forall i | 0 <= i < window && (next + i) % 8 == pdu.ns ::
                  r.ack.value[i].nr == pdu.ns && r.ack.value[i].length == 63)
            && pdu.ns !in r.sdus && (pdu.ns == next ==> r.delivered == [])
            && WithSegment(r.sdus, again).segments == map[again.segment := again.bits]
            && (forall ns <- Held(sdus, pdu) :: ns != pdu.ns && ns in sdus && Held(sdus, pdu)[ns] == sdus[ns])
            && (forall bits <- r.delivered :: exists ns ::
                  ns != pdu.ns && CompleteAt(sdus, ns) && sdus[ns].complete == Some(bits))
  {
    HeldIsChecked(sdus, pdu);
    CheckedNumbers(Held(sdus, pdu));
    ReceiveDrainsHeld(window, next, sdus, pdu);
    var held := Held(sdus, pdu);
    assert held == sdus - {pdu.ns};
    DrainKeepsChecked(next, held);
    BlocksReportHeld(window, next, held, Some(WholeAgain(pdu.ns)));
    AnswerIs(window, next, sdus, pdu);
    hide Check, Assemble, AllPresent, AcknowledgementBlocks, Checked, Receive, Held, WindowBlock;
    assert pdu.ns !in held;
    forall bits <- Drain(next, held).delivered
      ensures exists ns :: ns != pdu.ns && CompleteAt(sdus, ns) && sdus[ns].complete == Some(bits)
    {
      var ns :| CompleteAt(held, ns) && held[ns].complete == Some(bits);
      assert ns != pdu.ns && CompleteAt(sdus, ns);
    }
  }

  lemma AnswerIs(window: nat, next: nat, sdus: map<nat, RxSdu>, pdu: AlData)
    requires InWindow(window, next, pdu.ns) && !CompleteAt(sdus, pdu.ns)
    requires var rx := WithSegment(sdus, pdu); HasAllSegments(rx) && !Check(Assembled(rx))
    ensures Receive(window, next, sdus, pdu).ack
            == Some(AcknowledgementBlocks(window, next, Held(sdus, pdu), Some(WholeAgain(pdu.ns))))
  {
    hide Check, Assemble, AllPresent, AcknowledgementBlocks, Drain;
  }

  ghost predicate Names(blocks: seq<AlAckBlock>, n: nat) {
    exists i :: 0 <= i < |blocks| && blocks[i].nr == n
  }

  // `n` is one of the `count` numbers from `ns` on.
  predicate OneOf(n: nat, ns: nat, count: nat) {
    n <= 7 && (n - ns) % 8 < count
  }

  lemma Offset(ns: nat, i: nat)
    requires ns <= 7 && i <= 7
    ensures (ns + i) % 8 <= 7 && ((ns + i) % 8 - ns) % 8 == i
  {
  }

  lemma OffsetOf(ns: nat, n: nat)
    requires ns <= 7 && n <= 7
    ensures (ns + (n - ns) % 8) % 8 == n
  {
  }

  lemma PositivesName(blocks: seq<AlAckBlock>, ns: nat, n: nat)
    requires ns <= 7 && |blocks| <= 7 && forall i | 0 <= i < |blocks| :: blocks[i] == Positive((ns + i) % 8)
    ensures Names(blocks, n) <==> OneOf(n, ns, |blocks|)
  {
    if OneOf(n, ns, |blocks|) {
      OffsetOf(ns, n);
      assert blocks[(n - ns) % 8].nr == n;
    }
    if Names(blocks, n) {
      var i :| 0 <= i < |blocks| && blocks[i].nr == n;
      Offset(ns, i);
    }
  }

  /**
   Outside the window: a repetition from at most one window below is acknowledged, with every
   number from its own up to the last one below the window; anything else gets no answer. Nothing
   changes either way.
   */
  lemma AnswerOutsideWindow(window: nat, next: nat, sdus: map<nat, RxSdu>, pdu: AlData)
    requires 1 <= window <= 3 && next <= 7 && pdu.ns <= 7 && !InWindow(window, next, pdu.ns)
    ensures var r, behind := Receive(window, next, sdus, pdu), (next - pdu.ns) % 8;
            && r.next == next && r.sdus == sdus && r.delivered == []
            && (r.ack.Some? <==> behind <= window)
            && (r.ack.Some? ==>
                  && (forall i | 0 <= i < |r.ack.value| :: r.ack.value[i].IsPositive())
                  && forall n: nat :: Names(r.ack.value, n) <==> OneOf(n, pdu.ns, behind))
  {
    hide Names, OneOf;
    var behind := (next - pdu.ns) % 8;
    assert behind >= 1;
    var r := Receive(window, next, sdus, pdu);
    if r.ack.Some? {
      assert |r.ack.value| == behind && forall i | 0 <= i < behind :: r.ack.value[i] == Positive((pdu.ns + i) % 8);
      forall n: nat
        ensures Names(r.ack.value, n) <==> OneOf(n, pdu.ns, behind)
      {
        PositivesName(r.ack.value, pdu.ns, n);
      }
    }
  }
}
