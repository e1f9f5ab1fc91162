/**
 What one turn of a link hands to the MAC: which TL-SDUs, which of their segments, in which order,
 and with which single request for an acknowledgement.
 */
module Offers {
  import opened Arithmetic
  import opened Wrappers
  import opened Fcs
  import opened AlPdu
  import opened Tdma
  import opened Segmentation
  import opened TxReceipt
  import opened Sender
  import opened AdvancedLink
  import opened SendWindow
  import opened SendProgress
  import opened Arq
  import opened ArqSteps

  // ----- The PDUs of one TL-SDU

  // Acknowledgements, or T.252, have named segments of this TL-SDU to be sent again.
  predicate Named(sdu: TxSdu) {
    sdu.pending.Some? && sdu.pending.value != []
  }

  function AllNumbers(sdu: TxSdu): seq<nat> {
    seq(|sdu.segments|, k => k)
  }

  // The segments due in the next offer.
  function Due(sdu: TxSdu): seq<nat> {
    if Named(sdu) then sdu.pending.value else AllNumbers(sdu)
  }

  // The PDUs carry exactly the listed segments of `sdu`, in the order listed.
  predicate CarryListed(sdu: TxSdu, numbers: seq<nat>, pdus: seq<AlData>) {
    && |pdus| == |numbers|
    && forall i | 0 <= i < |pdus| ::
         && numbers[i] < |sdu.segments|
         && pdus[i].ns == sdu.ns && pdus[i].segment == numbers[i] % 256 && pdus[i].bits == sdu.segments[numbers[i]]
         && (pdus[i].finalSegment <==> numbers[i] == |sdu.segments| - 1)
  }

  function Bodies(pdus: seq<AlData>): seq<Bits> {
    seq(|pdus|, i requires 0 <= i < |pdus| => pdus[i].bits)
  }

  // Of all these PDUs exactly the last one of the last TL-SDU asks for an acknowledgement.
  predicate OnlyLastAsks(offered: seq<Offering>) {
    forall o, i | 0 <= o < |offered| && 0 <= i < |offered[o].pdus| ::
      offered[o].pdus[i].ackRequested <==> o == |offered| - 1 && i == |offered[o].pdus| - 1
  }

  // Each TL-SDU offered is there with its named segments, or with all of them if none is named.
  predicate OffersRightly(seen: seq<TxSdu>, offered: seq<Offering>) {
    forall o | 0 <= o < |offered| ::
      && offered[o].position < |seen| && offered[o].pdus != []
      && var sdu := seen[offered[o].position];
         CarryListed(sdu, Due(sdu), offered[o].pdus)
  }

  lemma OfferedOne(sdu: TxSdu, ask: bool)
    requires SegmentsExist(sdu) && |sdu.segments| >= 1
    ensures var pdus := OfferPdus(sdu, ask);
            && CarryListed(sdu, Due(sdu), pdus) && pdus != []
            && forall i | 0 <= i < |pdus| :: pdus[i].ackRequested <==> ask && i == |pdus| - 1
  {
  }

  /**
   One turn: each TL-SDU it offers is offered whole, or with exactly the segments named, each
   segment under its own number and only the last one as final; and exactly the last PDU of the
   whole turn asks for the acknowledgement.
   */
  lemma TurnOffers(link: Link, now: TdmaTime, routeLive: bool)
    requires AllSegmentsExist(link.tx)
    ensures var r := Submit(link, now, routeLive);
            OffersRightly(ObserveAll(link.tx, now, link.limits).tx, r.offered) && OnlyLastAsks(r.offered)
  {
    hide Submit, ObserveAll, OfferPdus, CarryListed, Due;
    var seen := ObserveAll(link.tx, now, link.limits).tx;
    var picked := SubmitShape(link, now, routeLive);
    ObserveKeepsSegmentsExist(link.tx, now, link.limits);
    var offered := Offerings(seen, picked);
    forall o | 0 <= o < |offered|
      ensures offered[o].position == picked[o] && offered[o].pdus == OfferPdus(seen[picked[o]], o + 1 == |picked|)
      ensures var sdu, pdus := seen[picked[o]], offered[o].pdus;
              && CarryListed(sdu, Due(sdu), pdus) && pdus != []
              && forall i | 0 <= i < |pdus| :: pdus[i].ackRequested <==> o + 1 == |picked| && i == |pdus| - 1
    {
      OfferedOne(seen[picked[o]], o + 1 == |picked|);
    }
  }

  lemma BodiesOfAll(sdu: TxSdu, pdus: seq<AlData>)
    requires CarryListed(sdu, AllNumbers(sdu), pdus)
    ensures Bodies(pdus) == sdu.segments
  {
  }

  /**
   Offered with nothing named, the bodies of a TL-SDU's PDUs joined in order are the TL-SDU and
   its FCS, bit for bit; they are numbered 0, 1, 2, ... and the last one alone is final.
   */
  lemma WholeTlSduIsOffered(s: System, now: TdmaTime, routeLive: bool, o: nat)
    requires Inv(s) && CanTick(s, now, routeLive) && o < |Submit(s.sender, now, routeLive).offered|
    requires !Named(ObserveAll(s.sender.tx, now, s.sender.limits).tx[Submit(s.sender, now,
                                                                            routeLive).offered[o].position])
    ensures var offering := Submit(s.sender, now, routeLive).offered[o];
            var k := s.sender.tx[offering.position].receipt;
            && k < |s.own.accepted| && Concat(Bodies(offering.pdus)) == Protect(s.own.accepted[k])
            && forall i | 0 <= i < |offering.pdus| ::
                 && offering.pdus[i].ns == k % 8 && offering.pdus[i].segment == i % 256
                 && (offering.pdus[i].finalSegment <==> i == |offering.pdus| - 1)
  {
    hide Inv, Submit, ObserveAll, Segments, Protect, Front, HeldBy, Queued, UnairedOk, ReportsOk;
    InStepFacts(s);
    TurnOffers(s.sender, now, routeLive);
    ObserveAllKeeps(s.sender.tx, now, s.sender.limits, |s.own.accepted|);
    var seen := ObserveAll(s.sender.tx, now, s.sender.limits).tx;
    var offering := Submit(s.sender, now, routeLive).offered[o];
    var k := s.sender.tx[offering.position].receipt;
    QueuedFacts(s.sender, s.own, offering.position);
    BodiesOfAll(seen[offering.position], offering.pdus);
    SegmentsJoin(s.own.accepted[k]);
  }

  lemma QueuedFacts(link: Link, g: Generation, i: nat)
    requires SenderOk(link, g) && i < |link.tx|
    ensures link.tx[i].receipt < |g.accepted| && link.tx[i].ns == link.tx[i].receipt % 8
    ensures link.tx[i].segments == Segments(g.accepted[link.tx[i].receipt])
  {
    hide Segments, SduOk;
  }

  // ----- Which TL-SDUs a turn offers

  // The peer's receiver is taken to be ready: it said so, or T.271 has run for 144 slots.
  predicate TakenReady(link: Link, now: TdmaTime) {
    link.receiverReady || (link.notReadySince.Some? && now.Diff(link.notReadySince.value) >= 144)
  }

  // A TL-SDU that a turn may offer: not under way, within one window of the oldest, with
  // retries left, and only if segments of it are named while the peer is not ready.
  predicate Candidate(seen: seq<TxSdu>, i: nat, limits: Limits, ready: bool)
    requires i < |seen|
  {
    && Idle(seen[i]) && seen[i].receipt < seen[0].receipt + limits.window
    && seen[i].retransmissions <= limits.sduRetransmissions && (ready || Named(seen[i]))
  }

  ghost predicate IsOffered(offered: seq<Offering>, i: nat) {
    exists o :: 0 <= o < |offered| && offered[o].position == i
  }

  function UnderWay(tx: seq<TxSdu>): set<nat> {
    set i: nat | i < |tx| && InFlight(tx[i])
  }

  lemma {:induction false} CountsUnderWay(tx: seq<TxSdu>)
    ensures InFlightCount(tx) == |UnderWay(tx)|
  {
    hide InFlight;
    if tx == [] {
      assert UnderWay(tx) == {};
    } else {
      var last := |tx| - 1;
      CountsUnderWay(tx[..last]);
      CountAppends(tx[..last], tx[last]);
      UnderWayAppends(tx[..last], tx[last]);
      assert tx[..last] + [tx[last]] == tx;
    }
  }

  lemma UnderWayAppends(tx: seq<TxSdu>, x: TxSdu)
    ensures UnderWay(tx + [x]) == UnderWay(tx) + if InFlight(x) then {|tx|} else {}
    ensures |tx| !in UnderWay(tx)
  {
    hide InFlight;
  }

  lemma {:induction false} CountAppends(tx: seq<TxSdu>, x: TxSdu)
    ensures InFlightCount(tx + [x]) == InFlightCount(tx) + if InFlight(x) then 1 else 0
  {
    hide InFlight;
    if tx == [] {
      assert (tx + [x])[1..] == [];
    } else {
      CountAppends(tx[1..], x);
      assert (tx + [x])[1..] == tx[1..] + [x];
    }
  }

  lemma CandidatesAreOfferable(seen: seq<TxSdu>, i: nat, limits: Limits, ready: bool, count: nat)
    requires WindowInv(seen, count, limits.window) && i < |seen|
    ensures Offerable(seen, i, limits, !ready) <==> Candidate(seen, i, limits, ready)
  {
    hide WindowInv, SduOk;
    if Offerable(seen, i, limits, !ready) {
      OfferableIsInWindow(seen, i, limits, !ready, count);
    }
    if Candidate(seen, i, limits, ready) {
      InWindowIsNear(seen, i, limits.window, count);
    }
  }

  lemma InWindowIsNear(seen: seq<TxSdu>, i: nat, window: nat, count: nat)
    requires WindowInv(seen, count, window) && i < |seen| && seen[i].receipt < seen[0].receipt + window
    ensures i < GenerationEnd(seen) && (seen[i].ns - seen[0].ns) % 8 < window
  {
    hide SduOk;
    var front, id := seen[0].receipt, seen[i].receipt;
    assert front <= id;
    if GenerationEnd(seen) <= i {
      var repeat := GenerationEnd(seen);
      assert seen[repeat].ns == seen[0].ns && front < seen[repeat].receipt <= id;
      Mod8Distinct(seen[repeat].receipt, front);
    }
    Mod8Difference(id, front);
    Mod8Small(id - front);
  }

  // `picked` are the first positions from `i` on that may be offered, at most `budget` of them.
  ghost predicate FirstOnes(tx: seq<TxSdu>, picked: seq<nat>, i: nat, budget: nat, limits: Limits, notReady: bool) {
    && |picked| <= budget
    && (forall a | 0 <= a < |picked| :: i <= picked[a] < |tx| && Offerable(tx, picked[a], limits, notReady))
    && (forall a, b | 0 <= a < b < |picked| :: picked[a] < picked[b])
    && forall j | i <= j < |tx| && Offerable(tx, j, limits, notReady) && j !in picked ::
         |picked| == budget && forall a | 0 <= a < |picked| :: picked[a] < j
  }

  lemma {:induction false} PickIsFirst(tx: seq<TxSdu>, i: nat, budget: nat, limits: Limits, notReady: bool)
    requires i <= |tx|
    ensures FirstOnes(tx, Pick(tx, i, budget, limits, notReady), i, budget, limits, notReady)
    decreases |tx| - i
  {
    hide Offerable, FirstOnes;
    if i == |tx| || budget == 0 {
      NoneIsFirst(tx, i, budget, limits, notReady);
    } else if Offerable(tx, i, limits, notReady) {
      PickIsFirst(tx, i + 1, budget - 1, limits, notReady);
      TakesNext(tx, Pick(tx, i + 1, budget - 1, limits, notReady), i, budget, limits, notReady);
    } else {
      PickIsFirst(tx, i + 1, budget, limits, notReady);
      SkipsNext(tx, Pick(tx, i + 1, budget, limits, notReady), i, budget, limits, notReady);
    }
  }

  lemma NoneIsFirst(tx: seq<TxSdu>, i: nat, budget: nat, limits: Limits, notReady: bool)
    requires i == |tx| || budget == 0
    ensures FirstOnes(tx, [], i, budget, limits, notReady)
  {
    hide Offerable;
  }

  lemma TakesNext(tx: seq<TxSdu>, rest: seq<nat>, i: nat, budget: nat, limits: Limits, notReady: bool)
    requires i < |tx| && budget > 0 && Offerable(tx, i, limits, notReady)
    requires FirstOnes(tx, rest, i + 1, budget - 1, limits, notReady)
    ensures FirstOnes(tx, [i] + rest, i, budget, limits, notReady)
  {
    hide Offerable;
    var picked := [i] + rest;
    forall j | i <= j < |tx| && Offerable(tx, j, limits, notReady) && j !in picked
      ensures |picked| == budget && forall a | 0 <= a < |picked| :: picked[a] < j
    {
      assert picked[0] == i;
      assert j != i && j !in rest;
    }
  }

  lemma SkipsNext(tx: seq<TxSdu>, rest: seq<nat>, i: nat, budget: nat, limits: Limits, notReady: bool)
    requires i < |tx| && !Offerable(tx, i, limits, notReady) && FirstOnes(tx, rest, i + 1, budget, limits, notReady)
    ensures FirstOnes(tx, rest, i, budget, limits, notReady)
  {
    hide Offerable;
  }

  /**
   What a turn picks. Unless a TL-SDU is exhausted, no route is live, the link waits for its
   AL-SETUP, or an acknowledgement is already asked for, a turn offers the first candidates, as
   many as the window has room for beside what is under way; otherwise it offers nothing.
   */
  ghost predicate PicksRightly(link: Link, now: TdmaTime, routeLive: bool, seen: seq<TxSdu>, r: Submission) {
    var ready := TakenReady(link, now);
    var room := link.limits.window - |UnderWay(seen)|;
    if r.failed.Some? || !routeLive || (!link.receiverReady && link.notReadySince.None?) || Requested(seen) then
      r.offered == []
    else
      && (forall a, b | 0 <= a < b < |r.offered| :: r.offered[a].position < r.offered[b].position)
      && (forall a | 0 <= a < |r.offered| ::
            r.offered[a].position < |seen| && Candidate(seen, r.offered[a].position, link.limits, ready))
      && (r.offered != [] ==> |r.offered| <= room)
      && forall j: nat | j < |seen| && Candidate(seen, j, link.limits, ready) && !IsOffered(r.offered, j) ::
           |r.offered| >= room && forall a | 0 <= a < |r.offered| :: r.offered[a].position < j
  }

  lemma TurnPicks(link: Link, count: nat, now: TdmaTime, routeLive: bool)
    requires WindowInv(link.tx, count, link.limits.window)
    ensures AllSegmentsExist(link.tx)
    ensures PicksRightly(link, now, routeLive, ObserveAll(link.tx, now, link.limits).tx, Submit(link, now, routeLive))
  {
    hide WindowInv, ObserveAll, AllSegmentsExist, FirstCandidates, PicksRightly, Ordered, SduOk;
    AllSegmentsOfWindow(link.tx, count, link.limits.window);
    var seen := ObserveAll(link.tx, now, link.limits).tx;
    ObserveAllKeeps(link.tx, now, link.limits, count);
    SelectedAre(seen, link.limits, TakenReady(link, now), count);
    SubmitPicks(link, now, routeLive);
    PicksSelected(link, now, routeLive, seen, Submit(link, now, routeLive));
  }

  lemma AllSegmentsOfWindow(tx: seq<TxSdu>, count: nat, window: nat)
    requires WindowInv(tx, count, window)
    ensures AllSegmentsExist(tx)
  {
    SegmentsAllExist(tx);
  }

  // A turn may offer: nothing is exhausted, a route is live, and the link does not wait for its AL-SETUP.
  predicate MayOffer(link: Link, now: TdmaTime, routeLive: bool) {
    ObserveAll(link.tx, now, link.limits).failed.None? && routeLive && (link.receiverReady || link.notReadySince.Some?)
  }

  lemma SubmitPicks(link: Link, now: TdmaTime, routeLive: bool)
    requires AllSegmentsExist(link.tx)
    ensures var seen, r := ObserveAll(link.tx, now, link.limits), Submit(link, now, routeLive);
            var picked := if MayOffer(link, now, routeLive)
              then Selected(seen.tx, link.limits, !TakenReady(link, now)) else [];
            && r.failed == seen.failed && |r.offered| == |picked|
            && forall a | 0 <= a < |picked| :: r.offered[a].position == picked[a]
  {
    hide ObserveAll, AllSegmentsExist, Selected, OfferAll, OfferPdus, TdmaTime.Diff;
    ObserveKeepsSegmentsExist(link.tx, now, link.limits);
  }

  lemma PicksSelected(link: Link, now: TdmaTime, routeLive: bool, seen: seq<TxSdu>, r: Submission)
    requires seen == ObserveAll(link.tx, now, link.limits).tx
             && r.failed == ObserveAll(link.tx, now, link.limits).failed
    requires var picked := if MayOffer(link, now, routeLive)
             then Selected(seen, link.limits, !TakenReady(link, now)) else [];
             |r.offered| == |picked| && forall a | 0 <= a < |picked| :: r.offered[a].position == picked[a]
    requires FirstCandidates(seen, Selected(seen, link.limits, !TakenReady(link, now)), link.limits,
                             TakenReady(link, now))
    ensures PicksRightly(link, now, routeLive, seen, r)
  {
    hide ObserveAll, Selected, Candidate, UnderWay, Requested, TakenReady;
    var picked := if MayOffer(link, now, routeLive) then Selected(seen, link.limits, !TakenReady(link, now)) else [];
    forall j: nat
      ensures IsOffered(r.offered, j) <==> j in picked
    {
      if j in picked {
        var a :| 0 <= a < |picked| && picked[a] == j;
        assert r.offered[a].position == j;
      }
    }
    if MayOffer(link, now, routeLive) && !Requested(seen) {
      assert r.failed.None? && routeLive && (link.receiverReady || link.notReadySince.Some?);
    } else {
      assert r.offered == [];
    }
  }

  ghost predicate FirstCandidates(seen: seq<TxSdu>, picked: seq<nat>, limits: Limits, ready: bool) {
    var room := limits.window - |UnderWay(seen)|;
    && (Requested(seen) ==> picked == [])
    && (forall a, b | 0 <= a < b < |picked| :: picked[a] < picked[b])
    && (forall a | 0 <= a < |picked| :: picked[a] < |seen| && Candidate(seen, picked[a], limits, ready))
    && (picked != [] ==> |picked| <= room)
    && (!Requested(seen) ==> forall j: nat | j < |seen| && Candidate(seen, j, limits, ready) && j !in picked ::
          |picked| >= room && forall a | 0 <= a < |picked| :: picked[a] < j)
  }

  lemma SelectedAre(seen: seq<TxSdu>, limits: Limits, ready: bool, count: nat)
    requires WindowInv(seen, count, limits.window)
    ensures FirstCandidates(seen, Selected(seen, limits, !ready), limits, ready)
  {
    hide WindowInv, Candidate, Offerable;
    forall j: nat | j < |seen|
      ensures Offerable(seen, j, limits, !ready) <==> Candidate(seen, j, limits, ready)
    {
      CandidatesAreOfferable(seen, j, limits, ready, count);
    }
    CountsUnderWay(seen);
    var budget := if InFlightCount(seen) < limits.window then limits.window - InFlightCount(seen) else 0;
    if seen != [] && !Requested(seen) {
      PickIsFirst(seen, 0, budget, limits, !ready);
    }
  }

  // ----- What the peer says about its receiver

  /**
   The peer's word on its receiver holds until T.271 ends it: after an acknowledgement the receiver is
   taken to be ready at once if the peer said so, and otherwise from 144 slots later on.
   */
  lemma PeerIsBelieved(link: Link, ack: AlAck, heard: TdmaTime, now: TdmaTime)
    requires link.reset.None? && WellFormed(link.tx) && ack.blocks != []
    ensures var after := HandleAck(link, ack, heard).link;
            && (TakenReady(after, now) <==> ack.receiverReady || now.Diff(heard) >= 144)
            && (after.receiverReady || after.notReadySince.Some?)
  {
    hide ApplyAck, TdmaTime.Diff;
  }

  /** A turn keeps the peer's word, or forgets it once T.271 has run out. */
  lemma TurnKeepsTheWord(link: Link, now: TdmaTime, routeLive: bool)
    requires AllSegmentsExist(link.tx)
    ensures var r := Submit(link, now, routeLive);
            if r.failed.None? && TakenReady(link, now) && !link.receiverReady
            then r.link.receiverReady && r.link.notReadySince.None?
            else r.link.receiverReady == link.receiverReady && r.link.notReadySince == link.notReadySince
  {
    hide ObserveAll, Selected, OfferAll, Offerings, AllSegmentsExist, TdmaTime.Diff;
    ObserveKeepsSegmentsExist(link.tx, now, link.limits);
  }

  /** Until then a turn offers only TL-SDUs of which segments have been named, and nothing new. */
  lemma NotReadyHoldsBack(link: Link, count: nat, now: TdmaTime, routeLive: bool, o: nat)
    requires WindowInv(link.tx, count, link.limits.window) && !TakenReady(link, now)
    requires AllSegmentsExist(link.tx) && o < |Submit(link, now, routeLive).offered|
    ensures var i := Submit(link, now, routeLive).offered[o].position;
            var seen := ObserveAll(link.tx, now, link.limits).tx; i < |seen| && Named(seen[i])
  {
    hide WindowInv, AllSegmentsExist, Submit, ObserveAll, TakenReady, Named, UnderWay, Idle, Requested, IsOffered;
    TurnPicks(link, count, now, routeLive);
  }

  // ----- What a turn leaves in the queue

  /**
   A turn marks what it offered as under way, with nothing named any more, and the last TL-SDU as the
   one asked about; every other TL-SDU stays as it was looked at.
   */
  lemma TurnMarks(link: Link, now: TdmaTime, routeLive: bool, i: nat)
    requires AllSegmentsExist(link.tx) && i < |link.tx|
    ensures var seen, r := ObserveAll(link.tx, now, link.limits).tx, Submit(link, now, routeLive);
            && |r.link.tx| == |seen| == |link.tx|
            && r.link.tx[i] ==
               if IsOffered(r.offered, i) then
                 seen[i].(attempt := Some(Pending), ackRequested := r.offered[|r.offered| - 1].position == i,
                          pending := None)
               else seen[i]
  {
    hide Submit, ObserveAll, Offer, IsOffered, Selected, SegmentsExist, Offerings, OfferAll;
    var picked := SubmitShape(link, now, routeLive);
    var seen, r := ObserveAll(link.tx, now, link.limits).tx, Submit(link, now, routeLive);
    PositionsArePicked(seen, picked, r.offered, i);
    MarkedAt(seen, picked, i);
  }

  lemma PositionsArePicked(seen: seq<TxSdu>, picked: seq<nat>, offered: seq<Offering>, i: nat)
    requires forall a | 0 <= a < |picked| :: picked[a] < |seen| && SegmentsExist(seen[picked[a]])
    requires offered == Offerings(seen, picked)
    ensures IsOffered(offered, i) <==> i in picked
    ensures |offered| == |picked| && (picked != [] ==> offered[|offered| - 1].position == picked[|picked| - 1])
  {
    hide SegmentsExist, OfferPdus;
    if i in picked {
      var a :| 0 <= a < |picked| && picked[a] == i;
      assert offered[a].position == i;
    }
  }

  lemma MarkedAt(seen: seq<TxSdu>, picked: seq<nat>, i: nat)
    requires i < |seen|
    ensures OfferAll(seen, picked)[i] ==
            if i in picked then
              seen[i].(attempt := Some(Pending), ackRequested := picked[|picked| - 1] == i, pending := None)
            else seen[i]
  {
  }
}
