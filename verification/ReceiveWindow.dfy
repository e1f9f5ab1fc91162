/**
 The receive half against absolute TL-SDU numbers: `base` TL-SDUs have been delivered so
 far, and N(S) is the absolute number modulo 8.
 */
module ReceiveWindow {
  import opened Arithmetic
  import opened Wrappers
  import opened Fcs
  import opened AlPdu
  import opened Segmentation
  import opened Receiver
  import opened Reassembly

  // The absolute number a window entry stands for.
  function Absolute(base: nat, ns: nat): nat {
    base + (ns - base) % 8
  }

  ghost predicate EntryOk(rx: RxSdu, ns: nat, sdu: Bits) {
    && rx.ns == ns
    && Numbered(sdu) && Genuine(rx, sdu)
    && (match rx.complete
        case Some(bits) => bits == sdu && rx.finalSegment.Some?
        case None => !HasAllSegments(rx))
  }

  ghost predicate EntryFits(window: nat, base: nat, accepted: seq<Bits>, limit: nat, aired: iset<nat>, ns: nat,
                            rx: RxSdu) {
    var id := Absolute(base, ns);
    && ns < 8 && id < base + window && id < limit && id < |accepted|
    && EntryOk(rx, ns, accepted[id])
    && (rx.finalSegment.Some? ==> id in aired)
  }

  ghost predicate EntriesFit(window: nat, base: nat, accepted: seq<Bits>, limit: nat, aired: iset<nat>,
                             sdus: map<nat, RxSdu>) {
    forall ns <- sdus.Keys :: EntryFits(window, base, accepted, limit, aired, ns, sdus[ns])
  }

  ghost predicate EdgeOk(window: nat, next: nat, base: nat, accepted: seq<Bits>, limit: nat, aired: iset<nat>) {
    && 1 <= window <= 3 && next == base % 8 && base <= limit && base <= |accepted|
    && (forall k: nat | k < base :: k in aired)
  }

  // Only TL-SDUs below `limit` have ever been put on the air, and only those in `aired` with
  // their last segment.
  ghost predicate WindowOk(window: nat, next: nat, sdus: map<nat, RxSdu>, base: nat, accepted: seq<Bits>, limit: nat,
                           aired: iset<nat>) {
    && EdgeOk(window, next, base, accepted, limit, aired)
    && EntriesFit(window, base, accepted, limit, aired, sdus)
  }

  // The peer has the whole of TL-SDU `k`: delivered, or complete and waiting for its turn.
  ghost predicate Held(sdus: map<nat, RxSdu>, base: nat, window: nat, k: nat) {
    k < base || (k < base + window && k % 8 in sdus && sdus[k % 8].complete.Some?)
  }

  ghost predicate Resting(next: nat, sdus: map<nat, RxSdu>) {
    next in sdus ==> sdus[next].complete.None?
  }

  lemma AbsoluteOf(base: nat, id: nat)
    requires base <= id < base + 8
    ensures Absolute(base, id % 8) == id
  {
    Mod8Difference(id, base);
    Mod8Small(id - base);
  }

  lemma AbsoluteAfter(base: nat, ns: nat)
    requires ns < 8 && ns != base % 8
    ensures Absolute(base + 1, ns) == Absolute(base, ns)
  {
    var d := (ns - base) % 8;
    assert d != 0 by {
      if d == 0 {
        Euclid(ns, 8, 0, ns);
        Mod8Sum(base, d);
        Mod8Sum(ns - base, base);
      }
    }
    Mod8Sum(ns - base, -1);
    Mod8Small(d - 1);
  }

  lemma NextIs(base: nat)
    ensures (base % 8 + 1) % 8 == (base + 1) % 8
  {
    Mod8Sum(base, 1);
  }

  lemma DeliverOne(window: nat, next: nat, sdus: map<nat, RxSdu>, base: nat, accepted: seq<Bits>, limit: nat,
                   aired: iset<nat>)
    requires WindowOk(window, next, sdus, base, accepted, limit, aired)
    requires next in sdus && sdus[next].complete.Some?
    ensures base < |accepted| && sdus[next].complete.value == accepted[base]
    ensures WindowOk(window, (next + 1) % 8, sdus - {next}, base + 1, accepted, limit, aired)
    ensures window <= 3 && next == base % 8
  {
    hide EntryFits;
    assert EntryFits(window, base, accepted, limit, aired, next, sdus[next]);
    hide EntriesFit;
    FirstIsDone(window, base, accepted, limit, aired, sdus[next]);
    OthersFit(window, base, accepted, limit, aired, sdus);
    EdgeMoves(window, base, accepted, limit, aired);
  }

  lemma EdgeMoves(window: nat, base: nat, accepted: seq<Bits>, limit: nat, aired: iset<nat>)
    requires EdgeOk(window, base % 8, base, accepted, limit, aired) && base < limit && base < |accepted|
             && base in aired
    ensures EdgeOk(window, (base % 8 + 1) % 8, base + 1, accepted, limit, aired)
  {
    NextIs(base);
  }

  lemma OthersFit(window: nat, base: nat, accepted: seq<Bits>, limit: nat, aired: iset<nat>, sdus: map<nat, RxSdu>)
    requires EntriesFit(window, base, accepted, limit, aired, sdus)
    ensures EntriesFit(window, base + 1, accepted, limit, aired, sdus - {base % 8})
  {
    hide EntryFits;
    var rest := sdus - {base % 8};
    forall ns <- rest.Keys
      ensures EntryFits(window, base + 1, accepted, limit, aired, ns, rest[ns])
    {
      FitsAfterOne(window, base, accepted, limit, aired, ns, sdus[ns]);
    }
  }

  lemma FirstIsDone(window: nat, base: nat, accepted: seq<Bits>, limit: nat, aired: iset<nat>, rx: RxSdu)
    requires EntryFits(window, base, accepted, limit, aired, base % 8, rx) && rx.complete.Some?
    ensures base < |accepted| && base < limit && base in aired && rx.complete.value == accepted[base]
  {
    AbsoluteOf(base, base);
    hide Absolute, Genuine, HasAllSegments, Numbered;
  }

  lemma FitsAfterOne(window: nat, base: nat, accepted: seq<Bits>, limit: nat, aired: iset<nat>, ns: nat, rx: RxSdu)
    requires EntryFits(window, base, accepted, limit, aired, ns, rx) && ns != base % 8
    ensures EntryFits(window, base + 1, accepted, limit, aired, ns, rx)
  {
    AbsoluteAfter(base, ns);
    hide Absolute, EntryOk;
  }

  // What delivery from the lower edge of the window does.
  ghost predicate DrainOk(window: nat, sdus: map<nat, RxSdu>, base: nat, accepted: seq<Bits>, limit: nat,
                          aired: iset<nat>, r: Drained) {
    var base' := base + |r.delivered|;
    && WindowOk(window, r.next, r.sdus, base', accepted, limit, aired) && Resting(r.next, r.sdus)
    && base' <= |accepted| && r.delivered == accepted[base..base']
    && (forall k: nat | Held(sdus, base, window, k) :: Held(r.sdus, base', window, k))
  }

  lemma {:induction false} DrainDelivers(window: nat, next: nat, sdus: map<nat, RxSdu>, base: nat, accepted: seq<Bits>,
                                         limit: nat, aired: iset<nat>)
    requires WindowOk(window, next, sdus, base, accepted, limit, aired)
    ensures DrainOk(window, sdus, base, accepted, limit, aired, Drain(next, sdus))
    decreases |sdus|
  {
    hide WindowOk, Held, DrainOk;
    if next in sdus && sdus[next].complete.Some? {
      DeliverOne(window, next, sdus, base, accepted, limit, aired);
      var rest := sdus - {next};
      assert rest.Keys == sdus.Keys - {next};
      assert |rest.Keys| < |sdus.Keys|;
      DrainDelivers(window, (next + 1) % 8, rest, base + 1, accepted, limit, aired);
      DrainBounds(window, rest, base + 1, accepted, limit, aired, Drain((next + 1) % 8, rest));
      HeldAfterOne(sdus, base, window);
      DrainOneMore(window, sdus, rest, base, accepted, limit, aired, Drain((next + 1) % 8, rest));
    } else {
      DrainNothing(window, next, sdus, base, accepted, limit, aired);
    }
  }

  lemma DrainNothing(window: nat, next: nat, sdus: map<nat, RxSdu>, base: nat, accepted: seq<Bits>, limit: nat,
                     aired: iset<nat>)
    requires WindowOk(window, next, sdus, base, accepted, limit, aired) && Resting(next, sdus)
    ensures DrainOk(window, sdus, base, accepted, limit, aired, Drained(next, sdus, []))
  {
    assert base <= |accepted|;
    hide WindowOk, Held;
    assert accepted[base..base] == [];
  }

  lemma DrainBounds(window: nat, sdus: map<nat, RxSdu>, base: nat, accepted: seq<Bits>, limit: nat, aired: iset<nat>,
                    r: Drained)
    requires DrainOk(window, sdus, base, accepted, limit, aired, r)
    ensures base + |r.delivered| <= |accepted|
  {
    hide WindowOk, Held, Resting;
  }

  lemma DrainOneMore(window: nat, sdus: map<nat, RxSdu>, rest: map<nat, RxSdu>, base: nat, accepted: seq<Bits>,
                     limit: nat, aired: iset<nat>, r: Drained)
    requires base < |accepted| && base + 1 + |r.delivered| <= |accepted|
    requires DrainOk(window, rest, base + 1, accepted, limit, aired, r)
    requires forall k: nat | Held(sdus, base, window, k) :: Held(rest, base + 1, window, k)
    ensures DrainOk(window, sdus, base, accepted, limit, aired, r.(delivered := [accepted[base]] + r.delivered))
  {
    hide WindowOk, Held, Resting;
    var n := |r.delivered|;
    assert accepted[base..base + 1 + n] == [accepted[base]] + accepted[base + 1..base + 1 + n];
  }

  lemma HeldAfterOne(sdus: map<nat, RxSdu>, base: nat, window: nat)
    requires window <= 3
    ensures forall k: nat | Held(sdus, base, window, k) :: Held(sdus - {base % 8}, base + 1, window, k)
  {
    forall k: nat | Held(sdus, base, window, k)
      ensures Held(sdus - {base % 8}, base + 1, window, k)
    {
      if base < k && k % 8 == base % 8 {
        Mod8Distinct(k, base);
      }
    }
  }

  // What an acknowledgement whose first block is about TL-SDU `first` claims.
  ghost predicate ClaimsHeld(blocks: seq<AlAckBlock>, first: nat, sdus: map<nat, RxSdu>, base: nat, window: nat,
                             accepted: seq<Bits>) {
    && first <= base
    && 1 <= |blocks| <= window
    && forall i | 0 <= i < |blocks| ::
         && blocks[i].nr == (first + i) % 8
         && (blocks[i].IsPositive() ==> Held(sdus, base, window, first + i))
         && (!blocks[i].IsPositive() ==> NamesSegment(blocks[i], first + i, accepted))
  }

  // A block that is not positive asks for at least one segment that exists.
  predicate NamesSegment(block: AlAckBlock, about: nat, accepted: seq<Bits>) {
    && block.length != 63 && block.firstMissing.Some?
    && (block.firstMissing.value == 0
        || (about < |accepted| && block.firstMissing.value < |Segments(accepted[about])|))
  }

  lemma WindowBlocksClaim(window: nat, next: nat, sdus: map<nat, RxSdu>, base: nat, accepted: seq<Bits>, limit: nat,
                          aired: iset<nat>)
    requires WindowOk(window, next, sdus, base, accepted, limit, aired)
    ensures ClaimsHeld(AcknowledgementBlocks(window, next, sdus, None), base, sdus, base, window, accepted)
  {
    hide Absolute, EntryOk, AcknowledgementBlock, Segments;
    var blocks := AcknowledgementBlocks(window, next, sdus, None);
    forall i | 0 <= i < |blocks|
      ensures blocks[i].nr == (base + i) % 8
      ensures blocks[i].IsPositive() ==> Held(sdus, base, window, base + i)
      ensures !blocks[i].IsPositive() ==> NamesSegment(blocks[i], base + i, accepted)
    {
      Mod8Sum(base, i);
      var nr := (base + i) % 8;
      assert blocks[i] == WindowBlock(next, sdus, None, i);
      if nr in sdus {
        AbsoluteOf(base, base + i);
        EntryBlock(sdus[nr], nr, accepted[base + i]);
      }
    }
  }

  lemma EntryBlock(rx: RxSdu, ns: nat, sdu: Bits)
    requires EntryOk(rx, ns, sdu) && ns < 8
    ensures var block := AcknowledgementBlock(rx);
            && block.nr == ns && (block.IsPositive() <==> rx.complete.Some?)
            && (rx.complete.None? ==>
                  block.length != 63 && block.firstMissing.Some? && block.firstMissing.value < |Segments(sdu)|)
  {
    hide Segments, Highest, LastDescribed;
    if rx.complete.None? {
      CompleteIsTheSdu(rx, sdu);
      FirstMissingIsFirst(rx);
      BlockShape(rx);
      var lost: nat :| lost < |Segments(sdu)| && lost !in rx.segments;
    }
  }

  lemma ClaimsSurviveDrain(blocks: seq<AlAckBlock>, first: nat, sdus: map<nat, RxSdu>, base: nat,
                           sdus': map<nat, RxSdu>, base': nat, window: nat, accepted: seq<Bits>)
    requires ClaimsHeld(blocks, first, sdus, base, window, accepted)
    requires base <= base' && forall k | Held(sdus, base, window, k) :: Held(sdus', base', window, k)
    ensures ClaimsHeld(blocks, first, sdus', base', window, accepted)
  {
  }

  /** The two window tests of the receiver tell the absolute number of a recent enough PDU. */
  lemma Disambiguation(window: nat, base: nat, id: nat)
    requires 1 <= window <= 3 && base <= id + (8 - window) && id < base + window
    ensures (id % 8 - base % 8) % 8 < window <==> base <= id
    ensures base <= id ==> (id % 8 - base) % 8 == id - base
    ensures id < base ==> (base % 8 - id % 8) % 8 == base - id
  {
    Mod8Difference(id, base);
    Mod8Difference(base, id);
    Mod8Small(id - base);
    Mod8Small(base - id);
  }

  // What a reception `r` may do: the window stays, exactly the next TL-SDUs of the accepted
  // sequence are handed up, nothing held is forgotten, only held TL-SDUs are acknowledged.
  ghost predicate Received(window: nat, sdus: map<nat, RxSdu>, base: nat, accepted: seq<Bits>, limit: nat,
                           aired: iset<nat>, first: nat, r: Reception) {
    var base' := base + |r.delivered|;
    && WindowOk(window, r.next, r.sdus, base', accepted, limit, aired) && Resting(r.next, r.sdus)
    && r.delivered == accepted[base..base']
    && (forall j: nat | Held(sdus, base, window, j) :: Held(r.sdus, base', window, j))
    && (r.ack.Some? ==> ClaimsHeld(r.ack.value, first, r.sdus, base', window, accepted))
  }

  /**
   Receiving any genuine PDU that is at most `8 - window` behind the receive base, in any
   order and repeatedly, keeps the window; hands up exactly the next TL-SDUs of the accepted
   sequence; forgets nothing it held; and acknowledges only what it holds.
   */
  lemma ReceiveKeepsWindow(window: nat, next: nat, sdus: map<nat, RxSdu>, base: nat, accepted: seq<Bits>, limit: nat,
                           aired: iset<nat>, pdu: AlData, id: nat, k: nat)
    requires WindowOk(window, next, sdus, base, accepted, limit, aired) && Resting(next, sdus)
    requires id < limit <= base + window && id < |accepted| && base <= id + (8 - window)
    requires pdu.ns == id % 8 && Carries(pdu, accepted[id], k) && Numbered(accepted[id])
    requires pdu.finalSegment ==> id in aired
    ensures Received(window, sdus, base, accepted, limit, aired, if id < base then id
                     else base, Receive(window, next, sdus, pdu))
  {
    hide Received, Receive, Resting, Carries, Numbered;
    WindowEdge(window, next, sdus, base, accepted, limit, aired);
    hide WindowOk;
    if id < base {
      BelowWindow(window, next, sdus, base, accepted, pdu, id);
      ReceivedBelow(window, next, sdus, base, accepted, limit, aired, id, Receive(window, next, sdus, pdu));
    } else {
      AbsoluteOf(base, id);
      ReceiveInWindow(window, next, sdus, base, accepted, limit, aired, pdu, id, k);
    }
  }

  lemma ReceivedBelow(window: nat, next: nat, sdus: map<nat, RxSdu>, base: nat, accepted: seq<Bits>, limit: nat,
                      aired: iset<nat>, id: nat, r: Reception)
    requires WindowOk(window, next, sdus, base, accepted, limit, aired) && Resting(next, sdus)
    requires r.next == next && r.sdus == sdus && r.delivered == []
    requires r.ack.Some? ==> ClaimsHeld(r.ack.value, id, sdus, base, window, accepted)
    ensures Received(window, sdus, base, accepted, limit, aired, id, r)
  {
    WindowEdge(window, next, sdus, base, accepted, limit, aired);
    hide WindowOk, ClaimsHeld, Held;
    assert accepted[base..base] == [];
  }

  lemma BelowWindow(window: nat, next: nat, sdus: map<nat, RxSdu>, base: nat, accepted: seq<Bits>, pdu: AlData, id: nat)
    requires 1 <= window <= 3 && id < base <= id + (8 - window) && next == base % 8 && pdu.ns == id % 8
    ensures var r := Receive(window, next, sdus, pdu);
            && r.next == next && r.sdus == sdus && r.delivered == []
            && (r.ack.Some? ==> ClaimsHeld(r.ack.value, id, sdus, base, window, accepted))
  {
    Disambiguation(window, base, id);
    hide ReceiveSegment, Absorb;
    var r := Receive(window, next, sdus, pdu);
    if r.ack.Some? {
      forall i | 0 <= i < |r.ack.value|
        ensures r.ack.value[i] == Positive((id + i) % 8)
      {
        Mod8Sum(id, i);
        assert r.ack.value[i] == Positive((pdu.ns + i) % 8);
      }
    }
  }

  lemma UpdateEntry(window: nat, next: nat, sdus: map<nat, RxSdu>, base: nat, accepted: seq<Bits>, limit: nat,
                    aired: iset<nat>, ns: nat, rx: RxSdu, id: nat)
    requires WindowOk(window, next, sdus, base, accepted, limit, aired)
    requires base <= id < base + window && id < limit && id < |accepted| && ns == id % 8
    requires EntryOk(rx, ns, accepted[id]) && (rx.finalSegment.Some? ==> id in aired)
    requires ns in sdus ==> sdus[ns].complete.None?
    ensures WindowOk(window, next, sdus[ns := rx], base, accepted, limit, aired)
    ensures forall j | Held(sdus, base, window, j) :: Held(sdus[ns := rx], base, window, j)
  {
    hide Absolute, Genuine, HasAllSegments;
    AbsoluteOf(base, id);
  }

  function EntryFor(sdus: map<nat, RxSdu>, ns: nat): RxSdu {
    if ns in sdus then sdus[ns] else RxSdu(ns, map[], None, None)
  }

  lemma InWindowShape(window: nat, next: nat, sdus: map<nat, RxSdu>, pdu: AlData)
    requires (pdu.ns - next) % 8 < window
    ensures var entry := EntryFor(sdus, pdu.ns); var r := Receive(window, next, sdus, pdu);
            if entry.complete.Some? then
              r == Reception(next, sdus, Some(AcknowledgementBlocks(window, next, sdus, None)), [])
            else
              var rx := Absorb(entry, pdu);
              (HasAllSegments(rx) && !Check(Assembled(rx))) || (var updated := sdus[pdu.ns := Stored(rx)];
                  var drained := Drain(next, updated);
                  && r.next == drained.next && r.sdus == drained.sdus && r.delivered == drained.delivered
                  && (r.ack.Some? ==> r.ack.value == AcknowledgementBlocks(window, next, updated, None)))
  {
    hide AcknowledgementBlocks, Drain, Absorb, Assembled, Check, HasAllSegments;
    var rx := Absorb(EntryFor(sdus, pdu.ns), pdu);
    if HasAllSegments(rx) && Check(Assembled(rx)) {
      CheckedIsLongEnough(Assembled(rx));
    }
  }

  lemma CheckedIsLongEnough(bits: Bits)
    requires Check(bits)
    ensures |bits| >= 32
  {
  }

  lemma ReceiveInWindow(window: nat, next: nat, sdus: map<nat, RxSdu>, base: nat, accepted: seq<Bits>, limit: nat,
                        aired: iset<nat>, pdu: AlData, id: nat, k: nat)
    requires WindowOk(window, next, sdus, base, accepted, limit, aired) && Resting(next, sdus)
    requires base <= id < base + window && id < limit && id < |accepted|
    requires pdu.ns == id % 8 && Carries(pdu, accepted[id], k) && Numbered(accepted[id])
    requires pdu.finalSegment ==> id in aired
    requires Absolute(base, pdu.ns) == id
    ensures Received(window, sdus, base, accepted, limit, aired, base, Receive(window, next, sdus, pdu))
  {
    hide WindowOk, Received, Receive, Drain, AcknowledgementBlocks, Absorb, HasAllSegments, Assembled, Check, Stored,
         Carries, EntryOk, Absolute, EntryFor;
    var ns, sdu := pdu.ns, accepted[id];
    var entry := EntryFor(sdus, ns);
    WindowEdge(window, next, sdus, base, accepted, limit, aired);
    InWindowDistance(window, next, base, id);
    InWindowShape(window, next, sdus, pdu);
    EntryForIsOk(window, next, sdus, base, accepted, limit, aired, id);
    if entry.complete.Some? {
      ReceivedNothingNew(window, next, sdus, base, accepted, limit, aired);
    } else {
      StoreSegment(entry, ns, sdu, pdu, k);
      DrainAfterStore(window, next, sdus, base, accepted, limit, aired, ns, id, Stored(Absorb(entry, pdu)));
      LessAcknowledged(window, sdus, base, accepted, limit, aired, Drain(next, sdus[ns := Stored(Absorb(entry, pdu))]),
                       AcknowledgementBlocks(window, next, sdus[ns := Stored(Absorb(entry, pdu))], None));
    }
  }

  lemma WindowEdge(window: nat, next: nat, sdus: map<nat, RxSdu>, base: nat, accepted: seq<Bits>, limit: nat,
                   aired: iset<nat>)
    requires WindowOk(window, next, sdus, base, accepted, limit, aired)
    ensures 1 <= window <= 3 && next == base % 8 && base <= limit && base <= |accepted|
  {
  }

  // What reassembly of TL-SDU `id` starts from.
  lemma EntryForIsOk(window: nat, next: nat, sdus: map<nat, RxSdu>, base: nat, accepted: seq<Bits>, limit: nat,
                     aired: iset<nat>, id: nat)
    requires WindowOk(window, next, sdus, base, accepted, limit, aired)
    requires base <= id < base + window && id < |accepted| && Absolute(base, id % 8) == id
    ensures var ns := id % 8; var entry := EntryFor(sdus, ns);
            && (ns in sdus ==> entry == sdus[ns])
            && (entry == RxSdu(ns, map[], None, None)
                || (EntryOk(entry, ns, accepted[id]) && (entry.finalSegment.Some? ==> id in aired)))
  {
    hide EntryOk, Absolute;
    if id % 8 in sdus {
      assert EntryFits(window, base, accepted, limit, aired, id % 8, sdus[id % 8]);
    }
  }

  lemma ReceivedNothingNew(window: nat, next: nat, sdus: map<nat, RxSdu>, base: nat, accepted: seq<Bits>, limit: nat,
                           aired: iset<nat>)
    requires WindowOk(window, next, sdus, base, accepted, limit, aired) && Resting(next, sdus)
    ensures Received(window, sdus, base, accepted, limit, aired, base,
                     Reception(next, sdus, Some(AcknowledgementBlocks(window, next, sdus, None)), []))
  {
    WindowBlocksClaim(window, next, sdus, base, accepted, limit, aired);
    WindowEdge(window, next, sdus, base, accepted, limit, aired);
    hide WindowOk, ClaimsHeld, Held, AcknowledgementBlocks;
    assert accepted[base..base] == [];
  }

  lemma LessAcknowledged(window: nat, sdus: map<nat, RxSdu>, base: nat, accepted: seq<Bits>, limit: nat,
                         aired: iset<nat>, r: Drained, blocks: seq<AlAckBlock>)
    requires Received(window, sdus, base, accepted, limit, aired, base,
                      Reception(r.next, r.sdus, Some(blocks), r.delivered))
    ensures Received(window, sdus, base, accepted, limit, aired, base, Reception(r.next, r.sdus, None, r.delivered))
  {
    hide WindowOk, ClaimsHeld, Held;
  }

  lemma InWindowDistance(window: nat, next: nat, base: nat, id: nat)
    requires 1 <= window <= 3 && next == base % 8 && base <= id < base + window
    ensures (id % 8 - next) % 8 < window
  {
    Mod8Difference(id, base);
    Mod8Small(id - base);
  }

  lemma DrainAfterStore(window: nat, next: nat, sdus: map<nat, RxSdu>, base: nat, accepted: seq<Bits>, limit: nat,
                        aired: iset<nat>, ns: nat, id: nat, rx: RxSdu)
    requires WindowOk(window, next, sdus, base, accepted, limit, aired)
    requires base <= id < base + window && id < limit && id < |accepted| && ns == id % 8
    requires EntryOk(rx, ns, accepted[id]) && (rx.finalSegment.Some? ==> id in aired)
    requires ns in sdus ==> sdus[ns].complete.None?
    ensures var updated := sdus[ns := rx]; var r := Drain(next, updated);
            && Received(window, sdus, base, accepted, limit, aired, base,
                        Reception(r.next, r.sdus, Some(AcknowledgementBlocks(window, next, updated, None)),
                                  r.delivered))
  {
    var updated := sdus[ns := rx];
    hide WindowOk, Drain, EntryOk, AcknowledgementBlocks, DrainOk, Received, ClaimsHeld, Held;
    UpdateEntry(window, next, sdus, base, accepted, limit, aired, ns, rx, id);
    WindowBlocksClaim(window, next, updated, base, accepted, limit, aired);
    DrainDelivers(window, next, updated, base, accepted, limit, aired);
    ReceivedFromDrain(window, sdus, updated, base, accepted, limit, aired, Drain(next, updated),
                      AcknowledgementBlocks(window, next, updated, None));
  }

  lemma ReceivedFromDrain(window: nat, sdus: map<nat, RxSdu>, updated: map<nat, RxSdu>, base: nat, accepted: seq<Bits>,
                          limit: nat, aired: iset<nat>, r: Drained, blocks: seq<AlAckBlock>)
    requires DrainOk(window, updated, base, accepted, limit, aired, r)
    requires forall j | Held(sdus, base, window, j) :: Held(updated, base, window, j)
    requires ClaimsHeld(blocks, base, updated, base, window, accepted)
    ensures Received(window, sdus, base, accepted, limit, aired, base,
                     Reception(r.next, r.sdus, Some(blocks), r.delivered))
  {
    hide WindowOk, Held, ClaimsHeld;
    ClaimsSurviveDrain(blocks, base, updated, base, r.sdus, base + |r.delivered|, window, accepted);
  }

  function Stored(rx: RxSdu): RxSdu {
    if HasAllSegments(rx) && |Assembled(rx)| >= 32
    then rx.(complete := Some(Assembled(rx)[..|Assembled(rx)| - 32])) else rx
  }

  lemma StoreSegment(entry: RxSdu, ns: nat, sdu: Bits, pdu: AlData, k: nat)
    requires (EntryOk(entry, ns, sdu) && entry.complete.None?) || entry == RxSdu(ns, map[], None, None)
    requires Carries(pdu, sdu, k) && Numbered(sdu)
    ensures EntryOk(Stored(Absorb(entry, pdu)), ns, sdu)
    ensures HasAllSegments(Absorb(entry, pdu)) ==> Check(Assembled(Absorb(entry, pdu)))
    ensures Stored(Absorb(entry, pdu)).finalSegment.Some? ==> pdu.finalSegment || entry.finalSegment.Some?
  {
    AbsorbGenuine(entry, sdu, pdu, k);
    CompleteIsTheSdu(Absorb(entry, pdu), sdu);
  }
}
