/**
 Steps of which runs of the advanced link are put together, for a window of `w`. Each TL-SDU of
 such a run is one bit long, so that it travels in one segment.
 */
module RunSteps {
  import opened Arithmetic
  import opened Wrappers
  import opened Fcs
  import opened AlPdu
  import opened Tdma
  import opened TxReceipt
  import opened Segmentation
  import opened Sender
  import opened AdvancedLink
  import opened SendWindow
  import opened SendProgress
  import opened Arq
  import opened NoStall
  import Reassembly
  import R = Receiver

  // What the runs negotiate: a window of `w`, one retransmission per segment and none per TL-SDU.
  function Allow(w: nat): Limits {
    Limits(w, 0, 1)
  }

  const T0: TdmaTime := TdmaTime(1, 1, 1, 0)
  const T1: TdmaTime := T0.AddTimeslots(36)

  // Every TL-SDU of the runs is this one bit; with its FCS it is one segment.
  const PAYLOAD: Bits := [true]

  function Body(): Bits {
    Protect(PAYLOAD)
  }

  function Sdu(id: nat, reporter: TxState, attempt: Option<TxState>, ask: bool, sentAt: Option<TdmaTime>, repeats: nat,
               pending: Option<seq<nat>>): TxSdu
  {
    TxSdu(id, id % 8, [Body()], reporter, attempt, ask, sentAt, repeats, 0, [0], pending)
  }

  function Queued1(id: nat): TxSdu {
    Sdu(id, Pending, None, false, None, 0, None)
  }

  function Handed(id: nat, ask: bool, repeats: nat): TxSdu {
    Sdu(id, Pending, Some(Pending), ask, None, repeats, None)
  }

  function Aired(id: nat): TxSdu {
    Sdu(id, Transmitted, Some(Transmitted), false, None, 0, None)
  }

  // Offered once more, but dropped by the MAC.
  function Dropped(id: nat): TxSdu {
    Sdu(id, Pending, None, false, None, 1, None)
  }

  // Due to be offered once more.
  function Again(id: nat): TxSdu {
    Sdu(id, Pending, None, false, None, 1, Some([0]))
  }

  function Pdu(id: nat, ask: bool): AlData {
    AlData(true, ask, id % 8, 0, Body())
  }

  predicate Simple(sdu: TxSdu) {
    && sdu.segments == [Body()] && |sdu.segmentRetransmissions| == 1 && sdu.ns == sdu.receipt % 8
    && (sdu.pending.Some? ==> sdu.pending.value == [0]) && sdu.retransmissions == 0
  }

  predicate AllSimple(tx: seq<TxSdu>) {
    forall i | 0 <= i < |tx| :: Simple(tx[i])
  }

  // ----- Reached states

  /** Reached by a run that meets the condition of `NoStall`. */
  ghost predicate Reached(s: System) {
    exists states, actions :: IsRun(states, actions) && AlwaysAnsweredInFull(states, actions) && states[|actions|] == s
  }

  lemma Onward(s: System, a: Action)
    requires Reached(s) && Enabled(s, a) && AnsweredInFull(s, a)
    ensures Reached(Step(s, a))
  {
    hide Enabled, Step, AnsweredInFull, Initial;
    var states, actions :| IsRun(states, actions) && AlwaysAnsweredInFull(states, actions) && states[|actions|] == s;
    assert |states| == |actions| + 1;
    hide IsRun, AlwaysAnsweredInFull;
    LongerRun(states, actions, a);
    var states', actions' := states + [Step(s, a)], actions + [a];
    assert states'[|actions'|] == Step(s, a);
  }

  lemma LongerRun(states: seq<System>, actions: seq<Action>, a: Action)
    requires IsRun(states, actions) && AlwaysAnsweredInFull(states, actions)
    requires Enabled(states[|actions|], a) && AnsweredInFull(states[|actions|], a)
    ensures var states', actions' := states + [Step(states[|actions|], a)], actions + [a];
            |states'| == |states| + 1 && IsRun(states', actions') && AlwaysAnsweredInFull(states', actions')
  {
    hide Enabled, Step, AnsweredInFull, Initial;
    var states', actions' := states + [Step(states[|actions|], a)], actions + [a];
    forall i | 0 <= i < |actions'|
      ensures Enabled(states'[i], actions'[i]) && states'[i + 1] == Step(states'[i], actions'[i])
              && AnsweredInFull(states'[i], actions'[i])
    {
      if i < |actions| {
        assert states'[i] == states[i] && actions'[i] == actions[i] && states'[i + 1] == states[i + 1];
      }
    }
  }

  /** Reached by any run at all. */
  ghost predicate Reachable(s: System) {
    exists states, actions :: IsRun(states, actions) && states[|actions|] == s
  }

  lemma OneStepMore(s: System, a: Action)
    requires Reachable(s) && Enabled(s, a)
    ensures Reachable(Step(s, a))
  {
    hide Enabled, Step, Initial;
    var states, actions :| IsRun(states, actions) && states[|actions|] == s;
    var states', actions' := states + [Step(s, a)], actions + [a];
    forall i | 0 <= i < |actions'|
      ensures Enabled(states'[i], actions'[i]) && states'[i + 1] == Step(states'[i], actions'[i])
    {
      if i < |actions| {
        assert states'[i] == states[i] && actions'[i] == actions[i] && states'[i + 1] == states[i + 1];
      }
    }
    assert states'[|actions'|] == Step(s, a) && IsRun(states', actions');
  }

  lemma ReachedIsReachable(s: System)
    requires Reached(s)
    ensures Reachable(s)
  {
    hide IsRun, AlwaysAnsweredInFull;
  }

  // What matters of the sender, and of the peer.
  ghost predicate Sends(s: System, w: nat, tx: seq<TxSdu>, count: nat) {
    && s.sender.tx == tx && AllSimple(tx) && s.sender.limits == Allow(w) && s.sender.nextTxNs == count % 8
    && s.sender.receiverReady
    && s.sender.reset.None? && |s.own.accepted| == count
  }

  ghost predicate Receives(s: System, w: nat, next: nat, sdus: map<nat, R.RxSdu>, base: nat) {
    && s.peer.limits.window == w && s.peer.reset.None? && s.peer.nextRxNs == next && s.peer.rxSdus == sdus
    && s.base == base
  }

  predicate SamePeer(s: System, t: System) {
    t.peer == s.peer && t.base == s.base
  }

  lemma Starts(w: nat) returns (s: System)
    requires 1 <= w <= 3
    ensures Reached(s) && Sends(s, w, [], 0) && Receives(s, w, 0, map[], 0)
  {
    var link := NewLink(0, 1, Allow(w), false, T0);
    var none := Generation([], []);
    s := System(link, link, none, none, w, 0, {}, {}, {}, [], [], [], 0);
    assert IsRun([s], []) && AlwaysAnsweredInFull([s], []);
  }

  lemma OneSegment()
    ensures Segments(PAYLOAD) == [Body()] && Reassembly.Numbered(PAYLOAD)
  {
    Reassembly.SegmentNumbersAreDistinct(PAYLOAD);
    assert Body()[..33] == Body();
    assert SegmentLengths(33) == [33];
    assert Cut(Body()[33..], []) == [];
  }

  lemma Accepts(s: System, w: nat, tx: seq<TxSdu>, count: nat) returns (t: System)
    requires Reached(s) && Sends(s, w, tx, count) && |tx| < MAX_QUEUED
    ensures Reached(t) && Sends(t, w, tx + [Queued1(count)], count + 1)
    ensures SamePeer(s, t) && t.data == s.data && t.mac == s.mac && t.reports == s.reports
  {
    hide Reached, Segments, Sends, AcceptStep, PAYLOAD, Body;
    OneSegment();
    MayAccept(s, w, tx, count);
    Onward(s, Accept(PAYLOAD));
    t := Step(s, Accept(PAYLOAD));
    AcceptSends(s, w, tx, count);
  }

  lemma MayAccept(s: System, w: nat, tx: seq<TxSdu>, count: nat)
    requires Sends(s, w, tx, count)
    ensures s.sender.tx == tx
  {
    hide AllSimple, Allow;
  }

  lemma AcceptSends(s: System, w: nat, tx: seq<TxSdu>, count: nat)
    requires Sends(s, w, tx, count) && Segments(PAYLOAD) == [Body()]
    ensures var t := AcceptStep(s, PAYLOAD);
            && Sends(t, w, tx + [Queued1(count)], count + 1)
            && SamePeer(s, t) && t.data == s.data && t.mac == s.mac && t.reports == s.reports
  {
    hide Segments, Body, Allow;
    assert NewSdu(count, count % 8, Pending, [Body()]) == Queued1(count);
  }

  lemma SimpleExists(tx: seq<TxSdu>)
    requires AllSimple(tx)
    ensures AllSegmentsExist(tx) && WellFormed(tx)
  {
    forall i | 0 <= i < |tx|
      ensures SegmentsExist(tx[i])
    {
      OneOffered(tx[i], false);
    }
  }

  lemma OneOffered(sdu: TxSdu, ask: bool)
    requires Simple(sdu)
    ensures SegmentsExist(sdu) && OfferPdus(sdu, ask) == [Pdu(sdu.receipt, ask)]
  {
    assert OfferedSegments(sdu) == [0];
  }

  // A turn: the queue is looked at, and then the entries at `picked` are offered.
  lemma Turns(s: System, w: nat, tx: seq<TxSdu>, count: nat, now: TdmaTime, live: bool, seen: seq<TxSdu>,
              picked: seq<nat>) returns (t: System)
    requires Reached(s) && Sends(s, w, tx, count) && AllSimple(seen)
             && ObserveAll(tx, now, Allow(w)) == ObservedAll(seen, None)
    requires picked == (if live then Selected(seen, Allow(w), false) else []) && forall i | 0 <= i < |seen| ::
               tx[i].receipt == seen[i].receipt
    ensures Reached(t) && Sends(t, w, OfferAll(seen, picked), count)
    ensures Enabled(s, Tick(now, live)) && t == Step(s, Tick(now, live))
    ensures SamePeer(s, t) && s.data <= t.data && t.reports == s.reports && s.mac <= t.mac
    ensures forall a | 0 <= a < |picked| ::
              && picked[a] < |seen|
              && OnAir(seen[picked[a]].receipt, Pdu(seen[picked[a]].receipt, a + 1 == |picked|)) in t.mac
  {
    hide Reached, ObserveAll, Selected, OfferPdus, Pdu, LastPdus, EarlyPdus, AllSegmentsExist, AllSimple, Simple,
         WellFormed;
    TurnIs(s, w, tx, count, now, live, seen, picked);
    Onward(s, Tick(now, live));
    t := Step(s, Tick(now, live));
    if live {
      OffersThem(tx, seen, picked);
    }
    StillSimple(seen, picked);
  }

  lemma TurnIs(s: System, w: nat, tx: seq<TxSdu>, count: nat, now: TdmaTime, live: bool, seen: seq<TxSdu>,
               picked: seq<nat>)
    requires Sends(s, w, tx, count) && AllSimple(seen) && ObserveAll(tx, now, Allow(w)) == ObservedAll(seen, None)
    requires picked == if live then Selected(seen, Allow(w), false) else []
    ensures |tx| == |seen| && AllSegmentsExist(tx)
            && (forall a | 0 <= a < |picked| :: picked[a] < |seen| && SegmentsExist(seen[picked[a]]))
    ensures Submit(s.sender, now, live) == Submission(s.sender.(tx := OfferAll(seen, picked)), if live
                                                      then Offerings(seen, picked) else [], None)
    ensures CanTick(s, now, live)
  {
    hide ObserveAll, Selected, OfferPdus, AllSimple, OfferAll, WellFormed, AllSegmentsExist;
    SimpleExists(tx);
    SimpleExists(seen);
    EachExists(seen, picked);
    NoneOfThem(seen);
  }

  lemma EachExists(seen: seq<TxSdu>, picked: seq<nat>)
    requires AllSegmentsExist(seen)
    ensures forall a | 0 <= a < |picked| && picked[a] < |seen| :: SegmentsExist(seen[picked[a]])
  {
    hide SegmentsExist;
  }

  lemma NoneOfThem(seen: seq<TxSdu>)
    ensures OfferAll(seen, []) == seen
  {
  }

  lemma StillSimple(seen: seq<TxSdu>, picked: seq<nat>)
    requires AllSimple(seen) && forall a | 0 <= a < |picked| :: picked[a] < |seen|
    ensures AllSimple(OfferAll(seen, picked))
  {
  }

  lemma OffersThem(tx: seq<TxSdu>, seen: seq<TxSdu>, picked: seq<nat>)
    requires |tx| == |seen| && AllSimple(seen) && forall a | 0 <= a < |picked| ::
               picked[a] < |seen| && SegmentsExist(seen[picked[a]])
    requires forall i | 0 <= i < |tx| :: tx[i].receipt == seen[i].receipt
    ensures forall a | 0 <= a < |picked| ::
              OnAir(seen[picked[a]].receipt, Pdu(seen[picked[a]].receipt, a + 1 == |picked|)) in LastPdus(tx,
                  Offerings(seen, picked))
  {
    forall a | 0 <= a < |picked|
      ensures OnAir(seen[picked[a]].receipt, Pdu(seen[picked[a]].receipt, a + 1 == |picked|)) in LastPdus(tx,
                Offerings(seen, picked))
    {
      OneOffered(seen[picked[a]], a + 1 == |picked|);
      assert Offerings(seen, picked)[a] == Offering(picked[a], [Pdu(seen[picked[a]].receipt, a + 1 == |picked|)]);
    }
  }

  // ----- Reports of the MAC, and PDUs and acknowledgements that arrive

  lemma Airs(s: System, w: nat, tx: seq<TxSdu>, count: nat, i: nat, m: OnAir) returns (t: System)
    requires Reached(s) && Sends(s, w, tx, count) && i < |tx| && tx[i].attempt == Some(Pending) && m in s.mac
             && m.id == tx[i].receipt
    ensures Reached(t) && Sends(t, w, tx[i := tx[i].(attempt := Some(Transmitted))], count)
    ensures SamePeer(s, t) && s.data + {m} <= t.data && t.reports == s.reports
    ensures forall other <- s.mac :: other.id != m.id ==> other in t.mac
  {
    hide Reached;
    Onward(s, MacReports(i, true));
    t := Step(s, MacReports(i, true));
  }

  lemma Drops(s: System, w: nat, tx: seq<TxSdu>, count: nat, i: nat) returns (t: System)
    requires Reached(s) && Sends(s, w, tx, count) && i < |tx| && tx[i].attempt == Some(Pending)
    ensures Reached(t) && Sends(t, w, tx[i := tx[i].(attempt := Some(Discarded))], count)
    ensures SamePeer(s, t) && s.data <= t.data && t.reports == s.reports
    ensures forall other <- s.mac :: other.id != tx[i].receipt ==> other in t.mac
  {
    hide Reached;
    Onward(s, MacReports(i, false));
    t := Step(s, MacReports(i, false));
  }

  lemma Arrives(s: System, w: nat, next: nat, sdus: map<nat, R.RxSdu>, base: nat, m: OnAir) returns (t: System)
    requires Reached(s) && Receives(s, w, next, sdus, base) && s.sender.limits == Allow(w) && w <= 3
    requires m in s.data && base <= m.id + 5
    ensures var r := R.Receive(w, next, sdus, m.pdu);
            && Reached(t) && Receives(t, w, r.next, r.sdus, base + |r.delivered|)
            && t.sender == s.sender && t.own == s.own && t.data == s.data && t.mac == s.mac && s.reports <= t.reports
            && (r.ack.Some? ==> Report(if m.id < base then m.id else base, r.ack.value) in t.reports)
  {
    hide Reached, R.Receive;
    Onward(s, DeliverData(m));
    t := Step(s, DeliverData(m));
  }

  lemma Hears(s: System, w: nat, tx: seq<TxSdu>, count: nat, report: Report, left: seq<TxSdu>) returns (t: System)
    requires Reached(s) && Sends(s, w, tx, count) && report in s.reports && w <= 3
    requires ReportsWindow(report.blocks, report.first, w) && Front(tx, count) <= report.first
    requires WellFormed(tx) && report.blocks != [] && AllSimple(left)
    requires ApplyAck(tx, report.blocks, Allow(w)).tx == left && ApplyAck(tx, report.blocks, Allow(w)).failed.None?
    ensures Reached(t) && Sends(t, w, left, count)
    ensures Enabled(s, DeliverReport(report, true, T0)) && t == Step(s, DeliverReport(report, true, T0))
    ensures SamePeer(s, t) && t.data == s.data && t.mac == s.mac && t.reports == s.reports
  {
    hide Reached, ApplyAck, ReportsWindow;
    Onward(s, DeliverReport(report, true, T0));
    t := Step(s, DeliverReport(report, true, T0));
  }

  // ----- The peer

  function Done(id: nat): R.RxSdu {
    R.RxSdu(id % 8, map[0 := Body()], Some(0), Some(PAYLOAD))
  }

  lemma Completes(w: nat, next: nat, sdus: map<nat, R.RxSdu>, id: nat, ask: bool)
    requires next < 8 && (id % 8 - next) % 8 < w && id % 8 !in sdus
    ensures var updated := sdus[id % 8 := Done(id)];
            var r, d := R.Receive(w, next, sdus, Pdu(id, ask)), R.Drain(next, updated);
            r == R.Reception(d.next, d.sdus, Some(R.AcknowledgementBlocks(w, next, updated, None)), d.delivered)
  {
    hide R.Drain, R.AcknowledgementBlocks, Check, R.Assembled, R.HasAllSegments, Body, R.Absorb;
    AbsorbsOne(id, ask);
    BodyChecks();
  }

  lemma AbsorbsOne(id: nat, ask: bool)
    ensures var rx := R.Absorb(R.RxSdu(id % 8, map[], None, None), Pdu(id, ask));
            rx == R.RxSdu(id % 8, map[0 := Body()], Some(0), None) && R.HasAllSegments(rx) && R.Assembled(rx) == Body()
  {
    hide Body;
    var rx := R.Absorb(R.RxSdu(id % 8, map[], None, None), Pdu(id, ask));
    assert R.Assemble(rx.segments, 0) == [];
    assert [] + Body() == Body();
  }

  lemma BodyChecks()
    ensures Check(Body()) && |Body()| == 33 && Body()[..|Body()| - 32] == PAYLOAD
  {
    hide Checksum, Check;
    ProtectedPassesCheck(PAYLOAD);
  }

  lemma DrainsOne(next: nat, sdus: map<nat, R.RxSdu>)
    requires next in sdus && sdus[next].complete.Some?
    ensures var r, rest := R.Drain(next, sdus), R.Drain((next + 1) % 8, sdus - {next});
            r.next == rest.next && r.sdus == rest.sdus && |r.delivered| == 1 + |rest.delivered|
  {
  }

  lemma DrainsNone(next: nat, sdus: map<nat, R.RxSdu>)
    requires next !in sdus
    ensures R.Drain(next, sdus) == R.Drained(next, sdus, [])
  {
  }

  lemma {:induction false} LooksAtEach(tx: seq<TxSdu>, seen: seq<TxSdu>, now: TdmaTime, w: nat)
    requires LooksLike(tx, seen, now)
    ensures ObserveAll(tx, now, Allow(w)) == ObservedAll(seen, None)
  {
    if tx != [] {
      LooksAtEach(tx[1..], seen[1..], now, w);
      assert Finds(tx[0], seen[0], now);
      assert [seen[0]] + seen[1..] == seen;
    }
  }

  // Up to three TL-SDUs of one window, all different.
  predicate OneWindow(tx: seq<TxSdu>) {
    && 1 <= |tx| <= 3 && AllSimple(tx)
    && forall i | 0 <= i < |tx| :: tx[i].receipt == tx[0].receipt + i && !tx[i].ackRequested
  }

  lemma NumbersApart(tx: seq<TxSdu>)
    requires OneWindow(tx)
    ensures GenerationEnd(tx) == |tx| && forall i | 0 <= i < |tx| :: (tx[i].ns - tx[0].ns) % 8 == i
  {
    hide Body, InFlight;
    forall i | 0 <= i < |tx|
      ensures (tx[i].ns - tx[0].ns) % 8 == i
    {
      assert Simple(tx[i]) && Simple(tx[0]);
      Mod8Difference(tx[0].receipt + i, tx[0].receipt);
      Mod8Small(i);
    }
    assert forall i | 1 <= i < |tx| :: tx[i].ns != tx[0].ns;
  }

  lemma OfferableIs(tx: seq<TxSdu>, i: nat, w: nat)
    requires OneWindow(tx) && i < |tx| <= w
    ensures Offerable(tx, i, Allow(w), false) <==> !InFlight(tx[i])
  {
    NumbersApart(tx);
    hide InFlight;
  }

  lemma {:induction false} NoneInFlight(tx: seq<TxSdu>)
    requires forall i | 0 <= i < |tx| :: !InFlight(tx[i])
    ensures InFlightCount(tx) == 0
  {
    if tx != [] {
      NoneInFlight(tx[1..]);
    }
  }

  lemma SelectsNone(tx: seq<TxSdu>, i: nat, w: nat)
    requires i < |tx| && tx[i].ackRequested
    ensures Selected(tx, Allow(w), false) == []
  {
  }

  function OnTheAir(sdu: TxSdu): TxSdu {
    sdu.(attempt := Some(Transmitted))
  }

  lemma AcceptsToo(s: System, w: nat, tx: seq<TxSdu>, count: nat, next: nat, sdus: map<nat, R.RxSdu>, base: nat)
      returns (t: System)
    requires Reached(s) && Sends(s, w, tx, count) && Receives(s, w, next, sdus, base) && |tx| < MAX_QUEUED
    ensures Reached(t) && Sends(t, w, tx + [Queued1(count)], count + 1) && Receives(t, w, next, sdus, base)
    ensures t.data == s.data && t.mac == s.mac && t.reports == s.reports
  {
    hide Reached, Queued1, Sends;
    t := Accepts(s, w, tx, count);
  }

  // On the air, asking for the acknowledgement since `since`.
  function Asking(id: nat, since: TdmaTime): TxSdu {
    Sdu(id, Transmitted, Some(Transmitted), true, Some(since), 0, None)
  }

  function Discarding(sdu: TxSdu): TxSdu {
    sdu.(attempt := Some(Discarded))
  }

  // What a look finds does not depend on the window.
  predicate Finds(sdu: TxSdu, seen: TxSdu, now: TdmaTime) {
    Observe(sdu, now, Allow(1)) == Observed(seen, false) && sdu.receipt == seen.receipt
  }

  lemma FirstLook(id: nat, now: TdmaTime)
    ensures Finds(OnTheAir(Handed(id, false, 0)), Aired(id), now)
    ensures Finds(OnTheAir(Handed(id, true, 0)), Asking(id, now), now)
    ensures Finds(Aired(id), Aired(id), now)
  {
    hide Body, IntDiff;
    IntDiffOfSelf(now.ToInt());
  }

  lemma TimerRunsOut(id: nat)
    ensures Finds(Asking(id, T0), Again(id), T1)
  {
    hide Body, IntDiff;
    AddThenDiffInside(T0, 36);
  }

  lemma DiscardSeen(id: nat, ask: bool, now: TdmaTime)
    ensures Finds(Discarding(Handed(id, ask, 1)), Dropped(id), now)
    ensures Finds(Dropped(id), Dropped(id), now)
  {
    hide Body;
  }

  predicate LooksLike(tx: seq<TxSdu>, seen: seq<TxSdu>, now: TdmaTime) {
    |tx| == |seen| && forall i | 0 <= i < |tx| :: Finds(tx[i], seen[i], now)
  }

  lemma SameReceipts(tx: seq<TxSdu>, seen: seq<TxSdu>, now: TdmaTime)
    requires LooksLike(tx, seen, now)
    ensures forall i | 0 <= i < |seen| :: tx[i].receipt == seen[i].receipt
  {
    hide TdmaTime.Diff;
  }

  lemma QuietTurn(s: System, w: nat, tx: seq<TxSdu>, count: nat, now: TdmaTime, live: bool, seen: seq<TxSdu>)
      returns (t: System)
    requires Reached(s) && Sends(s, w, tx, count) && AllSimple(seen) && LooksLike(tx, seen, now)
    requires live ==> exists i :: 0 <= i < |seen| && seen[i].ackRequested
    ensures Reached(t) && Sends(t, w, seen, count)
    ensures SamePeer(s, t) && s.data <= t.data && t.reports == s.reports && s.mac <= t.mac
  {
    hide Reached, Sends, ObserveAll, Selected, Finds, AllSimple, Enabled, Step, Allow;
    LooksAtEach(tx, seen, now, w);
    SameReceipts(tx, seen, now);
    if live {
      var i :| 0 <= i < |seen| && seen[i].ackRequested;
      SelectsNone(seen, i, w);
    }
    t := Turns(s, w, tx, count, now, live, seen, []);
    assert OfferAll(seen, []) == seen;
  }

  lemma TurnWithOne(s: System, w: nat, tx: seq<TxSdu>, count: nat, now: TdmaTime, seen: seq<TxSdu>, k: nat)
      returns (t: System)
    requires Reached(s) && Sends(s, w, tx, count) && AllSimple(seen) && LooksLike(tx, seen, now)
    requires k < |seen| && Selected(seen, Allow(w), false) == [k]
    ensures Reached(t) && Sends(t, w, seen[k := Offer(seen[k], true)], count)
    ensures Enabled(s, Tick(now, true)) && t == Step(s, Tick(now, true))
    ensures SamePeer(s, t) && s.data <= t.data && t.reports == s.reports && s.mac <= t.mac
    ensures OnAir(seen[k].receipt, Pdu(seen[k].receipt, true)) in t.mac
  {
    hide Reached, Sends, ObserveAll, Selected, Finds, AllSimple, Pdu, OfferAll, Enabled, Step, Allow;
    LooksAtEach(tx, seen, now, w);
    SameReceipts(tx, seen, now);
    OneOfThem(seen, k);
    var one := [k];
    t := Turns(s, w, tx, count, now, true, seen, one);
    assert OnAir(seen[one[0]].receipt, Pdu(seen[one[0]].receipt, 0 + 1 == |one|)) in t.mac;
  }

  lemma OneOfThem(seen: seq<TxSdu>, k: nat)
    requires k < |seen|
    ensures OfferAll(seen, [k]) == seen[k := Offer(seen[k], true)]
  {
    hide Offer;
  }

  lemma SimpleOnes(id: nat)
    ensures Simple(Aired(id)) && Simple(Asking(id, T0)) && Simple(Asking(id, T1)) && Simple(Dropped(id))
            && Simple(Again(id))
    ensures Simple(Queued1(id)) && Simple(Handed(id, false, 1)) && Simple(Handed(id, true, 1))
    ensures InFlight(Aired(id)) && !InFlight(Dropped(id)) && !InFlight(Again(id)) && !InFlight(Queued1(id))
  {
    hide Body;
  }

  lemma Three(a: TxSdu, b: TxSdu, c: TxSdu)
    requires Simple(a) && Simple(b) && Simple(c)
    ensures AllSimple([a, b, c]) && AllSimple([a, b])
  {
    hide Simple;
  }

  lemma ThreeFound(a: TxSdu, b: TxSdu, c: TxSdu, a': TxSdu, b': TxSdu, c': TxSdu, now: TdmaTime)
    requires Finds(a, a', now) && Finds(b, b', now) && Finds(c, c', now)
    ensures LooksLike([a, b, c], [a', b', c'], now) && LooksLike([a, b], [a', b'], now)
  {
    hide Finds;
  }

  lemma ThenStalls(s: System, report: Report, now: TdmaTime, left: seq<TxSdu>)
    requires CanReport(s, report) && Stalls(s.sender, report.blocks, now, left)
    ensures Enabled(s, DeliverReport(report, true, now)) && HasStalled(Step(s, DeliverReport(report, true, now)))
    ensures Window(Step(s, DeliverReport(report, true, now))) == Window(s)
  {
    hide ApplyAck, Silent, Requested;
  }

  lemma HandedIs(id: nat, ask: bool, repeats: nat)
    ensures Handed(id, ask, repeats).attempt == Some(Pending) && Handed(id, ask, repeats).receipt == id
  {
  }

  function Absent(nr: nat): AlAckBlock {
    AlAckBlock(nr, 1, Some(0), [])
  }

  lemma DoneIs(id: nat)
    ensures Done(id).complete.Some?
  {
    hide Body;
  }

  // ----- Two TL-SDUs of one window

  function OfTwo(id: nat): OnAir {
    OnAir(id, Pdu(id, id == 1))
  }

  lemma TwoAccepted(w: nat) returns (s: System)
    requires 2 <= w <= 3
    ensures Reached(s) && Receives(s, w, 0, map[], 0) && Sends(s, w, [Queued1(0), Queued1(1)], 2)
  {
    hide Reached, Receives, Sends, Queued1;
    s := Starts(w);
    var none: seq<TxSdu> := [];
    s := AcceptsToo(s, w, none, 0, 0, map[], 0);
    s := AcceptsToo(s, w, none + [Queued1(0)], 1, 0, map[], 0);
    assert none + [Queued1(0)] + [Queued1(1)] == [Queued1(0), Queued1(1)];
  }

  lemma SelectsBoth(tx: seq<TxSdu>, w: nat)
    requires OneWindow(tx) && |tx| == 2 <= w && !InFlight(tx[0]) && !InFlight(tx[1])
    ensures Selected(tx, Allow(w), false) == [0, 1]
  {
    OfferableIs(tx, 0, w);
    OfferableIs(tx, 1, w);
    hide Offerable, OneWindow;
    NoneInFlight(tx);
    assert Pick(tx, 2, w - 2, Allow(w), false) == [];
    assert Pick(tx, 1, w - 1, Allow(w), false) == [1];
    assert Pick(tx, 0, w, Allow(w), false) == [0, 1];
  }

  lemma BothSelected(now: TdmaTime, w: nat)
    requires 2 <= w
    ensures var waiting := [Queued1(0), Queued1(1)];
            && AllSimple(waiting) && ObserveAll(waiting, now, Allow(w)) == ObservedAll(waiting, None)
            && Selected(waiting, Allow(w), false) == [0, 1] && waiting[0].receipt == 0 && waiting[1].receipt == 1
            && OfferAll(waiting, [0, 1]) == [Handed(0, false, 0), Handed(1, true, 0)]
  {
    hide Body, ObserveAll, Selected;
    var waiting := [Queued1(0), Queued1(1)];
    SelectsBoth(waiting, w);
    LooksAtEach(waiting, waiting, now, w);
    assert OfferAll(waiting, [0, 1]) == [Handed(0, false, 0), Handed(1, true, 0)];
  }

  /** TL-SDUs 0 and 1 are accepted and handed to the MAC; 1 is to ask. */
  lemma TwoHanded(w: nat) returns (s: System)
    requires 2 <= w <= 3
    ensures Reached(s) && Receives(s, w, 0, map[], 0) && Sends(s, w, [Handed(0, false, 0), Handed(1, true, 0)], 2)
    ensures OfTwo(0) in s.mac && OfTwo(1) in s.mac
  {
    hide Reached, Sends, Queued1, Handed, Pdu, ObserveAll, Selected, AllSimple, OfferAll;
    s := TwoAccepted(w);
    BothSelected(T0, w);
    var both: seq<nat> := [0, 1];
    s := Turns(s, w, [Queued1(0), Queued1(1)], 2, T0, true, [Queued1(0), Queued1(1)], both);
    assert both[0] == 0 && both[1] == 1;
  }
}
