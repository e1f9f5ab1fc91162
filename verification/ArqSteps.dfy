/** Every step of the advanced link keeps the invariant of `Arq`. */
module ArqSteps {
  import opened Arithmetic
  import opened Wrappers
  import opened Fcs
  import opened AlPdu
  import opened Tdma
  import opened TxReceipt
  import opened Segmentation
  import opened Reassembly
  import opened Sender
  import opened AdvancedLink
  import opened SendWindow
  import opened ReceiveWindow
  import opened Arq
  import R = Receiver

  // ----- The peer never falls behind the sender's front

  lemma FrontNotAheadOfBase(s: System, tx: seq<TxSdu>, count: nat)
    requires 1 <= Window(s) <= 3 && Ordered(tx, count) && PeerOk(s) && count == |s.heard.accepted|
    requires forall k: nat | k < count :: Queued(tx, k) || HeldBy(s, k)
    ensures Front(tx, count) <= s.base
  {
    hide Absolute, EntryOk;
    if s.base < count {
      assert s.peer.nextRxNs == s.base % 8;
      assert !HeldBy(s, s.base);
      assert Queued(tx, s.base);
      var i :| 0 <= i < |tx| && tx[i].receipt == s.base;
    }
  }

  // ----- Accepting a TL-SDU

  lemma EnqueueQueued(tx: seq<TxSdu>, x: TxSdu)
    ensures forall k :: Queued(tx + [x], k) <==> Queued(tx, k) || k == x.receipt
  {
    var grown := tx + [x];
    forall k
      ensures Queued(grown, k) <==> Queued(tx, k) || k == x.receipt
    {
      QueuedSplit(grown, |tx|, k);
      assert grown[..|tx|] == tx && grown[|tx|..] == [x];
      assert [x][0].receipt == x.receipt;
    }
  }

  lemma NewSduOk(receipt: nat, ns: nat, sdu: Bits)
    ensures var x := NewSdu(receipt, ns, Pending, Segments(sdu));
            && SduOk(x) && !WasSent(x) && NeverOffered(x) && x.segments == Segments(sdu) && !x.ackRequested
            && x.receipt == receipt && x.ns == ns && x.pending.None? && x.attempt.None?
  {
    hide Segments;
  }

  lemma EnqueueKeeps(link: Link, g: Generation, sdu: Bits, origin: nat)
    requires SenderOk(link, g)
    ensures var grown := Generation(g.accepted + [sdu], g.origin + [origin]);
            var after := Enqueue(link, |g.accepted|, Pending, sdu);
            && SenderOk(after, grown)
            && Front(after.tx, |grown.accepted|) == Front(link.tx, |g.accepted|)
            && (forall k :: Queued(after.tx, k) <==> Queued(link.tx, k) || k == |g.accepted|)
  {
    hide Queued, SduOk, WasSent, PendingTouched, OneRequest, Segments, NewSdu, Front;
    var n := |g.accepted|;
    var x := NewSdu(n, link.nextTxNs, Pending, Segments(sdu));
    var after := link.tx + [x];
    NewSduOk(n, link.nextTxNs, sdu);
    assert x.segments == Segments(sdu) && x.receipt == n && x.ns == link.nextTxNs;
    EnqueueWindow(link.tx, x, n, link.limits.window);
    EnqueueQuiet(link.tx, x);
    Mod8Sum(n, 1);
    hide WindowInv;
    assert forall i | 0 <= i < |after| :: after[i] == if i < |link.tx| then link.tx[i] else x;
  }

  lemma EnqueueQuiet(tx: seq<TxSdu>, x: TxSdu)
    requires OneRequest(tx) && PendingTouched(tx) && !x.ackRequested && x.pending.None?
    ensures OneRequest(tx + [x]) && PendingTouched(tx + [x])
  {
    hide Touched;
  }

  lemma EnqueueWindow(tx: seq<TxSdu>, x: TxSdu, count: nat, window: nat)
    requires WindowInv(tx, count, window)
    requires SduOk(x) && !WasSent(x) && x.receipt == count && x.ns == count % 8
    ensures WindowInv(tx + [x], count + 1, window) && Front(tx + [x], count + 1) == Front(tx, count)
    ensures forall k :: Queued(tx + [x], k) <==> Queued(tx, k) || k == count
  {
    EnqueueQueued(tx, x);
    hide Queued, SduOk, WasSent;
    var after := tx + [x];
    assert forall i | 0 <= i < |after| :: after[i] == if i < |tx| then tx[i] else x;
  }

  lemma {:induction false} UnairedEnqueue(tx: seq<TxSdu>, x: TxSdu, data: set<OnAir>, mac: set<OnAir>)
    requires UnairedOk(tx, data, mac)
    requires forall m <- data + mac :: m.id != x.receipt
    ensures UnairedOk(tx + [x], data, mac)
  {
  }

  lemma ClaimsUnderAppend(r: Report, sdus: map<nat, R.RxSdu>, base: nat, window: nat, accepted: seq<Bits>, sdu: Bits)
    requires ClaimsHeld(r.blocks, r.first, sdus, base, window, accepted)
    ensures ClaimsHeld(r.blocks, r.first, sdus, base, window, accepted + [sdu])
  {
    hide Segments, Held;
  }

  lemma WindowUnderAppend(window: nat, next: nat, sdus: map<nat, R.RxSdu>, base: nat, accepted: seq<Bits>,
                          horizon: nat, aired: iset<nat>, sdu: Bits)
    requires WindowOk(window, next, sdus, base, accepted, horizon, aired)
    ensures WindowOk(window, next, sdus, base, accepted + [sdu], horizon, aired)
  {
    hide Absolute, EntryOk;
  }

  lemma AcceptKeepsHistory(s: System, sdu: Bits)
    requires HistoryOk(s) && Reassembly.Numbered(sdu) && (s.sender.reset.None? ==> s.own == s.heard)
    ensures HistoryOk(AcceptStep(s, sdu))
  {
    hide Segments;
    var t := AcceptStep(s, sdu);
    assert GenerationOk(t.own, t.arrivals);
    assert GenerationOk(t.heard, t.arrivals);
    assert TraceOk(t);
    assert t.heard.accepted[..t.base] == s.heard.accepted[..s.base];
  }

  lemma AcceptKeepsPeer(s: System, sdu: Bits)
    requires PeerOk(s) && AirOk(s.data + s.mac, s.heard, s.horizon) && (s.sender.reset.None? ==> s.own == s.heard)
    ensures var t := AcceptStep(s, sdu); PeerOk(t) && AirOk(t.data + t.mac, t.heard, t.horizon)
  {
    WindowUnderAppend(Window(s), s.peer.nextRxNs, s.peer.rxSdus, s.base, s.heard.accepted, s.horizon,
                      LastAired(s.data), sdu);
    AirUnderAppend(s.data + s.mac, s.heard, s.horizon, sdu, |s.arrivals|);
    hide WindowOk, AirOk, LastAired, Resting;
  }

  lemma AirUnderAppend(pdus: set<OnAir>, g: Generation, horizon: nat, sdu: Bits, origin: nat)
    requires AirOk(pdus, g, horizon)
    ensures AirOk(pdus, Generation(g.accepted + [sdu], g.origin + [origin]), horizon)
  {
    hide Carries;
    var grown := g.accepted + [sdu];
    forall m <- pdus
      ensures exists k: nat :: Carries(m.pdu, grown[m.id], k)
    {
      var k: nat :| Carries(m.pdu, g.accepted[m.id], k);
      assert Carries(m.pdu, grown[m.id], k);
    }
  }

  lemma AcceptKeepsStep(s: System, sdu: Bits)
    requires InStep(s) && SenderOk(s.sender, s.own) && AirOk(s.data + s.mac, s.heard, s.horizon) && s.sender.reset.None?
    ensures InStep(AcceptStep(s, sdu))
  {
    hide SenderOk, Segments, Carries, NewSdu, ClaimsHeld, Held, Unaired, Queued;
    var t := AcceptStep(s, sdu);
    EnqueueKeeps(s.sender, s.own, sdu, |s.arrivals|);
    NewSduOk(|s.own.accepted|, s.sender.nextTxNs, sdu);
    UnairedEnqueue(s.sender.tx, NewSdu(|s.own.accepted|, s.sender.nextTxNs, Pending, Segments(sdu)), s.data, s.mac);
    forall r <- s.reports
      ensures ClaimsHeld(r.blocks, r.first, s.peer.rxSdus, s.base, Window(s), t.heard.accepted)
    {
      ClaimsUnderAppend(r, s.peer.rxSdus, s.base, Window(s), s.heard.accepted, sdu);
    }
  }

  lemma AcceptKeeps(s: System, sdu: Bits)
    requires Inv(s) && Reassembly.Numbered(sdu)
    ensures Inv(AcceptStep(s, sdu))
  {
    hide HistoryOk, SenderOk, PeerOk, AirOk;
    var t := AcceptStep(s, sdu);
    EnqueueKeeps(s.sender, s.own, sdu, |s.arrivals|);
    AcceptKeepsHistory(s, sdu);
    AcceptKeepsPeer(s, sdu);
    if s.sender.reset.None? {
      AcceptKeepsStep(s, sdu);
      hide InStep;
    } else {
      AcceptWhileResetting(s, sdu);
    }
  }

  lemma AcceptWhileResetting(s: System, sdu: Bits)
    requires HistoryOk(s) && PhaseOk(s) && s.sender.reset.Some?
    ensures PhaseOk(AcceptStep(s, sdu))
  {
    hide Segments;
    var t := AcceptStep(s, sdu);
    NewSduOk(|s.own.accepted|, s.sender.nextTxNs, sdu);
    hide NewSdu, NeverOffered;
    var ceiling: nat :| Resetting(s, ceiling);
    assert Resetting(t, ceiling);
    assert Before(t.trace, t.own.origin, 0);
  }

  // ----- The MAC

  lemma WindowUnderAiring(window: nat, next: nat, sdus: map<nat, R.RxSdu>, base: nat, accepted: seq<Bits>,
                          horizon: nat, horizon': nat, aired: iset<nat>, aired': iset<nat>)
    requires WindowOk(window, next, sdus, base, accepted, horizon, aired) && aired <= aired' && horizon <= horizon'
    ensures WindowOk(window, next, sdus, base, accepted, horizon', aired')
  {
    hide Absolute, EntryOk;
  }

  lemma AiredGrows(data: set<OnAir>, data': set<OnAir>)
    requires data <= data'
    ensures LastAired(data) <= LastAired(data')
  {
  }

  // More of what the MAC holds is on the air; nothing else about the two ends changes.
  lemma AiringKeepsPeer(s: System, t: System)
    requires PeerOk(s) && AirOk(s.data + s.mac, s.heard, s.horizon)
    requires t.peer == s.peer && t.heard == s.heard && t.base == s.base && t.horizon == s.horizon
             && t.sender.limits == s.sender.limits
    requires s.data <= t.data && t.data + t.mac <= s.data + s.mac
    ensures PeerOk(t) && AirOk(t.data + t.mac, t.heard, t.horizon)
  {
    AiredGrows(s.data, t.data);
    WindowUnderAiring(Window(s), s.peer.nextRxNs, s.peer.rxSdus, s.base, s.heard.accepted, s.horizon, t.horizon,
                      LastAired(s.data), LastAired(t.data));
    hide WindowOk, Carries, LastAired;
  }

  lemma MacReportKeepsSdu(sdu: TxSdu, aired: bool)
    requires SduOk(sdu) && sdu.attempt == Some(Pending)
    ensures var after := sdu.(attempt := Some(if aired then Transmitted else Discarded));
            && SduOk(after) && WasSent(sdu) && WasSent(after) && (Touched(after) <==> Touched(sdu))
            && (Unaired(after) <==> !aired && Unaired(sdu)) && after.attempt != Some(Pending)
  {
    var after := sdu.(attempt := Some(if aired then Transmitted else Discarded));
    assert OfferedSegments(after) == OfferedSegments(sdu);
  }

  lemma MacReportKeepsSender(link: Link, g: Generation, i: nat, aired: bool)
    requires SenderOk(link, g) && i < |link.tx| && link.tx[i].attempt == Some(Pending)
    ensures var after := MacReport(link, i, if aired then Transmitted else Discarded);
            && SenderOk(after, g) && SameQueue(link.tx, after.tx)
            && Front(after.tx, |g.accepted|) == Front(link.tx, |g.accepted|)
            && (forall k :: Queued(link.tx, k) <==> Queued(after.tx, k))
  {
    hide SduOk, WasSent, Touched, Segments;
    MacReportKeepsSdu(link.tx[i], aired);
    var sdu := link.tx[i].(attempt := Some(if aired then Transmitted else Discarded));
    ReplaceKeeps(link.tx, i, sdu, |g.accepted|, link.limits.window);
    SameQueueKeeps(link.tx, link.tx[i := sdu], |g.accepted|, link.limits.window);
  }

  lemma MacReportsUnaired(s: System, i: nat, aired: bool)
    requires SenderOk(s.sender, s.own) && i < |s.sender.tx| && s.sender.tx[i].attempt == Some(Pending)
    requires UnairedOk(s.sender.tx, s.data, s.mac)
    ensures var t := MacReportsStep(s, i, aired); UnairedOk(t.sender.tx, t.data, t.mac)
  {
    hide SduOk, WasSent, Touched, Segments, Unaired;
    MacReportKeepsSdu(s.sender.tx[i], aired);
    var t := MacReportsStep(s, i, aired);
    var its := OfTlSdu(s.mac, s.sender.tx[i].receipt);
    assert LastAired(t.data) <= LastAired(s.data) + (if aired then iset{s.sender.tx[i].receipt} else iset{});
    forall j | 0 <= j < |t.sender.tx| && Unaired(t.sender.tx[j])
      ensures t.sender.tx[j].receipt !in LastAired(t.data)
      ensures t.sender.tx[j].attempt != Some(Pending) ==> forall m <- t.mac :: m.id != t.sender.tx[j].receipt
    {
      assert j != i ==> t.sender.tx[j] == s.sender.tx[j] && s.sender.tx[j].receipt != s.sender.tx[i].receipt;
    }
  }

  // The receiving side, the numbering and the histories of `s` and `t` are the same.
  ghost predicate OnlySendingDiffers(s: System, t: System) {
    t == s.(sender := t.sender, data := t.data, mac := t.mac, horizon := t.horizon)
      && t.sender.limits == s.sender.limits
  }

  lemma SameHistory(s: System, t: System)
    requires OnlySendingDiffers(s, t)
    ensures HistoryOk(s) <==> HistoryOk(t)
    ensures ReportsOk(s) <==> ReportsOk(t)
    ensures forall k: nat :: HeldBy(s, k) <==> HeldBy(t, k)
  {
    hide ClaimsHeld, Held, GenerationOk, Before;
  }

  lemma MacReportsKeeps(s: System, i: nat, aired: bool)
    requires Inv(s) && s.sender.reset.None? && i < |s.sender.tx| && s.sender.tx[i].attempt == Some(Pending)
    ensures Inv(MacReportsStep(s, i, aired))
  {
    hide Inv, HistoryOk, SenderOk, PeerOk, InStep, AirOk, Front, Queued, MacReportsStep;
    var t := MacReportsStep(s, i, aired);
    InStepFacts(s);
    MacReportKeepsSender(s.sender, s.own, i, aired);
    MacReportsMoves(s, i, aired);
    AiringKeepsPeer(s, t);
    SameHistory(s, t);
    MacReportsPhase(s, i, aired);
    FewerAirOk(s.data + s.mac, t.data + t.mac, s.heard, s.horizon);
    InStepIsInv(t);
  }

  // A report of the MAC marks an attempt, and what it held of it moves on to the air or is dropped.
  lemma MacReportsMoves(s: System, i: nat, aired: bool)
    requires i < |s.sender.tx|
    ensures var t := MacReportsStep(s, i, aired);
            && t == s.(sender := MacReport(s.sender, i, if aired then Transmitted else Discarded),
                       data := t.data, mac := t.mac)
            && t.sender.limits == s.sender.limits && t.sender.reset == s.sender.reset
            && s.data <= t.data && t.data + t.mac <= s.data + s.mac
  {
    hide Unaired;
  }

  lemma FewerAirOk(a: set<OnAir>, b: set<OnAir>, g: Generation, horizon: nat)
    requires AirOk(a, g, horizon) && b <= a
    ensures AirOk(b, g, horizon)
  {
    hide Carries;
  }

  lemma MacReportsPhase(s: System, i: nat, aired: bool)
    requires InStep(s) && SenderOk(s.sender, s.own) && s.sender.reset.None?
    requires i < |s.sender.tx| && s.sender.tx[i].attempt == Some(Pending)
    ensures InStep(MacReportsStep(s, i, aired))
  {
    var t := MacReportsStep(s, i, aired);
    MacReportKeepsSender(s.sender, s.own, i, aired);
    MacReportsUnaired(s, i, aired);
    SameHistory(s, t);
    hide HistoryOk, SenderOk, UnairedOk, ReportsOk, Queued, HeldBy, Front;
  }

  lemma LastAiredWith(data: set<OnAir>, m: OnAir)
    ensures LastAired(data + {m}) == LastAired(data) + (if m.pdu.finalSegment then iset{m.id} else iset{})
  {
  }

  lemma MacAirsPhase(s: System, m: OnAir)
    requires PhaseOk(s) && CanAir(s, m)
    ensures PhaseOk(s.(data := s.data + {m}, mac := s.mac - {m}))
  {
    var t := s.(data := s.data + {m}, mac := s.mac - {m});
    SameHistory(s, t);
    LastAiredWith(s.data, m);
    if s.sender.reset.Some? {
      var ceiling: nat :| Resetting(s, ceiling);
      assert Resetting(t, ceiling);
    } else {
      hide HistoryOk, ReportsOk, Queued, Unaired, HeldBy, LastAired;
      assert UnairedOk(t.sender.tx, t.data, t.mac);
    }
  }

  lemma MacAirsKeeps(s: System, m: OnAir)
    requires Inv(s) && CanAir(s, m)
    ensures Inv(s.(data := s.data + {m}, mac := s.mac - {m}))
  {
    hide HistoryOk, SenderOk, PeerOk, AirOk, PhaseOk;
    var t := s.(data := s.data + {m}, mac := s.mac - {m});
    assert t.data + t.mac == s.data + s.mac;
    AiringKeepsPeer(s, t);
    SameHistory(s, t);
    MacAirsPhase(s, m);
  }

  // ----- The peer receives

  function FirstAbout(s: System, m: OnAir): nat {
    if m.id < s.base then m.id else s.base
  }

  // `t` is `s` after the reception `r` of `m`.
  ghost predicate Follows(s: System, m: OnAir, r: R.Reception, t: System) {
    t == s.(peer := s.peer.(nextRxNs := r.next, rxSdus := r.sdus),
            base := s.base + |r.delivered|,
            delivered := s.delivered + r.delivered,
            trace := s.trace + (if s.base + |r.delivered| <= |s.heard.origin|
                                then s.heard.origin[s.base..s.base + |r.delivered|] else []),
            reports := if r.ack.Some? then s.reports + {Report(FirstAbout(s, m), r.ack.value)} else s.reports)
  }

  ghost predicate Took(s: System, m: OnAir, r: R.Reception, t: System) {
    && Follows(s, m, r, t)
    && Received(Window(s), s.peer.rxSdus, s.base, s.heard.accepted, s.horizon, LastAired(s.data), FirstAbout(s, m), r)
    && t.base <= |s.heard.accepted| && r.delivered == s.heard.accepted[s.base..t.base]
  }

  lemma DeliverDataShape(s: System, m: OnAir, r: R.Reception)
    requires s.peer.reset.None? && s.peer.limits.window == Window(s)
    requires r == R.Receive(Window(s), s.peer.nextRxNs, s.peer.rxSdus, m.pdu)
    ensures Follows(s, m, r, DeliverDataStep(s, m))
    ensures DeliverDataStep(s, m).base == s.base + |r.delivered|
  {
    hide R.Receive;
  }

  lemma DeliverDataReceived(s: System, m: OnAir, r: R.Reception)
    requires 1 <= Window(s) <= 3 && PeerOk(s) && AirOk(s.data + s.mac, s.heard, s.horizon)
             && GenerationOk(s.heard, s.arrivals)
    requires CanArrive(s, m)
    requires r == R.Receive(Window(s), s.peer.nextRxNs, s.peer.rxSdus, m.pdu)
    ensures Received(Window(s), s.peer.rxSdus, s.base, s.heard.accepted, s.horizon, LastAired(s.data),
                     FirstAbout(s, m), r)
  {
    assert m in s.data + s.mac;
    var k: nat :| Carries(m.pdu, s.heard.accepted[m.id], k);
    assert m.pdu.finalSegment ==> m.id in LastAired(s.data);
    hide WindowOk, Carries, LastAired, Segments, R.Receive, Resting, Received;
    ReceiveKeepsWindow(Window(s), s.peer.nextRxNs, s.peer.rxSdus, s.base, s.heard.accepted, s.horizon,
                       LastAired(s.data), m.pdu, m.id, k);
  }

  lemma PeerMatches(s: System, m: OnAir)
    requires PeerOk(s)
    ensures s.peer.reset.None? && s.peer.limits.window == Window(s)
  {
    hide WindowOk, LastAired;
  }

  lemma DeliverDataReceives(s: System, m: OnAir) returns (r: R.Reception)
    requires 1 <= Window(s) <= 3 && PeerOk(s) && AirOk(s.data + s.mac, s.heard, s.horizon)
             && GenerationOk(s.heard, s.arrivals)
    requires CanArrive(s, m)
    ensures Took(s, m, r, DeliverDataStep(s, m))
  {
    hide R.Receive, DeliverDataStep, LastAired, AirOk, GenerationOk, Received, PeerOk, Follows, FirstAbout;
    PeerMatches(s, m);
    r := R.Receive(Window(s), s.peer.nextRxNs, s.peer.rxSdus, m.pdu);
    DeliverDataReceived(s, m, r);
    DeliverDataShape(s, m, r);
    ReceivedBounds(Window(s), s.peer.rxSdus, s.base, s.heard.accepted, s.horizon, LastAired(s.data),
                   FirstAbout(s, m), r);
  }

  lemma ReceivedBounds(window: nat, sdus: map<nat, R.RxSdu>, base: nat, accepted: seq<Bits>, horizon: nat,
                       aired: iset<nat>, first: nat, r: R.Reception)
    requires Received(window, sdus, base, accepted, horizon, aired, first, r)
    ensures base + |r.delivered| <= |accepted| && r.delivered == accepted[base..base + |r.delivered|]
  {
    hide Held, ClaimsHeld, Resting;
  }

  lemma AppendIncreasing(a: seq<nat>, b: seq<nat>, lo: nat, hi: nat)
    requires Increasing(a) && Increasing(b) && lo <= hi <= |b| && Before(a, b, lo)
    ensures Increasing(a + b[lo..hi]) && Before(a + b[lo..hi], b, hi)
  {
  }

  lemma HistoryFacts(s: System)
    requires HistoryOk(s)
    ensures Increasing(s.trace) && Increasing(s.heard.origin) && |s.heard.origin| == |s.heard.accepted|
  {
    hide Increasing, Before;
  }

  lemma TraceGrows(s: System, t: System, base: nat)
    requires TraceOk(s) && GenerationOk(s.heard, s.arrivals) && Increasing(t.trace) && t.arrivals == s.arrivals
    requires s.base <= base <= |s.heard.accepted| == |s.heard.origin|
    requires t.delivered == s.delivered + s.heard.accepted[s.base..base]
    requires t.trace == s.trace + s.heard.origin[s.base..base]
    ensures TraceOk(t)
  {
    hide Reassembly.Numbered, Increasing;
  }

  lemma DeliverDataHistory(s: System, t: System, base: nat)
    requires HistoryOk(s)
    requires t.own == s.own && t.heard == s.heard && t.arrivals == s.arrivals && t.base == base
    requires s.base <= base <= |s.heard.accepted|
    requires t.delivered == s.delivered + s.heard.accepted[s.base..base]
    requires t.trace == s.trace + s.heard.origin[s.base..base]
    ensures HistoryOk(t)
  {
    hide Reassembly.Numbered, Increasing, Before, GenerationOk, TraceOk;
    HistoryFacts(s);
    AppendIncreasing(s.trace, s.heard.origin, s.base, base);
    TraceGrows(s, t, base);
    var n := |s.delivered| - s.base;
    assert |t.delivered| - base == n;
    assert t.delivered[n..] == s.delivered[n..] + s.heard.accepted[s.base..base];
    assert s.heard.accepted[..base] == s.heard.accepted[..s.base] + s.heard.accepted[s.base..base];
  }

  lemma DeliverDataReports(s: System, m: OnAir, r: R.Reception, t: System)
    requires Took(s, m, r, t)
    ensures ReportsOk(s) ==> ReportsOk(t)
    ensures forall k: nat | HeldBy(s, k) :: HeldBy(t, k)
  {
    hide WindowOk, ClaimsHeld, Held, LastAired, Resting;
    if ReportsOk(s) {
      forall report <- s.reports
        ensures ClaimsHeld(report.blocks, report.first, t.peer.rxSdus, t.base, Window(s), s.heard.accepted)
      {
        ClaimsSurviveDrain(report.blocks, report.first, s.peer.rxSdus, s.base, t.peer.rxSdus, t.base, Window(s),
                           s.heard.accepted);
      }
    }
  }

  // While a reset is on, what is handed up still arrived before everything the sender kept.
  lemma DeliverDataResetting(s: System, m: OnAir, r: R.Reception, t: System, ceiling: nat)
    requires Took(s, m, r, t) && Resetting(s, ceiling) && Before(s.trace, s.own.origin, 0)
             && |s.heard.origin| == |s.heard.accepted|
    ensures Resetting(t, ceiling) && Before(t.trace, t.own.origin, 0)
  {
    assert forall k: nat | k < t.base :: k in LastAired(s.data);
    assert t.base <= ceiling;
  }

  lemma DeliverDataPhase(s: System, m: OnAir, r: R.Reception, t: System)
    requires Took(s, m, r, t) && PhaseOk(s) && HistoryOk(s)
    ensures PhaseOk(t)
  {
    OriginsMatch(s);
    DeliverDataReports(s, m, r, t);
    hide HistoryOk, ReportsOk, HeldBy, Received, Queued, UnairedOk, AllWaiting;
    if s.sender.reset.Some? {
      var ceiling: nat :| Resetting(s, ceiling);
      DeliverDataResetting(s, m, r, t, ceiling);
    }
  }

  lemma DeliverDataKeeps(s: System, m: OnAir)
    requires Inv(s) && CanArrive(s, m)
    ensures Inv(DeliverDataStep(s, m))
  {
    var r := DeliverDataReceives(s, m);
    var t := DeliverDataStep(s, m);
    hide DeliverDataStep, AirOk, SenderOk, PhaseOk, PeerOk, HistoryOk, Received;
    DeliverDataPhase(s, m, r, t);
    DeliverDataPeer(s, m, r, t);
    DeliverDataTrace(s, m, r, t);
  }

  lemma DeliverDataTrace(s: System, m: OnAir, r: R.Reception, t: System)
    requires Took(s, m, r, t) && HistoryOk(s) && FirstGeneration(s)
    ensures HistoryOk(t) && FirstGeneration(t)
  {
    OriginsMatch(s);
    hide HistoryOk;
    DeliverDataHistory(s, t, t.base);
  }

  lemma OriginsMatch(s: System)
    requires HistoryOk(s)
    ensures |s.heard.origin| == |s.heard.accepted|
  {
  }

  lemma DeliverDataPeer(s: System, m: OnAir, r: R.Reception, t: System)
    requires Took(s, m, r, t) && PeerOk(s)
    ensures PeerOk(t)
  {
    hide WindowOk, Held, ClaimsHeld, LastAired;
  }

  // ----- The end-of-tick turn of the sender

  lemma ObserveUnaired(sdu: TxSdu, now: TdmaTime, limits: Limits)
    requires SduOk(sdu)
    ensures var after := Observe(sdu, now, limits).sdu;
            && (Unaired(after) ==> Unaired(sdu) && (sdu.attempt == Some(Pending) ==> after.attempt == Some(Pending)))
            && (Touched(sdu) ==> Touched(after))
            && ((sdu.pending.Some? ==> Touched(sdu)) ==> after.pending.Some? ==> Touched(after))
  {
  }

  lemma ObserveAllKeepsSender(tx: seq<TxSdu>, now: TdmaTime, limits: Limits, data: set<OnAir>, mac: set<OnAir>)
    requires AllOk(tx) && PendingTouched(tx) && UnairedOk(tx, data, mac)
    ensures var after := ObserveAll(tx, now, limits).tx; PendingTouched(after) && UnairedOk(after, data, mac)
  {
    var after := ObserveAll(tx, now, limits).tx;
    ObserveAllPointwise(tx, now, limits);
    forall i | 0 <= i < |tx|
      ensures after[i].pending.Some? ==> Touched(after[i])
      ensures Unaired(after[i]) ==>
                && Unaired(tx[i]) && after[i].receipt == tx[i].receipt
                && (tx[i].attempt == Some(Pending) ==> after[i].attempt == Some(Pending))
    {
      assert tx[i] in tx;
      ObserveUnaired(tx[i], now, limits);
      ObserveKeepsSdu(tx[i], now, limits);
    }
    hide Unaired, Touched, SduOk, ObserveAll, LastAired;
  }

  // The PDUs of one offer all carry genuine segments of the TL-SDU.
  lemma OfferCarries(sdu: TxSdu, bits: Bits, requestAck: bool, j: nat)
    requires SegmentsExist(sdu) && sdu.segments == Segments(bits) && j < |OfferPdus(sdu, requestAck)|
    ensures OfferPdus(sdu, requestAck)[j].ns == sdu.ns && j < |OfferedSegments(sdu)|
    ensures Carries(OfferPdus(sdu, requestAck)[j], bits, OfferedSegments(sdu)[j])
  {
    hide Segments;
  }

  // The first offer of a TL-SDU sends every segment, the last one last.
  lemma FirstOfferEndsWithFinal(sdu: TxSdu, requestAck: bool, j: nat)
    requires SegmentsExist(sdu) && sdu.pending.None? && j < |OfferPdus(sdu, requestAck)| - 1
    ensures !OfferPdus(sdu, requestAck)[j].finalSegment
  {
  }

  lemma EarlyMember(tx: seq<TxSdu>, offered: seq<Offering>, m: OnAir) returns (o: nat, j: nat)
    requires forall o | 0 <= o < |offered| :: offered[o].position < |tx|
    requires m in EarlyPdus(tx, offered)
    ensures o < |offered| && j < |offered[o].pdus| - 1
    ensures m == OnAir(tx[offered[o].position].receipt, offered[o].pdus[j])
  {
    var o', j' :| 0 <= o' < |offered| && 0 <= j' < |offered[o'].pdus| - 1
                  && m == OnAir(tx[offered[o'].position].receipt, offered[o'].pdus[j']);
    o, j := o', j';
  }

  lemma LastMember(tx: seq<TxSdu>, offered: seq<Offering>, m: OnAir) returns (o: nat)
    requires forall o | 0 <= o < |offered| :: offered[o].position < |tx|
    requires m in LastPdus(tx, offered)
    ensures o < |offered| && offered[o].pdus != []
    ensures m == OnAir(tx[offered[o].position].receipt, offered[o].pdus[|offered[o].pdus| - 1])
  {
    var o' :| 0 <= o' < |offered| && offered[o'].pdus != []
              && m == OnAir(tx[offered[o'].position].receipt, offered[o'].pdus[|offered[o'].pdus| - 1]);
    o := o';
  }

  // Positions that may be offered: idle, in the window, with segments that exist.
  ghost predicate PickedOk(tx: seq<TxSdu>, picked: seq<nat>, horizon: nat) {
    forall a | 0 <= a < |picked| ::
      picked[a] < |tx| && SegmentsExist(tx[picked[a]]) && !InFlight(tx[picked[a]]) && tx[picked[a]].receipt < horizon
  }

  lemma OfferingsAir(tx: seq<TxSdu>, picked: seq<nat>, g: Generation, horizon: nat)
    requires Ordered(tx, |g.accepted|) && PickedOk(tx, picked, horizon)
    requires forall i | 0 <= i < |tx| :: tx[i].segments == Segments(g.accepted[tx[i].receipt])
    ensures AirOk(EarlyPdus(tx, Offerings(tx, picked)) + LastPdus(tx, Offerings(tx, picked)), g, horizon)
  {
    hide Segments, OfferPdus, Carries;
    var offered := Offerings(tx, picked);
    forall m <- EarlyPdus(tx, offered) + LastPdus(tx, offered)
      ensures m.id < horizon && m.id < |g.accepted| && m.pdu.ns == m.id % 8
      ensures exists k: nat :: Carries(m.pdu, g.accepted[m.id], k)
    {
      var o: nat, j: nat;
      if m in EarlyPdus(tx, offered) {
        o, j := EarlyMember(tx, offered, m);
      } else {
        o := LastMember(tx, offered, m);
        j := |offered[o].pdus| - 1;
      }
      var sdu := tx[picked[o]];
      OfferCarries(sdu, g.accepted[sdu.receipt], o + 1 == |picked|, j);
      assert Carries(m.pdu, g.accepted[m.id], OfferedSegments(sdu)[j]);
    }
  }

  lemma OfferKeepsUnaired(tx: seq<TxSdu>, picked: seq<nat>, count: nat, horizon: nat, data: set<OnAir>, mac: set<OnAir>)
    requires Ordered(tx, count) && PickedOk(tx, picked, horizon) && PendingTouched(tx) && UnairedOk(tx, data, mac)
    ensures var offered := Offerings(tx, picked); var after := OfferAll(tx, picked);
            && UnairedOk(after, data + EarlyPdus(tx, offered), mac + LastPdus(tx, offered)) && PendingTouched(after)
  {
    var offered := Offerings(tx, picked);
    var after := OfferAll(tx, picked);
    forall i | 0 <= i < |tx| && Unaired(after[i])
      ensures after[i].receipt !in LastAired(data + EarlyPdus(tx, offered))
      ensures after[i].attempt != Some(Pending) ==> forall m <- mac + LastPdus(tx, offered) :: m.id != after[i].receipt
    {
      OfferOneUnaired(tx, picked, count, horizon, data, mac, i);
    }
  }

  lemma OfferOneUnaired(tx: seq<TxSdu>, picked: seq<nat>, count: nat, horizon: nat, data: set<OnAir>, mac: set<OnAir>,
                        i: nat)
    requires Ordered(tx, count) && PickedOk(tx, picked, horizon) && PendingTouched(tx) && UnairedOk(tx, data, mac)
    requires i < |tx| && Unaired(OfferAll(tx, picked)[i])
    ensures var offered := Offerings(tx, picked);
            && tx[i].receipt !in LastAired(data + EarlyPdus(tx, offered))
            && (OfferAll(tx, picked)[i].attempt != Some(Pending) ==> forall m <- mac + LastPdus(tx, offered) ::
                  m.id != tx[i].receipt)
  {
    assert tx[i] in tx;
    assert Unaired(tx[i]) && (i in picked ==> tx[i].pending.None? && tx[i].attempt.None?);
    assert tx[i].receipt !in LastAired(data);
    assert i !in picked ==> OfferAll(tx, picked)[i] == tx[i];
    hide Unaired, Touched, UnairedOk, PendingTouched, SegmentsExist, InFlight;
    OfferedAirs(tx, picked, count, horizon, i);
  }

  lemma OfferedAirs(tx: seq<TxSdu>, picked: seq<nat>, count: nat, horizon: nat, i: nat)
    requires Ordered(tx, count) && PickedOk(tx, picked, horizon)
    requires i < |tx| && (i in picked ==> tx[i].pending.None?)
    ensures var offered := Offerings(tx, picked);
            && (forall m <- EarlyPdus(tx, offered) :: m.id == tx[i].receipt ==> !m.pdu.finalSegment)
            && (i !in picked ==> forall m <- LastPdus(tx, offered) :: m.id != tx[i].receipt)
  {
    hide OfferPdus;
    var offered := Offerings(tx, picked);
    forall m <- EarlyPdus(tx, offered) | m.id == tx[i].receipt
      ensures !m.pdu.finalSegment
    {
      var o, j := EarlyMember(tx, offered, m);
      assert picked[o] == i;
      FirstOfferEndsWithFinal(tx[i], o + 1 == |picked|, j);
    }
    if i !in picked {
      forall m <- LastPdus(tx, offered)
        ensures m.id != tx[i].receipt
      {
        var o := LastMember(tx, offered, m);
        assert picked[o] in picked;
      }
    }
  }

  // Only the queue and the flow control of a link change.
  ghost predicate SameLink(a: Link, b: Link) {
    b == a.(tx := b.tx, receiverReady := b.receiverReady, notReadySince := b.notReadySince)
  }

  // One turn of a link: the queue is observed, giving `seen`, and the entries at `picked` are offered.
  ghost predicate Turned(link: Link, seen: seq<TxSdu>, picked: seq<nat>, r: Submission) {
    && SameLink(link, r.link)
    && (picked == [] || exists notReady :: picked == Selected(seen, link.limits, notReady))
    && (forall a | 0 <= a < |picked| :: picked[a] < |seen| && SegmentsExist(seen[picked[a]]))
    && r.link.tx == OfferAll(seen, picked) && r.offered == Offerings(seen, picked)
    && (r.failed.Some? ==> picked == [])
  }

  lemma OfferNothing(tx: seq<TxSdu>)
    ensures OfferAll(tx, []) == tx && Offerings(tx, []) == []
  {
  }

  lemma SubmitShape(link: Link, now: TdmaTime, routeLive: bool) returns (picked: seq<nat>)
    requires AllSegmentsExist(link.tx)
    ensures Turned(link, ObserveAll(link.tx, now, link.limits).tx, picked, Submit(link, now, routeLive))
  {
    hide TdmaTime.Diff, Offerings, OfferAll, Selected, ObserveAll;
    var observed := ObserveAll(link.tx, now, link.limits);
    ObserveKeepsSegmentsExist(link.tx, now, link.limits);
    OfferNothing(observed.tx);
    var seen := link.(tx := observed.tx);
    var open := FlowControl(seen, now);
    if observed.failed.Some? || open.None? || !routeLive {
      picked := [];
      hide AllSegmentsExist;
    } else {
      var notReady := !open.value.receiverReady;
      assert open.value.tx == observed.tx && open.value.limits == link.limits;
      picked := Selected(observed.tx, link.limits, notReady);
    }
  }

  lemma PdusOfSameQueue(a: seq<TxSdu>, b: seq<TxSdu>, offered: seq<Offering>)
    requires SameQueue(a, b) && forall o | 0 <= o < |offered| :: offered[o].position < |a|
    ensures EarlyPdus(a, offered) == EarlyPdus(b, offered) && LastPdus(a, offered) == LastPdus(b, offered)
  {
    forall m
      ensures m in EarlyPdus(a, offered) <==> m in EarlyPdus(b, offered)
    {
      if m in EarlyPdus(a, offered) {
        var o, j := EarlyMember(a, offered, m);
        assert m == OnAir(b[offered[o].position].receipt, offered[o].pdus[j]);
      }
      if m in EarlyPdus(b, offered) {
        var o, j := EarlyMember(b, offered, m);
        assert m == OnAir(a[offered[o].position].receipt, offered[o].pdus[j]);
      }
    }
  }

  // The queue after observation, and what is picked from it.
  lemma SelectedIsPickable(tx: seq<TxSdu>, picked: seq<nat>, limits: Limits, count: nat)
    requires WindowInv(tx, count, limits.window) && OneRequest(tx)
    requires picked == [] || exists notReady :: picked == Selected(tx, limits, notReady)
    ensures PickedOk(tx, picked, Front(tx, count) + limits.window)
    ensures var after := OfferAll(tx, picked);
            && WindowInv(after, count, limits.window) && SameQueue(tx, after) && OneRequest(after)
            && Front(after, count) == Front(tx, count)
  {
    if picked == [] {
      assert OfferAll(tx, picked) == tx;
    } else {
      var notReady :| picked == Selected(tx, limits, notReady);
      hide WindowInv, Selected, OneRequest, Front, SegmentsExist, InFlight;
      OfferAllKeeps(tx, limits, notReady, count);
    }
  }

  lemma SameQueueTrans(a: seq<TxSdu>, b: seq<TxSdu>, c: seq<TxSdu>)
    requires SameQueue(a, b) && SameQueue(b, c)
    ensures SameQueue(a, c)
  {
  }

  // What a turn does to the sending side, whether or not it finds the link exhausted.
  ghost predicate TurnOk(link: Link, g: Generation, r: Submission, data: set<OnAir>, mac: set<OnAir>) {
    && SameLink(link, r.link) && SameQueue(link.tx, r.link.tx)
    && SenderOk(r.link, g)
    && (forall o | 0 <= o < |r.offered| :: r.offered[o].position < |link.tx|)
    && AirOk(EarlyPdus(link.tx, r.offered) + LastPdus(link.tx, r.offered), g,
             Front(link.tx, |g.accepted|) + link.limits.window)
    && UnairedOk(r.link.tx, data + EarlyPdus(link.tx, r.offered), mac + LastPdus(link.tx, r.offered))
  }

  lemma SegmentsAllExist(tx: seq<TxSdu>)
    requires AllOk(tx)
    ensures AllSegmentsExist(tx)
  {
  }

  lemma TurnKeeps(link: Link, g: Generation, now: TdmaTime, routeLive: bool, data: set<OnAir>, mac: set<OnAir>)
    requires SenderOk(link, g) && UnairedOk(link.tx, data, mac)
    ensures AllSegmentsExist(link.tx) && TurnOk(link, g, Submit(link, now, routeLive), data, mac)
  {
    SegmentsAllExist(link.tx);
    var seen := ObserveAll(link.tx, now, link.limits).tx;
    var picked := SubmitShape(link, now, routeLive);
    var count := |g.accepted|;
    ObserveAllKeeps(link.tx, now, link.limits, count);
    ObserveAllKeepsSender(link.tx, now, link.limits, data, mac);
    hide Submit, ObserveAll, TurnOk, Turned, WindowInv, OneRequest, PendingTouched, UnairedOk, AllSegmentsExist,
         Segments;
    OfferedTurn(link, g, seen, picked, Submit(link, now, routeLive), data, mac);
  }

  // Every queued TL-SDU is one of those accepted, cut into its segments.
  ghost predicate FromAccepted(tx: seq<TxSdu>, g: Generation) {
    forall i | 0 <= i < |tx| :: tx[i].receipt < |g.accepted| && tx[i].segments == Segments(g.accepted[tx[i].receipt])
  }

  lemma OfferedTurn(link: Link, g: Generation, seen: seq<TxSdu>, picked: seq<nat>, r: Submission, data: set<OnAir>,
                    mac: set<OnAir>)
    requires WindowInv(seen, |g.accepted|, link.limits.window) && OneRequest(seen) && PendingTouched(seen)
    requires UnairedOk(seen, data, mac) && SameQueue(link.tx, seen)
    requires FromAccepted(link.tx, g)
    requires Numbers(link, g) && Front(seen, |g.accepted|) == Front(link.tx, |g.accepted|)
    requires Turned(link, seen, picked, r)
    ensures TurnOk(link, g, r, data, mac)
  {
    hide SenderOk, Numbers, WindowInv, OneRequest, PendingTouched, UnairedOk, Front, FromAccepted, SameQueue, TurnOk,
         QueueTurned, AirTurned, Turned;
    OfferedQueue(link, g, seen, picked, r);
    OfferedPdus(link, g, seen, picked, r, data, mac);
    TurnFromParts(link, g, seen, picked, r, data, mac);
  }

  // What a turn does to the queue, and to what is on its way.
  ghost predicate QueueTurned(link: Link, g: Generation, seen: seq<TxSdu>, picked: seq<nat>, r: Submission) {
    && WindowInv(r.link.tx, |g.accepted|, link.limits.window) && OneRequest(r.link.tx)
    && SameQueue(link.tx, r.link.tx) && FromAccepted(r.link.tx, g) && FromAccepted(seen, g)
    && PickedOk(seen, picked, Front(link.tx, |g.accepted|) + link.limits.window)
  }

  ghost predicate AirTurned(link: Link, g: Generation, r: Submission, data: set<OnAir>, mac: set<OnAir>) {
    && PendingTouched(r.link.tx)
    && (forall o | 0 <= o < |r.offered| :: r.offered[o].position < |link.tx|)
    && AirOk(EarlyPdus(link.tx, r.offered) + LastPdus(link.tx, r.offered), g,
             Front(link.tx, |g.accepted|) + link.limits.window)
    && UnairedOk(r.link.tx, data + EarlyPdus(link.tx, r.offered), mac + LastPdus(link.tx, r.offered))
  }

  lemma OfferedQueue(link: Link, g: Generation, seen: seq<TxSdu>, picked: seq<nat>, r: Submission)
    requires WindowInv(seen, |g.accepted|, link.limits.window) && OneRequest(seen)
    requires SameQueue(link.tx, seen) && FromAccepted(link.tx, g)
             && Front(seen, |g.accepted|) == Front(link.tx, |g.accepted|)
    requires Turned(link, seen, picked, r)
    ensures QueueTurned(link, g, seen, picked, r)
  {
    hide WindowInv, Selected, OneRequest, Front, FromAccepted, SameQueue, OfferAll, Offerings, SegmentsExist, PickedOk,
         SameLink;
    SelectedIsPickable(seen, picked, link.limits, |g.accepted|);
    FromSameQueue(link.tx, seen, g);
    SameQueueTrans(link.tx, seen, r.link.tx);
    FromSameQueue(link.tx, r.link.tx, g);
  }

  lemma OfferedPdus(link: Link, g: Generation, seen: seq<TxSdu>, picked: seq<nat>, r: Submission, data: set<OnAir>,
                    mac: set<OnAir>)
    requires WindowInv(seen, |g.accepted|, link.limits.window) && PendingTouched(seen) && UnairedOk(seen, data, mac)
    requires SameQueue(link.tx, seen) && QueueTurned(link, g, seen, picked, r) && Turned(link, seen, picked, r)
    ensures AirTurned(link, g, r, data, mac)
  {
    hide WindowInv, Selected, OneRequest, PendingTouched, UnairedOk, Front, FromAccepted, SameQueue, OfferAll,
         Offerings, SegmentsExist, PickedOk, AirOk, EarlyPdus, LastPdus, SameLink;
    var horizon := Front(link.tx, |g.accepted|) + link.limits.window;
    OfferedAir(g, seen, picked, link.limits.window, horizon, data, mac);
    OfferedPositions(link.tx, seen, picked, r.offered);
    PdusOfSameQueue(link.tx, seen, r.offered);
  }

  lemma TurnFromParts(link: Link, g: Generation, seen: seq<TxSdu>, picked: seq<nat>, r: Submission, data: set<OnAir>,
                      mac: set<OnAir>)
    requires Numbers(link, g) && Turned(link, seen, picked, r)
    requires QueueTurned(link, g, seen, picked, r) && AirTurned(link, g, r, data, mac)
    ensures TurnOk(link, g, r, data, mac)
  {
    hide WindowInv, OneRequest, PendingTouched, UnairedOk, Front, FromAccepted, SameQueue, PickedOk, AirOk, EarlyPdus,
         LastPdus, OfferAll, Offerings, Selected, SenderOk, SegmentsExist, Numbers;
    SenderFromParts(link, r.link, g);
  }

  // N(S) counts on from the TL-SDUs accepted so far.
  predicate Numbers(link: Link, g: Generation) {
    link.nextTxNs == |g.accepted| % 8
  }

  lemma SenderFromParts(link: Link, after: Link, g: Generation)
    requires SameLink(link, after) && Numbers(link, g) && FromAccepted(after.tx, g)
    requires WindowInv(after.tx, |g.accepted|, after.limits.window) && OneRequest(after.tx) && PendingTouched(after.tx)
    ensures SenderOk(after, g)
  {
    hide Segments, WindowInv, OneRequest, PendingTouched;
  }

  lemma FromSameQueue(a: seq<TxSdu>, b: seq<TxSdu>, g: Generation)
    requires SameQueue(a, b) && FromAccepted(a, g)
    ensures FromAccepted(b, g)
  {
    hide Segments;
  }

  lemma OfferedPositions(tx: seq<TxSdu>, seen: seq<TxSdu>, picked: seq<nat>, offered: seq<Offering>)
    requires SameQueue(tx, seen) && forall a | 0 <= a < |picked| :: picked[a] < |seen| && SegmentsExist(seen[picked[a]])
    requires offered == Offerings(seen, picked)
    ensures forall o | 0 <= o < |offered| :: offered[o].position < |tx| && offered[o].position < |seen|
  {
    hide SegmentsExist;
    assert |offered| == |picked|;
  }

  lemma OfferedAir(g: Generation, seen: seq<TxSdu>, picked: seq<nat>, window: nat, horizon: nat, data: set<OnAir>,
                   mac: set<OnAir>)
    requires WindowInv(seen, |g.accepted|, window) && PickedOk(seen, picked, horizon) && PendingTouched(seen)
             && UnairedOk(seen, data, mac)
    requires FromAccepted(seen, g)
    ensures var offered := Offerings(seen, picked); var after := OfferAll(seen, picked);
            && UnairedOk(after, data + EarlyPdus(seen, offered), mac + LastPdus(seen, offered)) && PendingTouched(after)
            && AirOk(EarlyPdus(seen, offered) + LastPdus(seen, offered), g, horizon)
  {
    assert Ordered(seen, |g.accepted|) && forall i | 0 <= i < |seen| ::
             seen[i].segments == Segments(g.accepted[seen[i].receipt]) by {
      hide SduOk, Segments;
    }
    hide *;
    OfferKeepsUnaired(seen, picked, |g.accepted|, horizon, data, mac);
    OfferingsAir(seen, picked, g, horizon);
  }

  lemma UnionAirOk(a: set<OnAir>, b: set<OnAir>, g: Generation, horizon: nat)
    requires AirOk(a, g, horizon) && AirOk(b, g, horizon)
    ensures AirOk(a + b, g, horizon)
  {
    hide Carries;
  }

  lemma QueuedInSameQueue(a: seq<TxSdu>, b: seq<TxSdu>, count: nat)
    requires SameQueue(a, b)
    ensures Front(a, count) == Front(b, count)
    ensures forall k: nat :: Queued(a, k) <==> Queued(b, k)
  {
    SameQueueKeeps(a, b, count, 0);
  }

  lemma OfferedPhase(s: System, r: Submission)
    requires InStep(s) && s.sender.reset.None?
    requires TurnOk(s.sender, s.own, r, s.data, s.mac)
    ensures InStep(Offered(s, r))
  {
    hide EarlyPdus, LastPdus, HistoryOk, SenderOk, UnairedOk, Queued, HeldBy, ReportsOk, Front, SameQueue, AirOk;
    var t := Offered(s, r);
    QueuedInSameQueue(s.sender.tx, t.sender.tx, |s.own.accepted|);
    SameHistory(s, t);
  }

  lemma OfferedAirAndPeer(s: System, r: Submission)
    requires PeerOk(s) && AirOk(s.data + s.mac, s.own, s.horizon) && s.own == s.heard
    requires forall o | 0 <= o < |r.offered| :: r.offered[o].position < |s.sender.tx|
    requires AirOk(EarlyPdus(s.sender.tx, r.offered) + LastPdus(s.sender.tx, r.offered), s.own, s.horizon)
    requires SameLink(s.sender, r.link)
    ensures var t := Offered(s, r); PeerOk(t) && AirOk(t.data + t.mac, t.heard, t.horizon)
  {
    var early, last := EarlyPdus(s.sender.tx, r.offered), LastPdus(s.sender.tx, r.offered);
    hide EarlyPdus, LastPdus, AirOk, PeerOk;
    UnionAirOk(s.data + s.mac, early + last, s.own, s.horizon);
    Regrouped(s.data, early, s.mac, last);
    MoreAirKeepsPeer(s, Offered(s, r));
  }

  lemma Regrouped(a: set<OnAir>, b: set<OnAir>, c: set<OnAir>, d: set<OnAir>)
    ensures (a + b) + (c + d) == (a + c) + (b + d) && a <= a + b
  {
  }

  lemma OfferedKeeps(s: System, r: Submission)
    requires Inv(s) && s.sender.reset.None?
    requires TurnOk(s.sender, s.own, r, s.data, s.mac)
    ensures Inv(Offered(s, r))
  {
    hide Inv, TurnOk, PhaseOk, EarlyPdus, LastPdus, HistoryOk, SenderOk, InStep, PeerOk, AirOk, Front;
    InStepFacts(s);
    TurnFacts(s, r);
    SameHistory(s, Offered(s, r));
    OfferedPhase(s, r);
    OfferedAirAndPeer(s, r);
    InStepIsInv(Offered(s, r));
  }

  lemma InStepIsInv(s: System)
    requires 1 <= Window(s) <= 3 && HistoryOk(s) && SenderOk(s.sender, s.own) && PeerOk(s)
             && AirOk(s.data + s.mac, s.heard, s.horizon)
    requires InStep(s) && s.sender.reset.None? && FirstGeneration(s)
    ensures Inv(s)
  {
    hide HistoryOk, SenderOk, PeerOk, AirOk, InStep;
  }

  lemma TurnFacts(s: System, r: Submission)
    requires TurnOk(s.sender, s.own, r, s.data, s.mac)
    ensures SameLink(s.sender, r.link) && SenderOk(r.link, s.own)
    ensures forall o | 0 <= o < |r.offered| :: r.offered[o].position < |s.sender.tx|
    ensures AirOk(EarlyPdus(s.sender.tx, r.offered) + LastPdus(s.sender.tx, r.offered), s.own,
                  Front(s.sender.tx, |s.own.accepted|) + s.sender.limits.window)
  {
  }

  lemma InStepFacts(s: System)
    requires Inv(s) && s.sender.reset.None?
    ensures 1 <= Window(s) <= 3 && HistoryOk(s) && PeerOk(s) && AirOk(s.data + s.mac, s.heard, s.horizon) && InStep(s)
            && FirstGeneration(s) && SenderOk(s.sender, s.own)
    ensures s.own == s.heard && s.horizon == Front(s.sender.tx, |s.own.accepted|) + s.sender.limits.window
  {
    hide HistoryOk, SenderOk, PeerOk, AirOk, FirstGeneration, Front, UnairedOk, ReportsOk, HeldBy, Queued;
  }

  lemma MoreAirKeepsPeer(s: System, t: System)
    requires PeerOk(s) && s.data <= t.data
    requires t.peer == s.peer && t.heard == s.heard && t.base == s.base && t.horizon == s.horizon
             && t.sender.limits == s.sender.limits
    ensures PeerOk(t)
  {
    AiredGrows(s.data, t.data);
    WindowUnderAiring(Window(s), s.peer.nextRxNs, s.peer.rxSdus, s.base, s.heard.accepted, s.horizon, t.horizon,
                      LastAired(s.data), LastAired(t.data));
    hide WindowOk, LastAired;
  }

  // ----- The sender hears an acknowledgement

  ghost function HeldSet(s: System): iset<nat> {
    iset k: nat | HeldBy(s, k)
  }

  lemma ReportIsSound(s: System, report: Report)
    requires Inv(s) && CanReport(s, report)
    ensures 1 <= |report.blocks| <= Window(s) && Sound(report.blocks, report.first, HeldSet(s))
            && report.first <= s.base
    ensures forall i | 0 <= i < |report.blocks| :: AsksForSome(s.sender.tx, report.blocks[i], report.first + i)
    ensures s.base <= Front(s.sender.tx, |s.own.accepted|) + Window(s)
    ensures Front(s.sender.tx, |s.own.accepted|) <= s.base
  {
    hide ClaimsHeld, SenderOk, PeerOk, HistoryOk, AirOk, UnairedOk, HeldBy, Queued, FirstGeneration, Front;
    assert ClaimsHeld(report.blocks, report.first, s.peer.rxSdus, s.base, Window(s), s.heard.accepted);
    ClaimsAreSound(s, report);
    SegmentsPositive(s.sender, s.own);
    ClaimsAsk(s, report, s.sender.tx);
    PeerWithinHorizon(s);
    FrontBelowBase(s);
  }

  lemma ClaimsAreSound(s: System, report: Report)
    requires ClaimsHeld(report.blocks, report.first, s.peer.rxSdus, s.base, Window(s), s.heard.accepted)
    ensures 1 <= |report.blocks| <= Window(s) && Sound(report.blocks, report.first, HeldSet(s))
            && report.first <= s.base
  {
    hide NamesSegment;
  }

  lemma ClaimsAsk(s: System, report: Report, tx: seq<TxSdu>)
    requires ClaimsHeld(report.blocks, report.first, s.peer.rxSdus, s.base, Window(s), s.heard.accepted)
    requires forall i | 0 <= i < |tx| :: |tx[i].segments| >= 1 && tx[i].receipt < |s.heard.accepted|
    requires forall i | 0 <= i < |tx| :: tx[i].segments == Segments(s.heard.accepted[tx[i].receipt])
    ensures forall i | 0 <= i < |report.blocks| :: AsksForSome(tx, report.blocks[i], report.first + i)
  {
    hide Held, Segments;
  }

  lemma PeerWithinHorizon(s: System)
    requires PeerOk(s)
    ensures s.base <= s.horizon
  {
    hide EntriesFit, LastAired, Resting;
  }

  lemma FrontBelowBase(s: System)
    requires 1 <= Window(s) <= 3 && SenderOk(s.sender, s.own) && PeerOk(s) && s.own == s.heard
    requires forall k: nat | k < |s.own.accepted| :: Queued(s.sender.tx, k) || HeldBy(s, k)
    ensures Front(s.sender.tx, |s.own.accepted|) <= s.base
  {
    hide PeerOk, Segments, SduOk, Queued, HeldBy;
    FrontNotAheadOfBase(s, s.sender.tx, |s.own.accepted|);
  }

  lemma SegmentsPositive(link: Link, g: Generation)
    requires SenderOk(link, g)
    ensures forall i | 0 <= i < |link.tx| :: |link.tx[i].segments| >= 1 && link.tx[i].receipt < |g.accepted|
    ensures forall i | 0 <= i < |link.tx| :: link.tx[i].segments == Segments(g.accepted[link.tx[i].receipt])
  {
    hide Segments, SegmentsExist;
  }

  lemma AckedQueueKeeps(before: seq<TxSdu>, after: seq<TxSdu>, count: nat, g: Generation, data: set<OnAir>,
                        mac: set<OnAir>)
    requires Ordered(after, count) && OldOrTouched(before, after) && SubQueue(before, after)
    requires OneRequest(before) && PendingTouched(before) && UnairedOk(before, data, mac)
    requires count <= |g.accepted| && Ordered(before, count)
    requires forall i | 0 <= i < |before| :: before[i].segments == Segments(g.accepted[before[i].receipt])
    ensures OneRequest(after) && PendingTouched(after) && UnairedOk(after, data, mac)
    ensures forall i | 0 <= i < |after| :: after[i].segments == Segments(g.accepted[after[i].receipt])
  {
    hide Segments, LastAired;
    assert forall sdu | Touched(sdu) :: !Unaired(sdu);
    hide Touched, Unaired;
    forall i | 0 <= i < |after|
      ensures after[i].ackRequested || Unaired(after[i]) ==> after[i] in before
      ensures after[i].segments == Segments(g.accepted[after[i].receipt])
    {
      assert after[i] in after;
    }
  }

  lemma AckShape(s: System, report: Report, ready: bool, now: TdmaTime)
    requires WellFormed(s.sender.tx) && report.blocks != [] && s.sender.reset.None?
    ensures var r := HandleAck(s.sender, AlAck(ready, report.blocks), now);
            var a := ApplyAck(s.sender.tx, report.blocks, s.sender.limits);
            && SameLink(s.sender, r.link) && r.link.tx == a.tx && r.acked == a.acked && r.failed == a.failed
  {
    hide ApplyAck;
  }

  lemma AllOkIsWellFormed(tx: seq<TxSdu>)
    requires AllOk(tx)
    ensures WellFormed(tx)
  {
  }

  /**
   An acknowledgement from the channel: every TL-SDU the sender takes as acknowledged is
   one the peer holds in full, and the sending side stays in order.
   */
  lemma AckIsSound(s: System, report: Report, ready: bool, now: TdmaTime)
    requires Inv(s) && CanReport(s, report)
    ensures WellFormed(s.sender.tx) && report.blocks != []
    ensures var r := HandleAck(s.sender, AlAck(ready, report.blocks), now);
            && (forall i | 0 <= i < |r.acked| :: HeldBy(s, r.acked[i].receipt))
            && (forall k: nat | k < |s.own.accepted| :: Queued(r.link.tx, k) || HeldBy(s, k))
            && SameLink(s.sender, r.link) && SenderOk(r.link, s.own) && UnairedOk(r.link.tx, s.data, s.mac)
            && Front(s.sender.tx, |s.own.accepted|) <= Front(r.link.tx, |s.own.accepted|)
  {
    hide HandleAck, ReportsOk, AirOk, PeerOk, HistoryOk, Sound, AsksForSome, HeldBy, Queued, Front, FirstGeneration,
         AllOk, SentBelow, GapsInWindow, Segments;
    ReportIsSound(s, report);
    AllOkIsWellFormed(s.sender.tx);
    AckShape(s, report, ready, now);
    AckKeeps(s.sender.tx, report.blocks, s.sender.limits, |s.own.accepted|, report.first, HeldSet(s));
    AckTouches(s.sender.tx, report.blocks, s.sender.limits, |s.own.accepted|, report.first, HeldSet(s));
    hide ApplyAck;
    AckedQueueKeeps(s.sender.tx, ApplyAck(s.sender.tx, report.blocks, s.sender.limits).tx, |s.own.accepted|, s.own,
                    s.data, s.mac);
  }

  lemma ToldPhase(s: System, r: AckOutcome)
    requires InStep(s) && SameLink(s.sender, r.link) && s.sender.reset.None?
    requires UnairedOk(r.link.tx, s.data, s.mac)
    requires forall k: nat | k < |s.own.accepted| :: Queued(r.link.tx, k) || HeldBy(s, k)
    ensures InStep(Told(s, r))
  {
    var t := Told(s, r);
    SameHistory(s, t);
    hide HistoryOk, HeldBy, ReportsOk, Front, UnairedOk, Queued;
  }

  lemma ToldKeepsPeer(s: System, t: System)
    requires PeerOk(s) && AirOk(s.data + s.mac, s.heard, s.horizon)
    requires OnlySendingDiffers(s, t) && t.data == s.data && t.mac == s.mac
             && s.horizon <= t.horizon <= s.base + Window(s)
    ensures PeerOk(t) && AirOk(t.data + t.mac, t.heard, t.horizon)
  {
    WindowUnderAiring(Window(s), s.peer.nextRxNs, s.peer.rxSdus, s.base, s.heard.accepted, s.horizon, t.horizon,
                      LastAired(s.data), LastAired(t.data));
    hide WindowOk, LastAired, Carries;
  }

  lemma ToldKeeps(s: System, report: Report, ready: bool, now: TdmaTime, r: AckOutcome)
    requires Inv(s) && CanReport(s, report) && WellFormed(s.sender.tx) && report.blocks != []
    requires r == HandleAck(s.sender, AlAck(ready, report.blocks), now)
    ensures Inv(Told(s, r))
  {
    var t := Told(s, r);
    AckIsSound(s, report, ready, now);
    hide HandleAck;
    ToldPhase(s, r);
    ToldFront(s, t);
    SameHistory(s, t);
    hide InStep, SenderOk, HistoryOk, HeldBy, UnairedOk, ReportsOk, Queued, Front, AirOk, PeerOk;
    ToldKeepsPeer(s, t);
  }

  lemma ToldFront(s: System, t: System)
    requires 1 <= Window(s) <= 3 && t == s.(sender := t.sender, horizon := t.horizon)
             && t.sender.limits == s.sender.limits
    requires PeerOk(s) && SenderOk(t.sender, s.own) && InStep(t) && s.own == s.heard
    ensures t.horizon <= s.base + Window(s)
  {
    hide WindowOk, UnairedOk, ReportsOk, Held, Resting, LastAired;
    assert Ordered(t.sender.tx, |s.own.accepted|);
    assert forall k: nat :: HeldBy(s, k) <==> HeldBy(t, k);
    hide SenderOk, PeerOk, HeldBy, Queued, Ordered;
    FrontNotAheadOfBase(s, t.sender.tx, |s.own.accepted|);
  }
}
