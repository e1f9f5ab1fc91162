/**
 When an acknowledged TL-SDU can be missed: with a window of two or three the peer acknowledges
 what it holds behind a gap, and an in-place reset clears that before it is handed up.
 */
module ResetLoss {
  import opened Wrappers
  import opened AlPdu
  import opened TxReceipt
  import opened Sender
  import opened AdvancedLink
  import opened SendWindow
  import opened SendProgress
  import opened ReceiveWindow
  import opened Arq
  import opened ArqSteps
  import opened ArqTheorems
  import opened RecoveryRuns
  import opened NoStall
  import opened RunSteps
  import opened Accounts
  import N = NarrowWindows
  import R = Receiver

  // ----- With a window of one

  // What the peer has of a TL-SDU with nothing completed at its lower edge, it has handed up.
  lemma HeldIsHandedUp(s: System, k: nat)
    requires Inv(s) && HeldBy(s, k) && Window(s) == 1
    ensures k < s.base
  {
    hide SenderOk, AirOk, PhaseOk, HistoryOk, FirstGeneration, EdgeOk, EntryFits;
    RestsAt(s);
  }

  lemma RestsAt(s: System)
    requires Inv(s)
    ensures s.peer.nextRxNs == s.base % 8 && Resting(s.peer.nextRxNs, s.peer.rxSdus)
  {
    hide SenderOk, AirOk, PhaseOk, HistoryOk, FirstGeneration, EntriesFit;
  }

  lemma OneStepHandsUp(s: System, a: Action)
    requires Inv(s) && Enabled(s, a) && HandedUpBelow(s) && Window(s) == 1
    ensures forall x <- CompletedIn(s, a) :: x in Step(s, a).trace
  {
    hide Inv, HandleAck, CanReport, WellFormed, HeldBy, Step;
    StepHandsUp(s, a);
    if a.DeliverReport? {
      NoResetNow(s, a.report);
      AckIsSound(s, a.report, a.ready, a.at);
      PeerFacts(s);
      QueueFacts(s);
      var acked := HandleAck(s.sender, AlAck(a.ready, a.report.blocks), a.at).acked;
      forall x <- CompletedIn(s, a)
        ensures x in s.trace
      {
        var i :| 0 <= i < |acked| && acked[i].receipt < |s.own.origin| && s.own.origin[acked[i].receipt] == x;
        HeldIsHandedUp(s, acked[i].receipt);
      }
    }
  }

  lemma {:induction false} OneHandsUp(states: seq<System>, actions: seq<Action>, n: nat)
    requires IsRun(states, actions) && n < |states| && Window(states[0]) == 1
    ensures Window(states[n]) == 1 && forall x <- Completed(states, actions, n) :: x in states[n].trace
  {
    hide Inv, Initial, Enabled, Step, CompletedIn, HandedUpBelow;
    if n > 0 {
      OneHandsUp(states, actions, n - 1);
      RunHandsUp(states, actions, n - 1);
      StepHandsUp(states[n - 1], actions[n - 1]);
      OneStepHandsUp(states[n - 1], actions[n - 1]);
      StepKeepsSettings(states[n - 1], actions[n - 1]);
    }
  }

  // ----- With a wider window

  // TL-SDU 1 is there, 0 is not.
  function Gap(w: nat): Report {
    Report(0, seq(w, i requires 0 <= i => if i == 1 then Positive(1) else Absent(i)))
  }

  // TL-SDU 0 as the first such report leaves it, and the second.
  function OnceAgain(): TxSdu {
    TxSdu(0, 0, [Body()], Pending, None, false, None, 0, 0, [1], Some([0]))
  }

  lemma SecondArrives(w: nat) returns (s: System)
    requires 2 <= w <= 3
    ensures Reached(s) && Sends(s, w, [Handed(0, false, 0), OnTheAir(Handed(1, true, 0))], 2) && s.base == 0
            && Gap(w) in s.reports
  {
    hide Reached, Pdu, Handed, R.Receive, R.Drain, R.AcknowledgementBlocks, Done, Body;
    s := TwoHanded(w);
    HandedIs(1, true, 0);
    s := Airs(s, w, [Handed(0, false, 0), Handed(1, true, 0)], 2, 1, OfTwo(1));
    assert [Handed(0, false, 0), Handed(1, true, 0)][1 := OnTheAir(Handed(1, true, 0))] == [Handed(0, false, 0),
             OnTheAir(Handed(1, true, 0))];
    var none: map<nat, R.RxSdu> := map[];
    var one := none[1 := Done(1)];
    Completes(w, 0, none, 1, true);
    DrainsNone(0, one);
    GapIsReported(w, one);
    s := Arrives(s, w, 0, none, 0, OfTwo(1));
  }

  lemma GapIsReported(w: nat, sdus: map<nat, R.RxSdu>)
    requires 2 <= w <= 3 && sdus.Keys == {1} && sdus[1] == Done(1)
    ensures R.AcknowledgementBlocks(w, 0, sdus, None) == Gap(w).blocks
  {
    hide Body;
    var blocks := R.AcknowledgementBlocks(w, 0, sdus, None);
    assert forall i | 0 <= i < w :: blocks[i] == Gap(w).blocks[i];
  }

  lemma GapShape(w: nat)
    requires 2 <= w <= 3
    ensures var blocks := Gap(w).blocks;
            && |blocks| == w && blocks[0] == Absent(0) && blocks[1] == Positive(1) && ReportsWindow(blocks, 0, w)
            && (w == 3 ==> blocks[2] == Absent(2))
  {
  }

  // Asked for once more, TL-SDU 0 may be repeated; the second time its segment is exhausted.
  lemma GapCharges(tx: seq<TxSdu>, w: nat)
    requires tx != [] && WellFormed(tx)
    ensures tx[0] == Handed(0, false, 0) ==>
              ApplyBlock(tx, Absent(0), Allow(w)) == Acked(tx[0 := OnceAgain()], [], None)
    ensures tx[0] == Offer(OnceAgain(), true) ==>
              var r := ApplyBlock(tx, Absent(0), Allow(w));
              r.acked == [] && r.failed == Some(0) && |r.tx| == |tx| && r.tx[0].ns == 0
  {
    hide Body;
    assert Gaps(1, []) == [];
    assert Retain([0], 1) == [0] by { assert [0][1..] == []; }
    assert [0] + [] == [0];
    assert MissingSegments(Absent(0), 1) == [0];
    assert [0][1..] == [];
    assert ChargeSegments([1], [], 1) == Charge([1], false);
    assert ChargeSegments([0], [0], 1) == Charge([1], false);
    assert ChargeSegments([1], [0], 1) == Charge([2], true);
  }

  lemma FirstHearing(w: nat)
    requires 2 <= w <= 3
    ensures var tx := [Handed(0, false, 0), OnTheAir(Handed(1, true, 0))];
            var r := ApplyAck(tx, Gap(w).blocks, Allow(w));
            && WellFormed(tx) && Gap(w).blocks != [] && Front(tx, 2) == 0 && AllSimple([OnceAgain()])
            && r == Acked([OnceAgain()], [OnTheAir(Handed(1, true, 0))], None)
  {
    hide Body, Absent;
    var a, b := Handed(0, false, 0), OnTheAir(Handed(1, true, 0));
    var tx, blocks := [a, b], Gap(w).blocks;
    GapShape(w);
    assert PassedCount(tx, 0, w) == 0 && tx[0..] == tx by { AbsentIs(0); }
    GapCharges(tx, w);
    assert tx[0 := OnceAgain()] == [OnceAgain(), b];
    SecondRetires(w);
    hide ApplyBlock, Gap;
    GapApplies(tx, blocks, w);
  }

  lemma AbsentIs(nr: nat)
    ensures Absent(nr).nr == nr && !Absent(nr).IsPositive()
  {
  }

  lemma SecondRetires(w: nat)
    ensures var tx, b := [OnceAgain(), OnTheAir(Handed(1, true, 0))], OnTheAir(Handed(1, true, 0));
            WellFormed(tx) && ApplyBlock(tx, Positive(1), Allow(w)) == Acked([OnceAgain()], [b], None)
    ensures WellFormed([OnceAgain()]) && ApplyBlock([OnceAgain()], Absent(2), Allow(w))
            == Acked([OnceAgain()], [], None)
  {
    hide Body;
    var tx := [OnceAgain(), OnTheAir(Handed(1, true, 0))];
    assert Find(tx, 1) == 1 && RemoveAt(tx, 1) == [OnceAgain()];
    assert Find([OnceAgain()], 2) == 1;
  }

  lemma GapApplies(tx: seq<TxSdu>, blocks: seq<AlAckBlock>, w: nat)
    requires 2 <= w <= 3 && |blocks| == w && blocks[0] == Absent(0) && blocks[1] == Positive(1)
             && (w == 3 ==> blocks[2] == Absent(2))
    requires WellFormed(tx) && |tx| == 2 && WellFormed([OnceAgain(), tx[1]]) && WellFormed([OnceAgain()])
    requires ApplyBlock(tx, Absent(0), Allow(w)) == Acked([OnceAgain(), tx[1]], [], None)
    requires ApplyBlock([OnceAgain(), tx[1]], Positive(1), Allow(w)) == Acked([OnceAgain()], [tx[1]], None)
    requires ApplyBlock([OnceAgain()], Absent(2), Allow(w)) == Acked([OnceAgain()], [], None)
    ensures ApplyBlocks(tx, blocks, Allow(w)) == Acked([OnceAgain()], [tx[1]], None)
  {
    hide ApplyBlock, Absent, OnceAgain, WellFormed;
    var z := OnceAgain();
    var rest, last := blocks[1..], blocks[2..];
    assert rest[0] == Positive(1) && rest[1..] == last;
    assert w == 3 ==> last[0] == Absent(2) && last[1..] == [];
    assert w == 2 ==> last == [];
    assert ApplyBlocks([z], [], Allow(w)) == Acked([z], [], None);
    assert ApplyBlocks([z], last, Allow(w)) == Acked([z], [], None);
    assert ApplyBlocks([z, tx[1]], rest, Allow(w)) == Acked([z], [tx[1]] + [], None);
  }

  lemma SecondHearing(w: nat)
    requires 2 <= w <= 3
    ensures var tx := [Offer(OnceAgain(), true)];
            && WellFormed(tx) && Gap(w).blocks != [] && ApplyAck(tx, Gap(w).blocks, Allow(w)).failed == Some(0)
            && ApplyAck(tx, Gap(w).blocks, Allow(w)).acked == []
            && var left := ApplyAck(tx, Gap(w).blocks, Allow(w)).tx; |left| == 1 && left[0].ns == 0
  {
    hide Body, Absent;
    var tx, blocks := [Offer(OnceAgain(), true)], Gap(w).blocks;
    GapShape(w);
    AbsentIs(0);
    assert PassedCount(tx, 0, w) == 0 && tx[0..] == tx;
    GapCharges(tx, w);
    hide ApplyBlock, Gap;
  }

  lemma WaitsAgain(w: nat)
    requires 2 <= w <= 3
    ensures var seen := [OnceAgain()];
            AllSimple(seen) && LooksLike(seen, seen, T0) && Selected(seen, Allow(w), false) == [0]
    ensures [OnceAgain()][0 := Offer(OnceAgain(), true)] == [Offer(OnceAgain(), true)]
  {
    hide Body;
    var seen := [OnceAgain()];
    OfferableIs(seen, 0, w);
    NoneInFlight(seen);
    hide Offerable;
    assert Pick(seen, 1, w - 1, Allow(w), false) == [];
    assert Pick(seen, 0, w, Allow(w), false) == [0];
  }

  // Nothing that was sent is kept.
  lemma NothingKept(s: System, report: Report, w: nat)
    requires 2 <= w <= 3 && report == Gap(w) && Sends(s, w, [Offer(OnceAgain(), true)], 2)
             && Enabled(s, DeliverReport(report, true, T0))
    ensures var t := Step(s, DeliverReport(report, true, T0)); t.sender.reset.Some? && t.own.origin == []
  {
    hide ApplyAck, Gap, Offer, OnceAgain, CanReport, WellFormed, Step, Enabled, Retained, AllSimple;
    SecondHearing(w);
    OneFails(ApplyAck(s.sender.tx, report.blocks, s.sender.limits).tx);
    LeavesNone(s, report);
  }

  lemma LeavesNone(s: System, report: Report)
    requires Enabled(s, DeliverReport(report, true, T0)) && WellFormed(s.sender.tx) && report.blocks != []
             && s.sender.reset.None?
    requires var r := ApplyAck(s.sender.tx, report.blocks, s.sender.limits);
             r.failed == Some(0) && Retained(r.tx, 0, Find(r.tx, 0), 0) == []
    ensures var t := Step(s, DeliverReport(report, true, T0)); t.sender.reset.Some? && t.own.origin == []
  {
    hide ApplyAck, CanReport, WellFormed, Retained;
  }

  lemma OneFails(tx: seq<TxSdu>)
    requires |tx| == 1 && tx[0].ns == 0
    ensures Retained(tx, 0, Find(tx, 0), 0) == []
  {
    assert Retained(tx, 1, 0, 0) == [];
  }

  // What these actions complete is counted on top of what the run completed before.
  lemma Longer(states: seq<System>, actions: seq<Action>, a: Action)
      returns (states': seq<System>, actions': seq<Action>)
    requires IsRun(states, actions) && Enabled(states[|actions|], a)
    ensures IsRun(states', actions') && |states'| == |actions'| + 1 == |actions| + 2 && states'[0] == states[0]
    ensures states'[|actions'|] == Step(states[|actions|], a)
    ensures Completed(states', actions', |actions'|) == Completed(states, actions, |actions|)
            + CompletedIn(states[|actions|], a)
  {
    hide Enabled, Step, Initial, CompletedIn;
    states', actions' := states + [Step(states[|actions|], a)], actions + [a];
    forall i | 0 <= i < |actions'|
      ensures Enabled(states'[i], actions'[i]) && states'[i + 1] == Step(states'[i], actions'[i])
    {
      if i < |actions| {
        assert states'[i] == states[i] && actions'[i] == actions[i] && states'[i + 1] == states[i + 1];
      }
    }
    SameStart(states, actions, states', actions', |actions|);
  }

  lemma {:induction false} SameStart(states: seq<System>, actions: seq<Action>, states': seq<System>,
                                     actions': seq<Action>, n: nat)
    requires IsRun(states, actions) && IsRun(states', actions') && n <= |actions| && states <= states'
             && actions <= actions'
    ensures n < |states| <= |states'| && Completed(states', actions', n) == Completed(states, actions, n)
  {
    hide Enabled, Step, Initial, CompletedIn;
    if n > 0 {
      SameStart(states, actions, states', actions', n - 1);
      assert states'[n - 1] == states[n - 1] && actions'[n - 1] == actions[n - 1];
    }
  }

  // The second TL-SDU is acknowledged; it lies above the base, so it has not been handed up.
  lemma SecondIsAcknowledged(s: System, w: nat)
    requires 2 <= w <= 3 && Inv(s) && s.base == 0 && Enabled(s, DeliverReport(Gap(w), true, T0))
    requires Sends(s, w, [Handed(0, false, 0), OnTheAir(Handed(1, true, 0))], 2)
    ensures |s.own.origin| == 2 && s.own.origin[1] in CompletedIn(s, DeliverReport(Gap(w), true, T0))
    ensures s.own.origin[1] !in s.trace && s.own.origin[1] < |s.arrivals|
  {
    hide Inv, Handed, Gap, CanReport, WellFormed, ApplyAck, AllSimple, Enabled, CompletedIn;
    FirstHearing(w);
    AboveBaseIsUnseen(s, 1);
    HandedIs(1, true, 0);
    HearingCompletes(s, Gap(w), 1, OnTheAir(Handed(1, true, 0)));
  }

  lemma AboveBaseIsUnseen(s: System, k: nat)
    requires Inv(s) && s.base <= k < |s.own.accepted| && s.sender.reset.None?
    ensures |s.own.origin| == |s.own.accepted| && s.own.origin[k] !in s.trace && s.own.origin[k] < |s.arrivals|
  {
    hide Inv, GenerationOk, TraceOk, HistoryOk;
    PeerFacts(s);
    QueueFacts(s);
    HistoryIsOk(s);
    HeardIsOk(s);
    OriginIsArrival(s, k);
  }

  lemma OriginIsArrival(s: System, k: nat)
    requires GenerationOk(s.heard, s.arrivals) && k < |s.heard.origin|
    ensures s.heard.origin[k] < |s.arrivals|
  {
  }

  lemma HearingCompletes(s: System, report: Report, k: nat, done: TxSdu)
    requires Enabled(s, DeliverReport(report, true, T0)) && WellFormed(s.sender.tx) && report.blocks != []
             && s.sender.reset.None?
    requires ApplyAck(s.sender.tx, report.blocks, s.sender.limits).acked == [done] && done.receipt == k < |s.own.origin|
    ensures s.own.origin[k] in CompletedIn(s, DeliverReport(report, true, T0))
  {
    hide ApplyAck, CanReport, WellFormed;
    var acked := HandleAck(s.sender, AlAck(true, report.blocks), T0).acked;
    assert acked[0] == done;
  }

  // What the reset leaves: nothing of the old numbering is still to come.
  lemma NothingComes(s: System, t: System, a: nat)
    requires Inv(s) && s.sender.reset.Some? && s.own.origin == [] && t == ConfirmResetStep(s) && a < |s.arrivals|
             && a !in s.trace
    ensures Missed(t, a) && t.sender.reset.None?
  {
    hide Inv;
  }

  lemma RunTo(s: System) returns (states: seq<System>, actions: seq<Action>)
    requires Reached(s)
    ensures IsRun(states, actions) && |states| == |actions| + 1 && states[|actions|] == s
            && Window(states[0]) == Window(s)
  {
    hide Initial, Enabled, Step, AlwaysAnsweredInFull;
    states, actions :| IsRun(states, actions) && AlwaysAnsweredInFull(states, actions) && states[|actions|] == s;
    N.SameWindow(states, actions, |actions|);
  }

  lemma CanHearAgain(s: System, w: nat)
    requires 2 <= w <= 3 && Sends(s, w, [Offer(OnceAgain(), true)], 2) && Gap(w) in s.reports
    ensures Enabled(s, DeliverReport(Gap(w), true, T0))
  {
    GapShape(w);
    hide Body;
    assert Front([Offer(OnceAgain(), true)], 2) == 0;
  }

  lemma TraceStays(s: System, a: Action)
    requires Enabled(s, a) && (a.Tick? || a.DeliverReport?)
    ensures Step(s, a).trace == s.trace && Step(s, a).arrivals == s.arrivals
  {
    OthersHandUpNothing(s, a);
  }

  lemma ConfirmIs(s: System)
    requires s.sender.reset.Some?
    ensures Enabled(s, ConfirmReset) && Step(s, ConfirmReset) == ConfirmResetStep(s)
  {
  }

  // TL-SDU 0 is asked for twice: the second time the link resets.
  lemma AskedForTwice(s: System, w: nat) returns (s1: System, s2: System)
    requires 2 <= w <= 3 && Reached(s) && Sends(s, w, [Handed(0, false, 0), OnTheAir(Handed(1, true, 0))], 2)
             && Gap(w) in s.reports
    ensures var hearing := DeliverReport(Gap(w), true, T0);
            && Enabled(s, hearing) && s1 == Step(s, hearing) && Enabled(s1, Tick(T0, true))
            && s2 == Step(s1, Tick(T0, true))
            && Enabled(s2, hearing) && Step(s2, hearing).sender.reset.Some? && Step(s2, hearing).own.origin == []
  {
    hide Reached, Enabled, Step, Sends, Gap, ApplyAck, AllSimple, Front, Handed, OnTheAir, OnceAgain, Offer,
         ReportsWindow, WellFormed, Selected, LooksLike;
    GapShape(w);
    FirstHearing(w);
    GapIsFirst(w);
    s1 := Hears(s, w, [Handed(0, false, 0), OnTheAir(Handed(1, true, 0))], 2, Gap(w), [OnceAgain()]);
    WaitsAgain(w);
    s2 := TurnWithOne(s1, w, [OnceAgain()], 2, T0, [OnceAgain()], 0);
    CanHearAgain(s2, w);
    NothingKept(s2, Gap(w), w);
  }

  lemma GapIsFirst(w: nat)
    ensures Gap(w).first == 0
  {
  }

  /**
   A run at whose end an acknowledged TL-SDU is missed: 1 arrives and is acknowledged, 0 does not,
   N.273 and N.274 run out, and the reset clears what the peer held.
   */
  lemma AcknowledgedThenMissed(w: nat) returns (states: seq<System>, actions: seq<Action>, a: nat)
    requires 2 <= w <= 3
    ensures IsRun(states, actions) && Window(states[0]) == w && states[|actions|].sender.reset.None?
    ensures a in Completed(states, actions, |actions|) && Missed(states[|actions|], a)
  {
    hide Inv, Enabled, Step, Sends, HandedUpBelow, CompletedIn, Missed, Gap, Reached, IsRun, Completed,
         ConfirmResetStep, Handed, OnTheAir;
    var s := SecondArrives(w);
    WindowIs(s, w);
    states, actions := RunTo(s);
    RunHandsUp(states, actions, |actions|);
    var hearing := DeliverReport(Gap(w), true, T0);
    var s1, s2 := AskedForTwice(s, w);
    SecondIsAcknowledged(s, w);
    a := s.own.origin[1];
    TraceStays(s, hearing);
    TraceStays(s1, Tick(T0, true));
    TraceStays(s2, hearing);
    states, actions := Longer(states, actions, hearing);
    states, actions := Longer(states, actions, Tick(T0, true));
    states, actions := Longer(states, actions, hearing);
    RunKeeps(states, actions, |actions|);
    var s3 := Step(s2, hearing);
    ConfirmIs(s3);
    NothingComes(s3, ConfirmResetStep(s3), a);
    states, actions := Longer(states, actions, ConfirmReset);
  }

  lemma WindowIs(s: System, w: nat)
    requires exists tx, count :: Sends(s, w, tx, count)
    ensures Window(s) == w
  {
  }

  // ----- Exactly when acknowledged means handed up

  ghost predicate AllHandedUp(states: seq<System>, actions: seq<Action>)
    requires IsRun(states, actions)
  {
    forall a <- Completed(states, actions, |actions|) :: a in states[|actions|].trace
  }

  ghost predicate NoneMissed(states: seq<System>, actions: seq<Action>)
    requires IsRun(states, actions)
  {
    forall a <- Completed(states, actions, |actions|) :: !Missed(states[|actions|], a)
  }

  /**
   Over all runs: every TL-SDU completed as acknowledged has been handed up by then if and only if
   the window is one; and only then is none of them ever missed because of a reset.
   */
  lemma AcknowledgedIsHandedUp(window: nat)
    requires 1 <= window <= 3
    ensures (forall states, actions | IsRun(states, actions) && Window(states[0]) == window ::
               AllHandedUp(states, actions)) <==> window == 1
    ensures (forall states, actions | IsRun(states, actions) && Window(states[0]) == window ::
               NoneMissed(states, actions)) <==> window == 1
  {
    hide Initial, Enabled, Step, AllHandedUp, NoneMissed;
    if window == 1 {
      forall states, actions | IsRun(states, actions) && Window(states[0]) == window
        ensures AllHandedUp(states, actions) && NoneMissed(states, actions)
      {
        OneMissesNone(states, actions);
      }
    } else {
      var states, actions, a := AcknowledgedThenMissed(window);
      OneMissed(states, actions, a);
    }
  }

  lemma OneMissesNone(states: seq<System>, actions: seq<Action>)
    requires IsRun(states, actions) && Window(states[0]) == 1
    ensures AllHandedUp(states, actions) && NoneMissed(states, actions)
  {
    hide Inv, Initial, Enabled, Step, Completed, StillComes;
    OneHandsUp(states, actions, |actions|);
  }

  lemma OneMissed(states: seq<System>, actions: seq<Action>, a: nat)
    requires IsRun(states, actions) && a in Completed(states, actions, |actions|) && Missed(states[|actions|], a)
    ensures !AllHandedUp(states, actions) && !NoneMissed(states, actions)
  {
    hide Initial, Enabled, Step, Completed, StillComes;
  }
}
