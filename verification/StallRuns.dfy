/**
 Two runs of the advanced link that end one report away from silence. Every report the sender
 takes before that one covers the whole window and is no older than the sender's front, so
 neither half of the condition of `NoStall` can be dropped: the first run is one for a window of
 two or three, the second for a window of three.
 */
module StallRuns {
  import opened Wrappers
  import opened AlPdu
  import opened Tdma
  import opened TxReceipt
  import opened Sender
  import opened AdvancedLink
  import opened SendWindow
  import opened SendProgress
  import opened Arq
  import opened NoStall
  import opened RunSteps
  import R = Receiver

  // ----- A reply from below the window

  lemma BothAired(s: System, w: nat) returns (t: System)
    requires Reached(s) && Sends(s, w, [Handed(0, false, 0), Handed(1, true, 0)], 2) && OfTwo(0) in s.mac
             && OfTwo(1) in s.mac
    ensures Reached(t) && Sends(t, w, [OnTheAir(Handed(0, false, 0)), OnTheAir(Handed(1, true, 0))], 2)
    ensures SamePeer(s, t) && OfTwo(0) in t.data && OfTwo(1) in t.data
  {
    hide Reached, Sends, Pdu, Handed;
    HandedIs(0, false, 0);
    HandedIs(1, true, 0);
    var a, b := Handed(0, false, 0), Handed(1, true, 0);
    t := Airs(s, w, [a, b], 2, 0, OfTwo(0));
    assert [a, b][0 := OnTheAir(a)] == [OnTheAir(a), b];
    t := Airs(t, w, [OnTheAir(a), b], 2, 1, OfTwo(1));
    assert [OnTheAir(a), b][1 := OnTheAir(b)] == [OnTheAir(a), OnTheAir(b)];
  }

  lemma BothArrive(s: System, w: nat) returns (t: System)
    requires 2 <= w <= 3 && Reached(s) && Receives(s, w, 0, map[], 0) && s.sender.limits == Allow(w)
    requires OfTwo(0) in s.data && OfTwo(1) in s.data
    ensures Reached(t) && Receives(t, w, 2, map[], 2)
    ensures t.sender == s.sender && t.own == s.own && t.data == s.data && t.mac == s.mac
  {
    hide Reached, R.Receive, Body, R.Drain, R.AcknowledgementBlocks, Pdu, Done;
    var none: map<nat, R.RxSdu> := map[];
    InOrder(w, 0, none, false);
    t := Arrives(s, w, 0, none, 0, OfTwo(0));
    InOrder(w, 1, none, true);
    t := Arrives(t, w, 1, none, 1, OfTwo(1));
  }

  // The TL-SDU at the lower edge completes and is handed up at once.
  lemma InOrder(w: nat, id: nat, none: map<nat, R.RxSdu>, ask: bool)
    requires 1 <= w && id < 7 && none == map[]
    ensures var r := R.Receive(w, id, none, Pdu(id, ask)); r.next == id + 1 && r.sdus == none && |r.delivered| == 1
  {
    hide R.Receive, R.Drain, R.AcknowledgementBlocks, Pdu, Done;
    DoneIs(id);
    Completes(w, id, none, id, ask);
    var one := none[id := Done(id)];
    assert one - {id} == none;
    DrainsOne(id, one);
    DrainsNone(id + 1, none);
  }

  lemma SelectsSecond(tx: seq<TxSdu>, w: nat)
    requires OneWindow(tx) && |tx| == 2 <= w && InFlight(tx[0]) && !InFlight(tx[1])
    ensures Selected(tx, Allow(w), false) == [1]
  {
    OfferableIs(tx, 0, w);
    OfferableIs(tx, 1, w);
    hide Offerable, OneWindow;
    NoneInFlight(tx[1..]);
    assert InFlightCount(tx) == 1;
    assert Pick(tx, 2, w - 2, Allow(w), false) == [];
    assert Pick(tx, 1, w - 1, Allow(w), false) == [1];
    assert Pick(tx, 0, w - 1, Allow(w), false) == [1];
  }

  lemma SecondAsked()
    ensures AllSimple([Aired(0), Asking(1, T0)])
    ensures LooksLike([OnTheAir(Handed(0, false, 0)), OnTheAir(Handed(1, true, 0))], [Aired(0), Asking(1, T0)], T0)
  {
    hide Simple, AllSimple, Finds, LooksLike, Handed, OnTheAir, Aired, Asking, InFlight;
    FirstLook(0, T0);
    FirstLook(1, T0);
    SimpleOnes(0);
    SimpleOnes(1);
    Three(Aired(0), Asking(1, T0), Asking(1, T0));
    ThreeFound(OnTheAir(Handed(0, false, 0)), OnTheAir(Handed(1, true, 0)), OnTheAir(Handed(1, true, 0)),
               Aired(0), Asking(1, T0), Asking(1, T0), T0);
  }

  lemma SecondTimedOut(w: nat)
    requires 2 <= w
    ensures var seen := [Aired(0), Again(1)];
            && AllSimple(seen) && LooksLike([Aired(0), Asking(1, T0)], seen, T1)
            && Selected(seen, Allow(w), false) == [1]
            && seen[1].receipt == 1 && seen[1 := Offer(seen[1], true)] == [Aired(0), Handed(1, true, 1)]
  {
    hide Simple, AllSimple, Finds, LooksLike, Aired, Asking, Again, Handed, InFlight, Selected, Offer, OneWindow, T1;
    FirstLook(0, T1);
    TimerRunsOut(1);
    SimpleOnes(0);
    SimpleOnes(1);
    var seen := [Aired(0), Again(1)];
    Three(Aired(0), Again(1), Again(1));
    ThreeFound(Aired(0), Asking(1, T0), Asking(1, T0), Aired(0), Again(1), Again(1), T1);
    PairOfWindow();
    SelectsSecond(seen, w);
  }

  lemma PairOfWindow()
    ensures OneWindow([Aired(0), Again(1)]) && Again(1).receipt == 1 && Offer(Again(1), true) == Handed(1, true, 1)
  {
    hide Body;
  }

  /** The peer has both TL-SDUs, but nobody hears of it, and when T.252 runs out 1 is offered again. */
  lemma SecondRepeated(w: nat) returns (s: System)
    requires 2 <= w <= 3
    ensures Reached(s) && Receives(s, w, 2, map[], 2) && Sends(s, w, [Aired(0), Handed(1, true, 1)], 2)
            && OfTwo(1) in s.mac
  {
    hide Reached, AllSimple, LooksLike, Handed, OnTheAir, Aired, Asking, Again, Selected, Pdu;
    s := TwoHanded(w);
    s := BothAired(s, w);
    s := BothArrive(s, w);
    s := AskedOnce(s, w);
    SecondTimedOut(w);
    s := TurnWithOne(s, w, [Aired(0), Asking(1, T0)], 2, T1, [Aired(0), Again(1)], 1);
  }

  lemma AskedOnce(s: System, w: nat) returns (t: System)
    requires Reached(s) && Sends(s, w, [OnTheAir(Handed(0, false, 0)), OnTheAir(Handed(1, true, 0))], 2)
    ensures Reached(t) && Sends(t, w, [Aired(0), Asking(1, T0)], 2) && SamePeer(s, t)
  {
    hide Reached, Sends, AllSimple, LooksLike, Handed, OnTheAir, Aired;
    SecondAsked();
    var seen := [Aired(0), Asking(1, T0)];
    assert seen[1].ackRequested;
    t := QuietTurn(s, w, [OnTheAir(Handed(0, false, 0)), OnTheAir(Handed(1, true, 0))], 2, T0, true, seen);
  }

  /**
   One report away from silence, of a kind the program really sends: the reply to TL-SDU 1
   repeated from below a window of two or three.
   */
  lemma BelowWindowReplyStalls(w: nat, now: TdmaTime) returns (s: System, report: Report)
    requires 2 <= w <= 3
    ensures Reached(s) && Window(s) == w && report.blocks == [Positive(1)]
    ensures Enabled(s, DeliverReport(report, true, now)) && HasStalled(Step(s, DeliverReport(report, true, now)))
  {
    hide Reached, Body, Stalls, Aired, R.Receive, AllSimple, Handed;
    s := SecondRepeated(w);
    HandedIs(1, true, 1);
    s := Airs(s, w, [Aired(0), Handed(1, true, 1)], 2, 1, OfTwo(1));
    var reply := OfTwo(1).pdu;
    ReplyBelow(w, 1, map[], reply);
    assert R.Receive(w, 2, map[], reply).ack == Some([Positive(1)]);
    s := Arrives(s, w, 2, map[], 2, OfTwo(1));
    report := Report(1, [Positive(1)]);
    PairOut(s.sender, w);
    BelowWindowReplySilences(s.sender, 0, map[], reply, now);
    ThenStalls(s, report, now, s.sender.tx[..1]);
  }

  lemma PairOut(link: Link, w: nat)
    requires link.tx == [Aired(0), Handed(1, true, 1)][1 := OnTheAir(Handed(1, true, 1))] && 2 <= w <= 3
    requires link.limits == Allow(w) && link.receiverReady && link.reset.None?
    ensures WholeWindowOut(link, 0) && WellFormed(link.tx) && |link.tx| == 2 && link.tx[1].ns == 1
            && Front(link.tx, 2) == 0
  {
    hide Body;
  }

  // ----- A stale report

  lemma ThreeArrive(s: System) returns (t: System)
    requires Reached(s) && Receives(s, 3, 0, map[], 0) && s.sender.limits == Allow(3)
    requires OnAir(0, Pdu(0, false)) in s.data && OnAir(1, Pdu(1, false)) in s.data && OnAir(2, Pdu(2, true)) in s.data
    ensures Reached(t) && Receives(t, 3, 3, map[], 3)
    ensures t.sender == s.sender && t.own == s.own && t.data == s.data && t.mac == s.mac && s.reports <= t.reports
    ensures Report(0, [Positive(0), Positive(1), Positive(2)]) in t.reports
  {
    hide Reached, R.Receive, Body, R.Drain, R.AcknowledgementBlocks, Pdu;
    var one, two, three := map[2 := Done(2)], map[2 := Done(2), 1 := Done(1)],
      map[2 := Done(2), 1 := Done(1), 0 := Done(0)];
    Completes(3, 0, map[], 2, true);
    assert map[][2 := Done(2)] == one;
    DrainsNone(0, one);
    t := Arrives(s, 3, 0, map[], 0, OnAir(2, Pdu(2, true)));
    Completes(3, 0, one, 1, false);
    assert one[1 := Done(1)] == two;
    DrainsNone(0, two);
    t := Arrives(t, 3, 0, one, 0, OnAir(1, Pdu(1, false)));
    Completes(3, 0, two, 0, false);
    assert two[0 := Done(0)] == three;
    DrainsThree(three);
    AllPositive(three);
    t := Arrives(t, 3, 0, two, 0, OnAir(0, Pdu(0, false)));
  }

  lemma DrainsThree(sdus: map<nat, R.RxSdu>)
    requires sdus.Keys == {0, 1, 2} && forall n <- sdus.Keys :: sdus[n].complete.Some?
    ensures var r := R.Drain(0, sdus); r.next == 3 && r.sdus == map[] && |r.delivered| == 3
  {
    hide R.Drain;
    DrainsOne(0, sdus);
    DrainsOne(1, sdus - {0});
    DrainsOne(2, sdus - {0} - {1});
    DrainsNone(3, sdus - {0} - {1} - {2});
    assert sdus - {0} - {1} - {2} == map[];
  }

  lemma AllPositive(sdus: map<nat, R.RxSdu>)
    requires sdus.Keys == {0, 1, 2} && forall n <- sdus.Keys :: sdus[n] == Done(n)
    ensures R.AcknowledgementBlocks(3, 0, sdus, None) == [Positive(0), Positive(1), Positive(2)]
  {
    hide Body;
    var blocks := R.AcknowledgementBlocks(3, 0, sdus, None);
    assert blocks[0] == Positive(0) && blocks[1] == Positive(1) && blocks[2] == Positive(2);
  }

  // ----- The sender's turns

  lemma SelectsThree(tx: seq<TxSdu>)
    requires OneWindow(tx) && |tx| == 3 && forall i | 0 <= i < 3 :: !InFlight(tx[i])
    ensures Selected(tx, Allow(3), false) == [0, 1, 2]
  {
    OfferableIs(tx, 0, 3);
    OfferableIs(tx, 1, 3);
    OfferableIs(tx, 2, 3);
    hide Offerable, OneWindow;
    NoneInFlight(tx);
    assert Pick(tx, 3, 0, Allow(3), false) == [];
    assert Pick(tx, 2, 1, Allow(3), false) == [2];
    assert Pick(tx, 1, 2, Allow(3), false) == [1, 2];
    assert Pick(tx, 0, 3, Allow(3), false) == [0, 1, 2];
  }

  lemma SelectsLast(tx: seq<TxSdu>)
    requires OneWindow(tx) && |tx| == 3 && InFlight(tx[0]) && InFlight(tx[1]) && !InFlight(tx[2])
    ensures Selected(tx, Allow(3), false) == [2]
  {
    OfferableIs(tx, 0, 3);
    OfferableIs(tx, 1, 3);
    OfferableIs(tx, 2, 3);
    hide Offerable, OneWindow;
    NoneInFlight(tx[2..]);
    assert tx[1..][1..] == tx[2..];
    assert InFlightCount(tx[1..]) == 1;
    assert InFlightCount(tx) == 2;
    assert Pick(tx, 3, 0, Allow(3), false) == [];
    assert Pick(tx, 2, 1, Allow(3), false) == [2];
    assert Pick(tx, 1, 1, Allow(3), false) == [2];
    assert Pick(tx, 0, 1, Allow(3), false) == [2];
  }

  lemma SelectsFirst(tx: seq<TxSdu>)
    requires OneWindow(tx) && |tx| == 2 && !InFlight(tx[0]) && InFlight(tx[1])
    ensures Selected(tx, Allow(3), false) == [0]
  {
    OfferableIs(tx, 0, 3);
    OfferableIs(tx, 1, 3);
    hide Offerable, OneWindow;
    assert tx[1..][1..] == [];
    assert InFlightCount(tx[1..]) == 1;
    assert InFlightCount(tx) == 1;
    assert Pick(tx, 2, 1, Allow(3), false) == [];
    assert Pick(tx, 1, 1, Allow(3), false) == [];
    assert Pick(tx, 0, 2, Allow(3), false) == [0];
  }

  // ----- Up to the lost acknowledgement of a whole window

  function First(id: nat): OnAir {
    OnAir(id, Pdu(id, id == 2))
  }

  lemma ThreeAccepted() returns (s: System)
    ensures Reached(s) && Receives(s, 3, 0, map[], 0) && Sends(s, 3, [Queued1(0), Queued1(1), Queued1(2)], 3)
  {
    hide Reached, Receives, Sends, Queued1;
    s := Starts(3);
    var none: seq<TxSdu> := [];
    var one, two := none + [Queued1(0)], none + [Queued1(0)] + [Queued1(1)];
    s := AcceptsToo(s, 3, none, 0, 0, map[], 0);
    s := AcceptsToo(s, 3, one, 1, 0, map[], 0);
    s := AcceptsToo(s, 3, two, 2, 0, map[], 0);
    assert two + [Queued1(2)] == [Queued1(0), Queued1(1), Queued1(2)];
  }

  // Three TL-SDUs that wait are all handed to the MAC; the last is to ask.
  lemma ThreeHanded(s: System, waiting: seq<TxSdu>, count: nat, now: TdmaTime) returns (t: System)
    requires Reached(s) && Sends(s, 3, waiting, count) && OneWindow(waiting) && |waiting| == 3
    requires forall i | 0 <= i < 3 :: !InFlight(waiting[i])
    ensures Reached(t)
            && Sends(t, 3, [Offer(waiting[0], false), Offer(waiting[1], false), Offer(waiting[2], true)], count)
    ensures SamePeer(s, t) && s.data <= t.data && t.reports == s.reports
    ensures forall i | 0 <= i < 3 :: OnAir(waiting[i].receipt, Pdu(waiting[i].receipt, i == 2)) in t.mac
  {
    hide Reached, Sends, Pdu, Offer, ObserveAll, Selected, InFlight, OneWindow, AllSimple, Receives;
    ThreeSelected(waiting, now);
    var all: seq<nat> := [0, 1, 2];
    t := Turns(s, 3, waiting, count, now, true, waiting, all);
    forall i | 0 <= i < 3
      ensures OnAir(waiting[i].receipt, Pdu(waiting[i].receipt, i == 2)) in t.mac
    {
      assert all[i] == i && waiting[all[i]] == waiting[i] && (i + 1 == |all| <==> i == 2);
    }
  }

  lemma OffersThree(waiting: seq<TxSdu>)
    requires |waiting| == 3
    ensures OfferAll(waiting, [0, 1, 2])
            == [Offer(waiting[0], false), Offer(waiting[1], false), Offer(waiting[2], true)]
  {
    hide Offer;
  }

  lemma ThreeSelected(waiting: seq<TxSdu>, now: TdmaTime)
    requires OneWindow(waiting) && |waiting| == 3 && forall i | 0 <= i < 3 :: !InFlight(waiting[i])
    ensures AllSimple(waiting) && ObserveAll(waiting, now, Allow(3)) == ObservedAll(waiting, None)
            && Selected(waiting, Allow(3), false) == [0, 1, 2]
    ensures OfferAll(waiting, [0, 1, 2]) == [Offer(waiting[0], false), Offer(waiting[1], false),
                                             Offer(waiting[2], true)]
  {
    hide Offer, ObserveAll, Selected, OfferAll;
    SelectsThree(waiting);
    LooksAtEach(waiting, waiting, now, 3);
    OffersThree(waiting);
  }

  lemma ThreeAired(s: System, count: nat, a: TxSdu, b: TxSdu, c: TxSdu) returns (t: System)
    requires Reached(s) && Sends(s, 3, [a, b, c], count) && a.attempt == b.attempt == c.attempt == Some(Pending)
    requires a.receipt == 0 && b.receipt == 1 && c.receipt == 2
    requires First(0) in s.mac && First(1) in s.mac && First(2) in s.mac
    ensures Reached(t) && Sends(t, 3, [OnTheAir(a), OnTheAir(b), OnTheAir(c)], count)
    ensures SamePeer(s, t) && t.reports == s.reports && First(0) in t.data && First(1) in t.data && First(2) in t.data
  {
    hide Reached, Sends, Pdu;
    t := Airs(s, 3, [a, b, c], count, 0, First(0));
    assert [a, b, c][0 := OnTheAir(a)] == [OnTheAir(a), b, c];
    t := Airs(t, 3, [OnTheAir(a), b, c], count, 1, First(1));
    assert [OnTheAir(a), b, c][1 := OnTheAir(b)] == [OnTheAir(a), OnTheAir(b), c];
    t := Airs(t, 3, [OnTheAir(a), OnTheAir(b), c], count, 2, First(2));
    assert [OnTheAir(a), OnTheAir(b), c][2 := OnTheAir(c)] == [OnTheAir(a), OnTheAir(b), OnTheAir(c)];
  }

  lemma FirstWindow()
    ensures var waiting := [Queued1(0), Queued1(1), Queued1(2)];
            OneWindow(waiting) && forall i | 0 <= i < 3 :: !InFlight(waiting[i]) && waiting[i].receipt == i
    ensures Offer(Queued1(0), false) == Handed(0, false, 0) && Offer(Queued1(1), false) == Handed(1, false, 0)
    ensures Offer(Queued1(2), true) == Handed(2, true, 0)
  {
    hide Body;
  }

  /** TL-SDUs 0, 1 and 2 are accepted, offered and aired, and the peer acknowledges them all. */
  lemma WindowDelivered() returns (s: System)
    ensures Reached(s) && Receives(s, 3, 3, map[], 3) && Report(0, [Positive(0), Positive(1), Positive(2)]) in s.reports
    ensures Sends(s, 3, [OnTheAir(Handed(0, false, 0)), OnTheAir(Handed(1, false, 0)), OnTheAir(Handed(2, true, 0))], 3)
    ensures First(2) in s.data
  {
    FirstWindow();
    hide Reached, Queued1, Pdu, OneWindow, InFlight, Offer;
    s := ThreeAccepted();
    var waiting := [Queued1(0), Queued1(1), Queued1(2)];
    s := ThreeHanded(s, waiting, 3, T0);
    assert OnAir(waiting[0].receipt, Pdu(waiting[0].receipt, 0 == 2)) == First(0);
    assert OnAir(waiting[1].receipt, Pdu(waiting[1].receipt, 1 == 2)) == First(1);
    assert OnAir(waiting[2].receipt, Pdu(waiting[2].receipt, 2 == 2)) == First(2);
    s := ThreeAired(s, 3, Handed(0, false, 0), Handed(1, false, 0), Handed(2, true, 0));
    s := ThreeArrive(s);
  }

  lemma WindowOfThree()
    ensures OneWindow([Aired(0), Aired(1), Again(2)]) && Again(2).receipt == 2
            && Offer(Again(2), true) == Handed(2, true, 1)
    ensures InFlight(Aired(0)) && InFlight(Aired(1)) && !InFlight(Again(2))
  {
    hide Body;
  }

  /** Nobody hears of that acknowledgement, so when T.252 runs out TL-SDU 2 is offered again. */
  lemma LastRepeated() returns (s: System)
    ensures Reached(s) && Receives(s, 3, 3, map[], 3) && Report(0, [Positive(0), Positive(1), Positive(2)]) in s.reports
    ensures Sends(s, 3, [Aired(0), Aired(1), Handed(2, true, 1)], 3) && First(2) in s.mac
  {
    s := WindowDelivered();
    s := AskedOnAir(s);
    s := AskedAgain(s);
  }

  lemma AskedOnAir(s: System) returns (t: System)
    requires Reached(s)
             && Sends(s, 3, [OnTheAir(Handed(0, false, 0)), OnTheAir(Handed(1, false, 0)),
                             OnTheAir(Handed(2, true, 0))], 3)
    ensures Reached(t) && Sends(t, 3, [Aired(0), Aired(1), Asking(2, T0)], 3) && SamePeer(s, t)
            && t.reports == s.reports
  {
    hide Reached, Sends, AllSimple, LooksLike, Handed, OnTheAir, Aired;
    AskedSeen();
    var seen := [Aired(0), Aired(1), Asking(2, T0)];
    assert seen[2].ackRequested;
    t := QuietTurn(s, 3, [OnTheAir(Handed(0, false, 0)), OnTheAir(Handed(1, false, 0)), OnTheAir(Handed(2, true, 0))],
                   3, T0, true, seen);
  }

  lemma AskedSeen()
    ensures AllSimple([Aired(0), Aired(1), Asking(2, T0)])
    ensures LooksLike([OnTheAir(Handed(0, false, 0)), OnTheAir(Handed(1, false, 0)), OnTheAir(Handed(2, true, 0))],
                      [Aired(0), Aired(1), Asking(2, T0)], T0)
  {
    hide Simple, AllSimple, Finds, LooksLike, Handed, OnTheAir, Aired, Asking, InFlight;
    FirstLook(0, T0);
    FirstLook(1, T0);
    FirstLook(2, T0);
    SimpleOnes(0);
    SimpleOnes(1);
    SimpleOnes(2);
    Three(Aired(0), Aired(1), Asking(2, T0));
    ThreeFound(OnTheAir(Handed(0, false, 0)), OnTheAir(Handed(1, false, 0)), OnTheAir(Handed(2, true, 0)), Aired(0),
               Aired(1), Asking(2, T0), T0);
  }

  lemma AskedAgain(s: System) returns (t: System)
    requires Reached(s) && Sends(s, 3, [Aired(0), Aired(1), Asking(2, T0)], 3)
    ensures Reached(t) && Sends(t, 3, [Aired(0), Aired(1), Handed(2, true, 1)], 3) && First(2) in t.mac
    ensures SamePeer(s, t) && t.reports == s.reports
  {
    hide Reached, Sends, AllSimple, LooksLike, Aired, Asking, Again, Handed, Selected, Pdu;
    TimedOutSeen();
    LastAgain();
    t := TurnWithOne(s, 3, [Aired(0), Aired(1), Asking(2, T0)], 3, T1, [Aired(0), Aired(1), Again(2)], 2);
  }

  lemma TimedOutSeen()
    ensures AllSimple([Aired(0), Aired(1), Again(2)])
    ensures LooksLike([Aired(0), Aired(1), Asking(2, T0)], [Aired(0), Aired(1), Again(2)], T1)
  {
    hide Simple, AllSimple, Finds, LooksLike, Aired, Asking, Again, Handed, InFlight, T1;
    FirstLook(0, T1);
    FirstLook(1, T1);
    TimerRunsOut(2);
    SimpleOnes(0);
    SimpleOnes(1);
    SimpleOnes(2);
    Three(Aired(0), Aired(1), Again(2));
    ThreeFound(Aired(0), Aired(1), Asking(2, T0), Aired(0), Aired(1), Again(2), T1);
  }

  lemma LastAgain()
    ensures var seen := [Aired(0), Aired(1), Again(2)];
            && Selected(seen, Allow(3), false) == [2] && seen[2].receipt == 2
            && seen[2 := Offer(seen[2], true)] == [Aired(0), Aired(1), Handed(2, true, 1)]
  {
    hide *;
    WindowOfThree();
    ThirdOffered(Aired(0), Aired(1), Again(2));
  }

  lemma ThirdOffered(a: TxSdu, b: TxSdu, c: TxSdu)
    requires OneWindow([a, b, c]) && InFlight(a) && InFlight(b) && !InFlight(c)
    ensures Selected([a, b, c], Allow(3), false) == [2] && [a, b, c][2 := Offer(c, true)] == [a, b, Offer(c, true)]
  {
    hide OneWindow, InFlight, Selected, Offer, Allow;
    SelectsLast([a, b, c]);
  }

  // ----- Up to a report that is older than the front

  /** The repeated TL-SDU 2 is dropped by the MAC, so the first report retires 0 and 1 but not 2. */
  lemma FrontPassed() returns (s: System)
    ensures Reached(s) && Receives(s, 3, 3, map[], 3) && Report(0, [Positive(0), Positive(1), Positive(2)]) in s.reports
    ensures Sends(s, 3, [Dropped(2)], 3)
  {
    s := LastRepeated();
    hide Reached, Aired, AllSimple, Handed, Dropped, ApplyAck, Front;
    HandedIs(2, true, 1);
    s := Drops(s, 3, [Aired(0), Aired(1), Handed(2, true, 1)], 3, 2);
    DroppedSeen();
    s := QuietTurn(s, 3, [Aired(0), Aired(1), Discarding(Handed(2, true, 1))], 3, T1, false,
                   [Aired(0), Aired(1), Dropped(2)]);
    FirstReport();
    s := Hears(s, 3, [Aired(0), Aired(1), Dropped(2)], 3, Report(0, [Positive(0), Positive(1), Positive(2)]),
               [Dropped(2)]);
  }

  lemma DroppedSeen()
    ensures var sent := [Aired(0), Aired(1), Handed(2, true, 1)];
            sent[2 := sent[2].(attempt := Some(Discarded))] == [Aired(0), Aired(1), Discarding(Handed(2, true, 1))]
    ensures AllSimple([Aired(0), Aired(1), Dropped(2)])
    ensures LooksLike([Aired(0), Aired(1), Discarding(Handed(2, true, 1))], [Aired(0), Aired(1), Dropped(2)], T1)
  {
    hide Simple, AllSimple, Finds, LooksLike, Aired, Dropped, Handed, InFlight, T1;
    FirstLook(0, T1);
    FirstLook(1, T1);
    DiscardSeen(2, true, T1);
    SimpleOnes(0);
    SimpleOnes(1);
    SimpleOnes(2);
    Three(Aired(0), Aired(1), Dropped(2));
    ThreeFound(Aired(0), Aired(1), Discarding(Handed(2, true, 1)), Aired(0), Aired(1), Dropped(2), T1);
  }

  lemma FirstReport()
    ensures var tx, blocks := [Aired(0), Aired(1), Dropped(2)], [Positive(0), Positive(1), Positive(2)];
            && WellFormed(tx) && Front(tx, 3) == 0 && ReportsWindow(blocks, 0, 3) && AllSimple([Dropped(2)])
            && ApplyAck(tx, blocks, Allow(3)).tx == [Dropped(2)] && ApplyAck(tx, blocks, Allow(3)).failed.None?
  {
    hide Body, ApplyAck, WellFormed;
    WellFormedThree(Aired(0), Aired(1), Dropped(2));
    FirstTwoRetire(Aired(0), Aired(1), Dropped(2));
  }

  lemma WellFormedThree(a: TxSdu, b: TxSdu, c: TxSdu)
    requires Simple(a) && Simple(b) && Simple(c)
    ensures WellFormed([a, b, c]) && WellFormed([b, c]) && WellFormed([a, b]) && WellFormed([c])
  {
  }

  lemma FirstTwoRetire(a: TxSdu, b: TxSdu, c: TxSdu)
    requires a.ns == 0 && b.ns == 1 && c.ns == 2 && WasSent(a) && WasSent(b) && !WasSent(c)
    requires WellFormed([a, b, c]) && WellFormed([b, c]) && WellFormed([c])
    ensures var r := ApplyAck([a, b, c], [Positive(0), Positive(1), Positive(2)], Allow(3));
            r.tx == [c] && r.failed.None?
  {
    var tx, blocks := [a, b, c], [Positive(0), Positive(1), Positive(2)];
    assert PassedCount(tx, 0, 3) == 0 && tx[0..] == tx;
    hide ApplyBlock, ApplyBlocks, PassedCount, WasSent, WellFormed;
    assert tx[1..] == [b, c] && [b, c][1..] == [c];
    PositiveRetiresFirst(tx, Positive(0), Allow(3));
    PositiveRetiresFirst([b, c], Positive(1), Allow(3));
    UnsentIsLeft([c], Positive(2));
    ApplyThree(tx, blocks, Allow(3), [b, c], [c], [c]);
  }

  lemma UnsentIsLeft(tx: seq<TxSdu>, block: AlAckBlock)
    requires WellFormed(tx) && tx != [] && tx[0].ns == block.nr && !WasSent(tx[0])
    ensures ApplyBlock(tx, block, Allow(3)) == Acked(tx, [], None)
  {
  }

  function Fifth(): Report {
    Report(4, [Positive(4), Absent(5), Absent(6)])
  }

  lemma TwoArrive(s: System) returns (t: System)
    requires Reached(s) && Receives(s, 3, 3, map[], 3) && s.sender.limits == Allow(3)
    requires OnAir(3, Pdu(3, false)) in s.data && OnAir(4, Pdu(4, true)) in s.data
    ensures Reached(t) && t.sender == s.sender && t.own == s.own && s.reports <= t.reports && Fifth() in t.reports
  {
    hide Reached, R.Receive, Body, R.Drain, R.AcknowledgementBlocks, Pdu, Done;
    var three, four := map[3 := Done(3)], map[4 := Done(4)];
    DoneIs(3);
    DoneIs(4);
    Completes(3, 3, map[], 3, false);
    assert map[][3 := Done(3)] == three && three - {3} == map[];
    DrainsOne(3, three);
    DrainsNone(4, map[]);
    t := Arrives(s, 3, 3, map[], 3, OnAir(3, Pdu(3, false)));
    Completes(3, 4, map[], 4, true);
    assert map[][4 := Done(4)] == four;
    FourthBlocks(four);
    t := Arrives(t, 3, 4, map[], 4, OnAir(4, Pdu(4, true)));
  }

  lemma FourthBlocks(sdus: map<nat, R.RxSdu>)
    requires sdus.Keys == {4} && sdus[4] == Done(4)
    ensures R.AcknowledgementBlocks(3, 4, sdus, None) == [Positive(4), Absent(5), Absent(6)]
  {
    hide Body;
    var blocks := R.AcknowledgementBlocks(3, 4, sdus, None);
    assert blocks[0] == Positive(4) && blocks[1] == Absent(5) && blocks[2] == Absent(6);
  }

  // TL-SDUs 2, 3 and 4 are offered; 2 is dropped once more, the others arrive.
  lemma SecondWindow() returns (s: System)
    ensures Reached(s) && Report(0, [Positive(0), Positive(1), Positive(2)]) in s.reports && Fifth() in s.reports
    ensures Sends(s, 3, [Discarding(Handed(2, false, 1)), OnTheAir(Handed(3, false, 0)),
                         OnTheAir(Handed(4, true, 0))], 5)
  {
    hide Reached, Body, Pdu, OneWindow, InFlight, Offer, Queued1, Handed, Dropped, AllSimple, Discarding, OnTheAir;
    s := FrontPassed();
    s := AcceptsToo(s, 3, [Dropped(2)], 3, 3, map[], 3);
    assert [Dropped(2)] + [Queued1(3)] == [Dropped(2), Queued1(3)];
    s := AcceptsToo(s, 3, [Dropped(2), Queued1(3)], 4, 3, map[], 3);
    assert [Dropped(2), Queued1(3)] + [Queued1(4)] == [Dropped(2), Queued1(3), Queued1(4)];
    NextWindow();
    s := NextHanded(s);
    s := NextAired(s);
    s := TwoArrive(s);
  }

  lemma NextWindow()
    ensures var waiting := [Dropped(2), Queued1(3), Queued1(4)];
            OneWindow(waiting) && forall i | 0 <= i < 3 :: !InFlight(waiting[i]) && waiting[i].receipt == 2 + i
    ensures Offer(Dropped(2), false) == Handed(2, false, 1) && Offer(Queued1(3), false) == Handed(3, false, 0)
    ensures Offer(Queued1(4), true) == Handed(4, true, 0)
  {
    hide Body;
  }

  lemma NextHanded(s: System) returns (t: System)
    requires Reached(s) && Sends(s, 3, [Dropped(2), Queued1(3), Queued1(4)], 5)
    ensures Reached(t) && Sends(t, 3, [Handed(2, false, 1), Handed(3, false, 0), Handed(4, true, 0)], 5)
            && SamePeer(s, t) && t.reports == s.reports
    ensures OnAir(3, Pdu(3, false)) in t.mac && OnAir(4, Pdu(4, true)) in t.mac
  {
    hide Reached, Sends, Pdu, OneWindow, InFlight, Offer, Queued1, Handed, Dropped;
    NextWindow();
    var waiting := [Dropped(2), Queued1(3), Queued1(4)];
    t := ThreeHanded(s, waiting, 5, T1);
    assert OnAir(waiting[1].receipt, Pdu(waiting[1].receipt, 1 == 2)) in t.mac;
    assert OnAir(waiting[2].receipt, Pdu(waiting[2].receipt, 2 == 2)) in t.mac;
  }

  lemma NextAired(s: System) returns (t: System)
    requires Reached(s) && Sends(s, 3, [Handed(2, false, 1), Handed(3, false, 0), Handed(4, true, 0)], 5)
    requires OnAir(3, Pdu(3, false)) in s.mac && OnAir(4, Pdu(4, true)) in s.mac
    ensures Reached(t)
            && Sends(t, 3, [Discarding(Handed(2, false, 1)), OnTheAir(Handed(3, false, 0)),
                            OnTheAir(Handed(4, true, 0))], 5)
    ensures SamePeer(s, t) && t.reports == s.reports && OnAir(3, Pdu(3, false)) in t.data
            && OnAir(4, Pdu(4, true)) in t.data
  {
    hide Reached, Sends, Pdu, Handed;
    HandedIs(2, false, 1);
    HandedIs(3, false, 0);
    HandedIs(4, true, 0);
    var a, b, c := Handed(2, false, 1), Handed(3, false, 0), Handed(4, true, 0);
    t := Drops(s, 3, [a, b, c], 5, 0);
    assert [a, b, c][0 := Discarding(a)] == [Discarding(a), b, c];
    t := Airs(t, 3, [Discarding(a), b, c], 5, 1, OnAir(3, Pdu(3, false)));
    assert [Discarding(a), b, c][1 := OnTheAir(b)] == [Discarding(a), OnTheAir(b), c];
    t := Airs(t, 3, [Discarding(a), OnTheAir(b), c], 5, 2, OnAir(4, Pdu(4, true)));
    assert [Discarding(a), OnTheAir(b), c][2 := OnTheAir(c)] == [Discarding(a), OnTheAir(b), OnTheAir(c)];
  }

  lemma SecondSeen()
    ensures AllSimple([Dropped(2), Aired(3), Asking(4, T1)]) && Asking(4, T1).ackRequested
    ensures LooksLike([Discarding(Handed(2, false, 1)), OnTheAir(Handed(3, false, 0)), OnTheAir(Handed(4, true, 0))],
                      [Dropped(2), Aired(3), Asking(4, T1)], T1)
  {
    hide Simple, AllSimple, Finds, LooksLike, Aired, Dropped, Handed, InFlight, T1, Discarding, OnTheAir;
    DiscardSeen(2, false, T1);
    FirstLook(3, T1);
    FirstLook(4, T1);
    SimpleOnes(2);
    SimpleOnes(3);
    SimpleOnes(4);
    Three(Dropped(2), Aired(3), Asking(4, T1));
    ThreeFound(Discarding(Handed(2, false, 1)), OnTheAir(Handed(3, false, 0)), OnTheAir(Handed(4, true, 0)), Dropped(2),
               Aired(3), Asking(4, T1), T1);
  }

  lemma SecondReport()
    ensures var tx := [Dropped(2), Aired(3), Asking(4, T1)];
            && WellFormed(tx) && Front(tx, 5) == 2 && ReportsWindow(Fifth().blocks, 4, 3)
            && AllSimple([Dropped(2), Aired(3)])
            && ApplyAck(tx, Fifth().blocks, Allow(3)).tx == [Dropped(2), Aired(3)]
            && ApplyAck(tx, Fifth().blocks, Allow(3)).failed.None?
  {
    hide Body, ApplyAck, WellFormed, T1;
    WellFormedThree(Dropped(2), Aired(3), Asking(4, T1));
    LastRetires(Dropped(2), Aired(3), Asking(4, T1));
  }

  lemma UnsentIsNotPassed(tx: seq<TxSdu>, nr: nat)
    requires tx != [] && !WasSent(tx[0])
    ensures PassedCount(tx, nr, 3) == 0
  {
    hide WasSent;
  }

  lemma ThirdRetires(a: TxSdu, b: TxSdu, c: TxSdu)
    requires a.ns == 2 && b.ns == 3 && c.ns == 4 && WasSent(c) && WellFormed([a, b, c])
    ensures ApplyBlock([a, b, c], Positive(4), Allow(3)) == Acked([a, b], [c], None)
  {
    hide WasSent, WellFormed;
    assert [a, b, c][1..] == [b, c] && [b, c][1..] == [c];
    assert Find([c], 4) == 0 && Find([b, c], 4) == 1 && Find([a, b, c], 4) == 2;
    assert RemoveAt([a, b, c], 2) == [a, b];
  }

  lemma LastRetires(a: TxSdu, b: TxSdu, c: TxSdu)
    requires a.ns == 2 && b.ns == 3 && c.ns == 4 && !WasSent(a) && WasSent(c) && WellFormed([a, b, c])
             && WellFormed([a, b])
    ensures var r := ApplyAck([a, b, c], Fifth().blocks, Allow(3)); r.tx == [a, b] && r.failed.None?
  {
    hide ApplyBlock, ApplyBlocks, PassedCount, WasSent, WellFormed, Find;
    var tx, blocks := [a, b, c], Fifth().blocks;
    UnsentIsNotPassed(tx, 4);
    assert tx[0..] == tx;
    ThirdRetires(a, b, c);
    OtherNumbersChangeNothing([a, b], Absent(5), Allow(3));
    OtherNumbersChangeNothing([a, b], Absent(6), Allow(3));
    ApplyThree(tx, blocks, Allow(3), [a, b], [a, b], [a, b]);
  }

  lemma LastTwo()
    ensures var seen := [Dropped(2), Aired(3)];
            && AllSimple(seen) && LooksLike(seen, seen, T1) && Selected(seen, Allow(3), false) == [0]
            && seen[0 := Offer(seen[0], true)] == [Handed(2, true, 1), Aired(3)]
  {
    hide Simple, Finds, T1, Selected;
    SimpleOnes(2);
    SimpleOnes(3);
    DiscardSeen(2, true, T1);
    FirstLook(3, T1);
    SelectsFirst([Dropped(2), Aired(3)]);
  }

  lemma TwoOut(link: Link)
    requires link.tx == [Handed(2, true, 1), Aired(3)] && link.limits == Allow(3) && link.receiverReady
             && link.reset.None?
    ensures LastTwoOut(link, 0) && WellFormed(link.tx) && Front(link.tx, 5) == 2
  {
    hide Body;
  }

  function OldReport(): Report {
    Report(0, [Positive(0), Positive(1), Positive(2)])
  }

  // TL-SDU 4 is retired, past the dropped 2, and 2 is offered again.
  lemma FrontAsksAgain() returns (s: System)
    ensures Reached(s) && OldReport() in s.reports && Sends(s, 3, [Handed(2, true, 1), Aired(3)], 5)
  {
    hide Reached, Sends, Aired, AllSimple, Handed, Dropped, Asking, Discarding, OnTheAir, LooksLike, Selected;
    s := SecondWindow();
    s := AllLookedAt(s);
    s := FifthHeard(s);
    LastTwo();
    s := TurnWithOne(s, 3, [Dropped(2), Aired(3)], 5, T1, [Dropped(2), Aired(3)], 0);
  }

  lemma AllLookedAt(s: System) returns (t: System)
    requires Reached(s)
             && Sends(s, 3, [Discarding(Handed(2, false, 1)), OnTheAir(Handed(3, false, 0)),
                             OnTheAir(Handed(4, true, 0))], 5)
    ensures Reached(t) && Sends(t, 3, [Dropped(2), Aired(3), Asking(4, T1)], 5) && t.reports == s.reports
  {
    hide Reached, Sends, AllSimple, Aired, Handed, Dropped, Asking, Discarding, OnTheAir, LooksLike, T1;
    SecondSeen();
    var seen := [Dropped(2), Aired(3), Asking(4, T1)];
    assert seen[2].ackRequested;
    t := QuietTurn(s, 3, [Discarding(Handed(2, false, 1)), OnTheAir(Handed(3, false, 0)), OnTheAir(Handed(4, true, 0))],
                   5, T1, true, seen);
  }

  lemma FifthHeard(s: System) returns (t: System)
    requires Reached(s) && Sends(s, 3, [Dropped(2), Aired(3), Asking(4, T1)], 5) && Fifth() in s.reports
    ensures Reached(t) && Sends(t, 3, [Dropped(2), Aired(3)], 5) && t.reports == s.reports
  {
    hide Reached, Sends, AllSimple, Aired, Dropped, Asking, ApplyAck, T1, Front, WellFormed, ReportsWindow;
    SecondReport();
    t := Hears(s, 3, [Dropped(2), Aired(3), Asking(4, T1)], 5, Fifth(), [Dropped(2), Aired(3)]);
  }

  /**
   One report away from silence, although every report including this one covers the whole
   window: this one, on TL-SDUs 0 to 2, is older than the sender's front.
   */
  lemma StaleReportStalls(now: TdmaTime) returns (s: System, report: Report)
    ensures Reached(s) && Window(s) == 3 && ReportsWindow(report.blocks, report.first, 3)
    ensures Enabled(s, DeliverReport(report, true, now)) && HasStalled(Step(s, DeliverReport(report, true, now)))
  {
    hide Reached, Stalls, Aired, AllSimple, Handed, LastTwoOut, WellFormed;
    s := FrontAsksAgain();
    report := OldReport();
    TwoOut(s.sender);
    StaleReportSilences(s.sender, 0, report.blocks, now);
    ThenStalls(s, report, now, s.sender.tx[1..]);
  }
}
