/**
 What became of every TL-SDU over a run with resets: whether it was handed up, is still queued, was
 completed as acknowledged or was given up, and which of those the peer never hands up.
 */
module Accounts {
  import opened Arithmetic
  import opened Fcs
  import opened AlPdu
  import opened Tdma
  import opened Sender
  import opened AdvancedLink
  import opened SendWindow
  import opened ReceiveWindow
  import opened Arq
  import opened ArqSteps
  import opened ArqTheorems
  import C = Conservation
  import Segmentation

  // The arrival numbers of TL-SDUs of one numbering.
  function Origins(tx: seq<TxSdu>, origin: seq<nat>): set<nat> {
    set i | 0 <= i < |tx| && tx[i].receipt < |origin| :: origin[tx[i].receipt]
  }

  function InQueue(s: System): set<nat> {
    Origins(s.sender.tx, s.own.origin)
  }

  // What this action completes as acknowledged.
  ghost function CompletedIn(s: System, a: Action): set<nat>
    requires Enabled(s, a)
  {
    match a
    case DeliverReport(report, ready, now) => Origins(HandleAck(s.sender, AlAck(ready, report.blocks), now).acked,
                                                      s.own.origin)
    case _ => {}
  }

  // What this action gives up as lost.
  ghost function LostIn(s: System, a: Action): set<nat>
    requires Enabled(s, a)
  {
    match a
    case Tick(now, routeLive) =>
      var r := Submit(s.sender, now, routeLive);
      if r.failed.Some? then Origins(LostToReset(r.link, r.failed.value), s.own.origin) else {}
    case DeliverReport(report, ready, now) =>
      var r := HandleAck(s.sender, AlAck(ready, report.blocks), now);
      if r.failed.Some? then Origins(LostToReset(r.link, r.failed.value), s.own.origin) else {}
    case _ => {}
  }

  // Everything acknowledged, and everything given up, in the first `n` actions of a run.
  ghost function Completed(states: seq<System>, actions: seq<Action>, n: nat): set<nat>
    requires IsRun(states, actions) && n < |states|
  {
    if n == 0 then {} else Completed(states, actions, n - 1) + CompletedIn(states[n - 1], actions[n - 1])
  }

  ghost function GivenUp(states: seq<System>, actions: seq<Action>, n: nat): set<nat>
    requires IsRun(states, actions) && n < |states|
  {
    if n == 0 then {} else GivenUp(states, actions, n - 1) + LostIn(states[n - 1], actions[n - 1])
  }

  // ----- Each TL-SDU is queued, acknowledged or given up, and only one of them

  ghost predicate Books(s: System, acked: set<nat>, lost: set<nat>) {
    && (forall a: nat | a < |s.arrivals| :: a in InQueue(s) || a in acked || a in lost)
    && (forall a <- InQueue(s) + acked + lost :: a < |s.arrivals|)
    && InQueue(s) !! acked && InQueue(s) !! lost && acked !! lost
  }

  // The queue `tx` of one numbering is shared out into `kept` and `gone`.
  lemma SharesOrigins(tx: seq<TxSdu>, kept: seq<TxSdu>, gone: seq<TxSdu>, origin: seq<nat>)
    requires C.Shares(tx, kept, gone) && Increasing(origin) && forall i | 0 <= i < |tx| :: tx[i].receipt < |origin|
    ensures Origins(tx, origin) == Origins(kept, origin) + Origins(gone, origin)
    ensures Origins(kept, origin) !! Origins(gone, origin)
    ensures forall i | 0 <= i < |kept| :: kept[i].receipt < |origin|
  {
    hide C.Ascending, SduOk, Queued;
    QueuedOrigins(tx, origin);
    QueuedOrigins(kept, origin);
    QueuedOrigins(gone, origin);
    forall i | 0 <= i < |kept|
      ensures kept[i].receipt < |origin|
    {
      IsQueued(kept, i);
      WhereQueued(tx, kept[i].receipt);
    }
  }

  lemma IsQueued(tx: seq<TxSdu>, i: nat)
    requires i < |tx|
    ensures Queued(tx, tx[i].receipt)
  {
  }

  lemma WhereQueued(tx: seq<TxSdu>, k: nat)
    requires Queued(tx, k)
    ensures exists i :: 0 <= i < |tx| && tx[i].receipt == k
  {
  }

  lemma QueuedOrigins(tx: seq<TxSdu>, origin: seq<nat>)
    requires Increasing(origin)
    ensures forall a: nat :: a in Origins(tx, origin) <==> exists k: nat ::
              k < |origin| && Queued(tx, k) && origin[k] == a
    ensures forall k: nat | k < |origin| :: origin[k] in Origins(tx, origin) <==> Queued(tx, k)
  {
    forall k: nat | k < |origin|
      ensures origin[k] in Origins(tx, origin) <==> Queued(tx, k)
    {
      if origin[k] in Origins(tx, origin) {
        var i :| 0 <= i < |tx| && tx[i].receipt < |origin| && origin[tx[i].receipt] == origin[k];
        assert tx[i].receipt == k;
      }
    }
    forall a: nat
      ensures a in Origins(tx, origin) <==> exists k: nat :: k < |origin| && Queued(tx, k) && origin[k] == a
    {
      if a in Origins(tx, origin) {
        var i :| 0 <= i < |tx| && tx[i].receipt < |origin| && origin[tx[i].receipt] == a;
        assert Queued(tx, tx[i].receipt);
      }
    }
  }

  lemma SameReceipts(a: seq<TxSdu>, b: seq<TxSdu>, origin: seq<nat>)
    requires |a| == |b| && forall i | 0 <= i < |a| :: a[i].receipt == b[i].receipt
    ensures Origins(a, origin) == Origins(b, origin)
  {
    assert forall i | 0 <= i < |a| :: a[i].receipt == b[i].receipt;
    forall x <- Origins(a, origin)
      ensures x in Origins(b, origin)
    {
      var i :| 0 <= i < |a| && a[i].receipt < |origin| && origin[a[i].receipt] == x;
      assert b[i].receipt == a[i].receipt;
    }
    forall x <- Origins(b, origin)
      ensures x in Origins(a, origin)
    {
      var i :| 0 <= i < |b| && b[i].receipt < |origin| && origin[b[i].receipt] == x;
      assert b[i].receipt == a[i].receipt;
    }
  }

  lemma RestartSplits(u: System, ns: nat)
    requires u.sender.reset.None? && C.Ascending(u.sender.tx) && AllOk(u.sender.tx) && Increasing(u.own.origin)
    requires forall i | 0 <= i < |u.sender.tx| :: u.sender.tx[i].receipt < |u.own.origin|
    ensures var t, gone := Restart(u, ns), Origins(LostToReset(u.sender, ns), u.own.origin);
            InQueue(u) == InQueue(t) + gone && InQueue(t) !! gone && t.arrivals == u.arrivals
  {
    var tx, failed := u.sender.tx, Find(u.sender.tx, ns);
    var kept := Retained(tx, 0, failed, 0);
    C.ResetShares(tx, 0, failed, 0);
    assert tx[0..] == tx;
    hide C.Shares, AllOk, C.Ascending, Retained, Abandoned, Find;
    SharesOrigins(tx, kept, Abandoned(tx, 0, failed), u.own.origin);
    RenumberedOrigins(u, kept, Restart(u, ns));
  }

  // Renumbering moves the arrival numbers along.
  lemma RenumberedOrigins(u: System, kept: seq<TxSdu>, t: System)
    requires forall i | 0 <= i < |kept| :: kept[i].receipt < |u.own.origin|
    requires t.sender.tx == Renumber(kept) && |t.own.origin| == |kept|
    requires forall i | 0 <= i < |kept| :: t.own.origin[i] == u.own.origin[kept[i].receipt]
    ensures InQueue(t) == Origins(kept, u.own.origin)
  {
    var after := t.sender.tx;
    assert forall i | 0 <= i < |kept| :: after[i].receipt == i;
    forall a <- Origins(kept, u.own.origin)
      ensures a in InQueue(t)
    {
      var i :| 0 <= i < |kept| && kept[i].receipt < |u.own.origin| && u.own.origin[kept[i].receipt] == a;
      assert after[i].receipt == i && t.own.origin[after[i].receipt] == a;
    }
    forall a <- InQueue(t)
      ensures a in Origins(kept, u.own.origin)
    {
      var i :| 0 <= i < |after| && after[i].receipt < |t.own.origin| && t.own.origin[after[i].receipt] == a;
      assert kept[i].receipt < |u.own.origin|;
    }
  }

  // Leaving the queue as acknowledged or given up keeps the books.
  lemma BooksMove(s: System, t: System, acked: set<nat>, lost: set<nat>, more: set<nat>, less: set<nat>)
    requires Books(s, acked, lost) && t.arrivals == s.arrivals
    requires InQueue(s) == InQueue(t) + more + less && InQueue(t) !! more && InQueue(t) !! less && more !! less
    ensures Books(t, acked + more, lost + less)
  {
    hide InQueue;
    var q, q' := InQueue(s), InQueue(t);
    assert more <= q && less <= q && q' <= q;
    forall a: nat | a < |t.arrivals|
      ensures a in q' || a in acked + more || a in lost + less
    {
      assert a in q || a in acked || a in lost;
    }
    forall a <- q' + (acked + more) + (lost + less)
      ensures a < |t.arrivals|
    {
      assert a in q + acked + lost;
    }
    assert q' !! acked + more && q' !! lost + less && acked + more !! lost + less;
  }

  // What the joint invariant says about the sender's queue.
  lemma QueueFacts(s: System)
    requires Inv(s)
    ensures C.Ascending(s.sender.tx) && AllOk(s.sender.tx) && WellFormed(s.sender.tx) && Increasing(s.own.origin)
    ensures |s.own.origin| == |s.own.accepted|
    ensures forall i | 0 <= i < |s.sender.tx| :: s.sender.tx[i].receipt < |s.own.origin|
  {
    hide PeerOk, AirOk, PhaseOk, SduOk, FirstGeneration, TraceOk, Before, GapsInWindow, OneRequest, PendingTouched;
    AllOkIsWellFormed(s.sender.tx);
  }

  // The state between a turn, or an acknowledgement, and the reset that may follow.
  ghost predicate MayRestart(u: System) {
    && u.sender.reset.None? && C.Ascending(u.sender.tx) && AllOk(u.sender.tx) && Increasing(u.own.origin)
    && forall i | 0 <= i < |u.sender.tx| :: u.sender.tx[i].receipt < |u.own.origin|
  }

  lemma RestartBooks(s: System, u: System, ns: nat, acked: set<nat>, lost: set<nat>, more: set<nat>)
    requires Books(s, acked, lost) && MayRestart(u) && u.arrivals == s.arrivals
    requires InQueue(s) == InQueue(u) + more && InQueue(u) !! more
    ensures Books(Restart(u, ns), acked + more, lost + Origins(LostToReset(u.sender, ns), u.own.origin))
  {
    RestartSplits(u, ns);
    hide Books, Restart, InQueue, Origins, LostToReset, MayRestart;
    BooksMove(s, Restart(u, ns), acked, lost, more, Origins(LostToReset(u.sender, ns), u.own.origin));
  }

  lemma TickBooks(s: System, now: TdmaTime, routeLive: bool, acked: set<nat>, lost: set<nat>)
    requires Inv(s) && Enabled(s, Tick(now, routeLive)) && Books(s, acked, lost)
    ensures var a := Tick(now, routeLive); Books(Step(s, a), acked, lost + LostIn(s, a))
  {
    hide Inv, Submit, Books, Restart, AllSegmentsExist, InQueue, Origins, MayRestart, LostToReset;
    var r := Submit(s.sender, now, routeLive);
    TickQueue(s, now, routeLive);
    assert acked + {} == acked && lost + {} == lost;
    var u := Offered(s, r);
    assert InQueue(s) == InQueue(u) + {} + {} && InQueue(s) == InQueue(u) + {};
    if r.failed.Some? {
      RestartBooks(s, u, r.failed.value, acked, lost, {});
    } else {
      BooksMove(s, u, acked, lost, {}, {});
    }
  }

  lemma TickQueue(s: System, now: TdmaTime, routeLive: bool)
    requires Inv(s) && CanTick(s, now, routeLive)
    ensures var u := Offered(s, Submit(s.sender, now, routeLive));
            MayRestart(u) && InQueue(u) == InQueue(s) && u.own == s.own && u.arrivals == s.arrivals
  {
    TickNeedsNoReset(s, now, routeLive);
    QueueFacts(s);
    SubmitKeepsReceipts(s.sender, now, routeLive);
    hide Inv, Submit, AllSegmentsExist, InQueue, C.Ascending, WellFormed, AllOk, Increasing;
    SameQueueOrigins(s, Offered(s, Submit(s.sender, now, routeLive)));
  }

  lemma SubmitKeepsReceipts(link: Link, now: TdmaTime, routeLive: bool)
    requires AllSegmentsExist(link.tx) && AllOk(link.tx) && C.Ascending(link.tx)
    ensures var r := Submit(link, now, routeLive).link;
            && r.reset == link.reset && AllOk(r.tx) && C.Ascending(r.tx)
            && |r.tx| == |link.tx| && forall i | 0 <= i < |link.tx| :: r.tx[i].receipt == link.tx[i].receipt
  {
    var picked := SubmitShape(link, now, routeLive);
    C.ObserveAllKeepsOk(link.tx, now, link.limits);
    var seen := ObserveAll(link.tx, now, link.limits).tx;
    hide Submit, ObserveAll, AllOk, AllSegmentsExist, InFlight, Selected, OfferAll;
    C.PickedAreIdle(seen, picked, link.limits);
    C.OfferAllKeepsOk(seen, picked);
  }

  lemma SameQueueOrigins(s: System, u: System)
    requires u.own == s.own && |u.sender.tx| == |s.sender.tx|
    requires forall i | 0 <= i < |s.sender.tx| :: u.sender.tx[i].receipt == s.sender.tx[i].receipt
    ensures InQueue(u) == InQueue(s)
  {
    SameReceipts(u.sender.tx, s.sender.tx, s.own.origin);
  }

  lemma ReportBooks(s: System, report: Report, ready: bool, now: TdmaTime, acked: set<nat>, lost: set<nat>)
    requires Inv(s) && Enabled(s, DeliverReport(report, ready, now)) && Books(s, acked, lost)
    ensures var a := DeliverReport(report, ready, now);
            Books(Step(s, a), acked + CompletedIn(s, a), lost + LostIn(s, a))
  {
    hide Inv, HandleAck, Books, Restart, InQueue, Origins, CanReport, WellFormed, MayRestart, LostToReset;
    var r := HandleAck(s.sender, AlAck(ready, report.blocks), now);
    var a := DeliverReport(report, ready, now);
    ReportQueue(s, report, ready, now);
    if r.failed.Some? {
      RestartBooks(s, Told(s, r), r.failed.value, acked, lost, CompletedIn(s, a));
    } else {
      assert lost + {} == lost && InQueue(s) == InQueue(Told(s, r)) + CompletedIn(s, a) + {};
      BooksMove(s, Told(s, r), acked, lost, CompletedIn(s, a), {});
    }
  }

  lemma ReportQueue(s: System, report: Report, ready: bool, now: TdmaTime)
    requires Inv(s) && Enabled(s, DeliverReport(report, ready, now))
    ensures var r := HandleAck(s.sender, AlAck(ready, report.blocks), now);
            var u, more := Told(s, r), Origins(r.acked, s.own.origin);
            && MayRestart(u) && InQueue(s) == InQueue(u) + more && InQueue(u) !! more && u.own == s.own
            && u.arrivals == s.arrivals
  {
    hide Inv, HandleAck, ApplyAck, Origins, CanReport, WellFormed, C.Shares, C.Ascending, AllOk, Increasing;
    NoResetNow(s, report);
    QueueFacts(s);
    C.AckShares(s.sender.tx, report.blocks, s.sender.limits);
    AckShape(s, report, ready, now);
    var r := HandleAck(s.sender, AlAck(ready, report.blocks), now);
    SharesOrigins(s.sender.tx, r.link.tx, r.acked, s.own.origin);
    SharesAscend(s.sender.tx, r.link.tx, r.acked);
  }

  lemma SharesAscend(tx: seq<TxSdu>, kept: seq<TxSdu>, gone: seq<TxSdu>)
    requires C.Shares(tx, kept, gone)
    ensures C.Ascending(kept)
  {
  }

  /** Every action keeps the books. */
  lemma StepBooks(s: System, a: Action, acked: set<nat>, lost: set<nat>)
    requires Inv(s) && Enabled(s, a) && Books(s, acked, lost)
    ensures Books(Step(s, a), acked + CompletedIn(s, a), lost + LostIn(s, a))
  {
    hide Inv, Books, AcceptStep, MacReportsStep, TickStep, DeliverReportStep, CanAir, CanArrive, CanReport, CanTick,
         Origins, InQueue, Submit, HandleAck, LostToReset, WellFormed;
    match a
    case Tick(now, routeLive) =>
      assert acked + {} == acked;
      TickBooks(s, now, routeLive, acked, lost);
    case DeliverReport(report, ready, now) => ReportBooks(s, report, ready, now, acked, lost);
    case Accept(sdu) =>
      assert acked + {} == acked && lost + {} == lost;
      AcceptBooks(s, sdu, acked, lost);
    case MacReports(i, aired) =>
      MacReportsQueue(s, i, aired);
      QuietBooks(s, Step(s, a), acked, lost);
    case MacAirs(m) => QuietBooks(s, Step(s, a), acked, lost);
    case DeliverData(m) => QuietBooks(s, Step(s, a), acked, lost);
    case ConfirmReset => QuietBooks(s, Step(s, a), acked, lost);
  }

  lemma QuietBooks(s: System, t: System, acked: set<nat>, lost: set<nat>)
    requires Books(s, acked, lost) && t.own == s.own && t.arrivals == s.arrivals
    requires |t.sender.tx| == |s.sender.tx| && forall i | 0 <= i < |s.sender.tx| ::
               t.sender.tx[i].receipt == s.sender.tx[i].receipt
    ensures Books(t, acked + {}, lost + {})
  {
    SameQueueOrigins(s, t);
    assert acked + {} == acked && lost + {} == lost;
    hide InQueue;
  }

  lemma MacReportsQueue(s: System, i: nat, aired: bool)
    requires i < |s.sender.tx|
    ensures var t := MacReportsStep(s, i, aired);
            && t.own == s.own && t.arrivals == s.arrivals && |t.sender.tx| == |s.sender.tx|
            && forall j | 0 <= j < |s.sender.tx| :: t.sender.tx[j].receipt == s.sender.tx[j].receipt
  {
  }

  lemma AcceptBooks(s: System, sdu: Bits, acked: set<nat>, lost: set<nat>)
    requires Inv(s) && Books(s, acked, lost)
    ensures Books(AcceptStep(s, sdu), acked, lost)
  {
    hide Inv, Books, Origins, Segmentation.Segments;
    QueueFacts(s);
    AcceptedOrigins(s, sdu, AcceptStep(s, sdu));
    OneMoreArrival(s, AcceptStep(s, sdu), acked, lost);
  }

  lemma OneMoreArrival(s: System, t: System, acked: set<nat>, lost: set<nat>)
    requires Books(s, acked, lost) && |t.arrivals| == |s.arrivals| + 1 && InQueue(t) == InQueue(s) + {|s.arrivals|}
    ensures Books(t, acked, lost)
  {
    hide InQueue;
    var q, n := InQueue(s), |s.arrivals|;
    assert forall a <- q + acked + lost :: a < n;
    assert n !in q && n !in acked && n !in lost;
  }

  lemma AcceptedOrigins(s: System, sdu: Bits, t: System)
    requires |s.own.origin| == |s.own.accepted| && t == AcceptStep(s, sdu)
    requires forall i | 0 <= i < |s.sender.tx| :: s.sender.tx[i].receipt < |s.own.origin|
    ensures InQueue(t) == InQueue(s) + {|s.arrivals|} && |t.arrivals| == |s.arrivals| + 1
  {
    hide Segmentation.Segments;
    var tx, after, n := s.sender.tx, t.sender.tx, |s.own.origin|;
    assert |after| == |tx| + 1 && after[|tx|].receipt == n && t.own.origin[n] == |s.arrivals|;
    assert forall i | 0 <= i < |tx| :: after[i] == tx[i] && t.own.origin[tx[i].receipt] == s.own.origin[tx[i].receipt];
    forall a <- InQueue(s)
      ensures a in InQueue(t)
    {
      var i :| 0 <= i < |tx| && tx[i].receipt < n && s.own.origin[tx[i].receipt] == a;
      assert after[i].receipt < |t.own.origin|;
    }
    forall a <- InQueue(t)
      ensures a in InQueue(s) + {|s.arrivals|}
    {
      var i :| 0 <= i < |after| && after[i].receipt < |t.own.origin| && t.own.origin[after[i].receipt] == a;
      if i < |tx| {
        assert tx[i].receipt < n;
      }
    }
  }

  lemma StartsBalanced(s: System)
    requires Initial(s)
    ensures Books(s, {}, {})
  {
  }

  /**
   Every account is kept. At any time of any run, however many resets it went through, each TL-SDU
   accepted so far is queued, or was completed as acknowledged, or was given up, and only one of these.
   */
  lemma {:induction false} RunBooks(states: seq<System>, actions: seq<Action>, n: nat)
    requires IsRun(states, actions) && n < |states|
    ensures Books(states[n], Completed(states, actions, n), GivenUp(states, actions, n))
  {
    hide Inv, Enabled, Step, Initial, Books, CompletedIn, LostIn;
    if n == 0 {
      StartsBalanced(states[0]);
    } else {
      RunBooks(states, actions, n - 1);
      RunKeeps(states, actions, n - 1);
      StepBooks(states[n - 1], actions[n - 1], Completed(states, actions, n - 1), GivenUp(states, actions, n - 1));
    }
  }

  // ----- What the peer hands up

  // Of the numbering the peer works in, exactly what lies below its base has been handed up.
  ghost predicate HandedUpBelow(s: System) {
    forall k: nat | k < |s.heard.origin| :: s.heard.origin[k] in s.trace <==> k < s.base
  }

  // What the joint invariant says about the peer's numbering.
  lemma PeerFacts(s: System)
    requires Inv(s)
    ensures Increasing(s.heard.origin) && s.base <= |s.heard.origin| && (s.sender.reset.None? ==> s.own == s.heard)
    ensures forall k: nat | s.base <= k < |s.heard.origin| :: s.heard.origin[k] !in s.trace
    ensures forall a <- s.trace :: a < |s.arrivals|
    ensures s.sender.reset.Some? ==> forall k: nat | k < |s.own.origin| ::
              s.own.origin[k] !in s.trace && Queued(s.sender.tx, k)
  {
    hide SenderOk, PeerOk, AirOk, UnairedOk, ReportsOk, HeldBy, FirstGeneration;
    if s.sender.reset.Some? {
      hide Resetting;
      forall k: nat | k < |s.own.origin|
        ensures s.own.origin[k] !in s.trace && Queued(s.sender.tx, k)
      {
        assert s.sender.tx[k].receipt == k;
      }
    }
  }

  lemma AcceptHandsUp(s: System, sdu: Bits)
    requires Inv(s) && HandedUpBelow(s)
    ensures HandedUpBelow(AcceptStep(s, sdu))
  {
    hide Inv, Segmentation.Segments, Enqueue;
    PeerFacts(s);
    HistoryIsOk(s);
    OriginsMatch(s);
    if s.sender.reset.None? {
      var grown := s.own.origin + [|s.arrivals|];
      assert AcceptStep(s, sdu).heard.origin == grown;
      assert forall k: nat | k < |grown| :: grown[k] == if k < |s.heard.origin|
             then s.heard.origin[k] else |s.arrivals|;
    }
  }

  lemma HistoryIsOk(s: System)
    requires Inv(s)
    ensures HistoryOk(s)
  {
    hide HistoryOk;
  }

  lemma DataHandsUp(s: System, m: OnAir)
    requires Inv(s) && CanArrive(s, m) && HandedUpBelow(s)
    ensures HandedUpBelow(DeliverDataStep(s, m))
    ensures s.trace <= DeliverDataStep(s, m).trace && DeliverDataStep(s, m).own == s.own
            && DeliverDataStep(s, m).heard == s.heard
    ensures DeliverDataStep(s, m).sender == s.sender && s.base <= DeliverDataStep(s, m).base
    ensures var t := DeliverDataStep(s, m);
            t.base <= |s.heard.origin| && t.trace == s.trace + s.heard.origin[s.base..t.base]
  {
    hide Inv, CanArrive, DeliverDataStep;
    PeerFacts(s);
    DataTakes(s, m);
    var t := DeliverDataStep(s, m);
    forall k: nat | k < |s.heard.origin|
      ensures s.heard.origin[k] in t.trace <==> k < t.base
    {
      InSlice(s.trace, s.heard.origin, s.base, t.base, k);
    }
  }

  lemma DataTakes(s: System, m: OnAir)
    requires Inv(s) && CanArrive(s, m)
    ensures var t := DeliverDataStep(s, m);
            && s.base <= t.base <= |s.heard.origin| && t.trace == s.trace + s.heard.origin[s.base..t.base]
            && t.own == s.own && t.heard == s.heard && t.sender == s.sender
  {
    hide PeerOk, AirOk, PhaseOk, HistoryOk, SenderOk, GenerationOk, Received, DeliverDataStep;
    PeerFacts(s);
    HistoryIsOk(s);
    OriginsMatch(s);
    HeardIsOk(s);
    var r := DeliverDataReceives(s, m);
  }

  lemma HeardIsOk(s: System)
    requires HistoryOk(s)
    ensures GenerationOk(s.heard, s.arrivals)
  {
    hide GenerationOk;
  }

  lemma InSlice(trace: seq<nat>, origin: seq<nat>, lo: nat, hi: nat, k: nat)
    requires lo <= hi <= |origin| && k < |origin| && Increasing(origin)
    ensures origin[k] in trace + origin[lo..hi] <==> origin[k] in trace || lo <= k < hi
  {
    if lo <= k < hi {
      assert origin[lo..hi][k - lo] == origin[k];
    }
    if origin[k] in origin[lo..hi] {
      var i :| 0 <= i < hi - lo && origin[lo..hi][i] == origin[k];
      assert origin[lo + i] == origin[k];
    }
  }

  // An action after which the peer's numbering and what it handed up are as before.
  ghost predicate PeerStays(s: System, t: System) {
    t.heard == s.heard && t.base == s.base && t.trace == s.trace
  }

  lemma OthersHandUpNothing(s: System, a: Action)
    requires Enabled(s, a) && !a.Accept? && !a.DeliverData? && !a.ConfirmReset?
    ensures PeerStays(s, Step(s, a)) && Step(s, a).arrivals == s.arrivals
  {
    hide Submit, HandleAck, BeginReset, CanTick, CanReport, CanAir, AllSegmentsExist, WellFormed, MacReport, EarlyPdus,
         LastPdus, Renumber, Receipts;
  }

  lemma StepHandsUp(s: System, a: Action)
    requires Inv(s) && Enabled(s, a) && HandedUpBelow(s)
    ensures HandedUpBelow(Step(s, a)) && s.trace <= Step(s, a).trace
  {
    hide Inv, HandedUpBelow, AcceptStep, DeliverDataStep, MacReportsStep, TickStep, DeliverReportStep, CanAir,
         CanArrive, CanReport, CanTick, WellFormed;
    match a
    case Accept(sdu) =>
      AcceptHandsUp(s, sdu);
      AcceptKeepsTrace(s, sdu);
    case DeliverData(m) => DataHandsUp(s, m);
    case ConfirmReset => ConfirmHandsUp(s);
    case _ =>
      OthersHandUpNothing(s, a);
      SamePeerHandsUp(s, Step(s, a));
  }

  lemma AcceptKeepsTrace(s: System, sdu: Bits)
    ensures AcceptStep(s, sdu).trace == s.trace
  {
    hide Segmentation.Segments;
  }

  lemma SamePeerHandsUp(s: System, t: System)
    requires HandedUpBelow(s) && PeerStays(s, t)
    ensures HandedUpBelow(t)
  {
  }

  lemma ConfirmHandsUp(s: System)
    requires Inv(s) && s.sender.reset.Some?
    ensures HandedUpBelow(ConfirmResetStep(s)) && ConfirmResetStep(s).trace == s.trace
  {
    PeerFacts(s);
    hide Inv;
  }

  lemma {:induction false} RunHandsUp(states: seq<System>, actions: seq<Action>, n: nat)
    requires IsRun(states, actions) && n < |states|
    ensures Inv(states[n]) && HandedUpBelow(states[n])
  {
    hide Inv, Enabled, Step;
    RunKeeps(states, actions, n);
    if n > 0 {
      hide Initial, HandedUpBelow;
      RunHandsUp(states, actions, n - 1);
      StepHandsUp(states[n - 1], actions[n - 1]);
    }
  }

  // ----- What is missing, and for good

  // The peer may still hand this arrival up: it lies at or above the base of the numbering in use,
  // or the sender has kept it across a reset that is not confirmed yet.
  ghost predicate StillComes(s: System, a: nat) {
    || (exists k: nat :: s.base <= k < |s.heard.origin| && s.heard.origin[k] == a)
    || (s.sender.reset.Some? && a in s.own.origin)
  }

  ghost predicate Missed(s: System, a: nat) {
    a < |s.arrivals| && a !in s.trace && !StillComes(s, a)
  }

  lemma AcceptMisses(s: System, sdu: Bits, a: nat)
    requires Inv(s) && Missed(s, a)
    ensures Missed(AcceptStep(s, sdu), a)
  {
    hide Inv, Segmentation.Segments, GenerationOk, TraceOk, Before;
    PeerFacts(s);
    HistoryIsOk(s);
    OriginsMatch(s);
    var t := AcceptStep(s, sdu);
    assert forall k: nat | k < |s.heard.origin| :: t.heard.origin[k] == s.heard.origin[k];
  }

  lemma DataMisses(s: System, m: OnAir, a: nat)
    requires Inv(s) && CanArrive(s, m) && HandedUpBelow(s) && Missed(s, a)
    ensures Missed(DeliverDataStep(s, m), a) && DeliverDataStep(s, m).arrivals == s.arrivals
  {
    hide Inv, CanArrive, DeliverDataStep, HandedUpBelow, StillComes;
    DataHandsUp(s, m);
    DataKeepsArrivals(s, m);
    StillComesLess(s, DeliverDataStep(s, m), a);
  }

  lemma StillComesLess(s: System, t: System, a: nat)
    requires !StillComes(s, a) && s.base <= t.base <= |s.heard.origin| && t.heard == s.heard && t.own == s.own
             && t.sender == s.sender
    ensures a !in s.heard.origin[s.base..t.base] && !StillComes(t, a)
  {
    var slice := s.heard.origin[s.base..t.base];
    forall i | 0 <= i < |slice|
      ensures slice[i] != a
    {
      assert slice[i] == s.heard.origin[s.base + i];
    }
  }

  lemma DataKeepsArrivals(s: System, m: OnAir)
    ensures DeliverDataStep(s, m).arrivals == s.arrivals
  {
    hide HandleData;
  }

  lemma RestartMisses(s: System, t: System, a: nat)
    requires Inv(s) && HandedUpBelow(s) && Missed(s, a) && s.sender.reset.None? && PeerStays(s, t)
             && t.arrivals == s.arrivals
    requires forall x <- t.own.origin :: x in s.own.origin
    ensures Missed(t, a)
  {
    PeerFacts(s);
    hide Inv;
    assert forall k | 0 <= k < |s.heard.origin| :: s.heard.origin[k] != a;
  }

  // Whatever a turn or an acknowledgement leads to, the sender keeps to arrivals it had.
  lemma SenderKeepsOwn(s: System, a: Action)
    requires Inv(s) && Enabled(s, a) && (a.Tick? || a.DeliverReport?)
    ensures s.sender.reset.None? && forall x <- Step(s, a).own.origin :: x in s.own.origin
  {
    hide Inv, Submit, HandleAck, CanReport, AllSegmentsExist, WellFormed, Restart;
    match a
    case Tick(now, routeLive) =>
      TickNeedsNoReset(s, now, routeLive);
      TickQueue(s, now, routeLive);
      var r := Submit(s.sender, now, routeLive);
      if r.failed.Some? {
        RestartKeepsOwn(Offered(s, r), r.failed.value);
      }
    case DeliverReport(report, ready, now) =>
      NoResetNow(s, report);
      ReportQueue(s, report, ready, now);
      var r := HandleAck(s.sender, AlAck(ready, report.blocks), now);
      if r.failed.Some? {
        RestartKeepsOwn(Told(s, r), r.failed.value);
      }
  }

  lemma RestartKeepsOwn(u: System, ns: nat)
    requires MayRestart(u)
    ensures forall x <- Restart(u, ns).own.origin :: x in u.own.origin
  {
    var tx, failed := u.sender.tx, Find(u.sender.tx, ns);
    C.ResetShares(tx, 0, failed, 0);
    assert tx[0..] == tx;
    hide AllOk, C.Ascending, Retained, Abandoned, Find, C.Shares;
    SharesOrigins(tx, Retained(tx, 0, failed, 0), Abandoned(tx, 0, failed), u.own.origin);
  }

  /** What is missed stays missed, whatever happens. */
  lemma StepMisses(s: System, a: Action, x: nat)
    requires Inv(s) && Enabled(s, a) && HandedUpBelow(s) && Missed(s, x)
    ensures Missed(Step(s, a), x)
  {
    hide Inv, HandedUpBelow, AcceptStep, DeliverDataStep, MacReportsStep, TickStep, DeliverReportStep, CanAir,
         CanArrive, CanReport, CanTick, WellFormed, Missed;
    match a
    case Accept(sdu) => AcceptMisses(s, sdu, x);
    case DeliverData(m) => DataMisses(s, m, x);
    case ConfirmReset => ConfirmMisses(s, x);
    case Tick(now, routeLive) =>
      OthersHandUpNothing(s, a);
      SenderKeepsOwn(s, a);
      RestartMisses(s, Step(s, a), x);
    case DeliverReport(report, ready, now) =>
      OthersHandUpNothing(s, a);
      SenderKeepsOwn(s, a);
      RestartMisses(s, Step(s, a), x);
    case _ =>
      OthersHandUpNothing(s, a);
      QuietMisses(s, a, x);
  }

  lemma QuietMisses(s: System, a: Action, x: nat)
    requires Enabled(s, a) && (a.MacReports? || a.MacAirs?) && Missed(s, x)
    ensures Missed(Step(s, a), x)
  {
  }

  lemma ConfirmMisses(s: System, x: nat)
    requires Inv(s) && s.sender.reset.Some? && Missed(s, x)
    ensures Missed(ConfirmResetStep(s), x)
  {
    hide Inv;
  }

  /** An arrival that was neither handed up nor is still to come is never handed up. */
  lemma {:induction false} MissedForGood(states: seq<System>, actions: seq<Action>, m: nat, n: nat, a: nat)
    requires IsRun(states, actions) && m <= n < |states| && Missed(states[m], a)
    ensures Missed(states[n], a) && a !in states[n].trace
    decreases n
  {
    hide Inv, Enabled, Step, HandedUpBelow, Missed, Initial;
    if m < n {
      MissedForGood(states, actions, m, n - 1, a);
      RunHandsUp(states, actions, n - 1);
      StepMisses(states[n - 1], actions[n - 1], a);
    }
    MissedIsNotHandedUp(states[n], a);
  }

  lemma MissedIsNotHandedUp(s: System, a: nat)
    requires Missed(s, a)
    ensures a !in s.trace
  {
  }

  /**
   Nothing is missed but what was given up or acknowledged. At any time of any run each arrival
   has been handed up, or may still be, or was given up, or was acknowledged.
   */
  lemma OnlyEndedAreMissed(states: seq<System>, actions: seq<Action>, n: nat, a: nat)
    requires IsRun(states, actions) && n < |states| && Missed(states[n], a)
    ensures a in Completed(states, actions, n) || a in GivenUp(states, actions, n)
  {
    hide Inv, IsRun, Completed, GivenUp;
    RunBooks(states, actions, n);
    RunHandsUp(states, actions, n);
    PeerFacts(states[n]);
    if a in InQueue(states[n]) {
      QueuedStillComes(states[n], a);
    }
  }

  /**
   Reliable delivery. At any time of any run, whatever the channel lost, repeated or reordered and
   however many resets there were: what the peer has handed up are accepted TL-SDUs, unaltered, in
   the order of arrival and without repetition; until the first reset they are a prefix; each arrival
   is queued, acknowledged or given up, and only one of these; and each arrival that was neither
   acknowledged nor given up has been handed up or may still be.
   */
  lemma ReliableDelivery(states: seq<System>, actions: seq<Action>, n: nat)
    requires IsRun(states, actions) && n < |states|
    ensures var s := states[n];
            && |s.trace| == |s.delivered| && Increasing(s.trace)
            && (forall i | 0 <= i < |s.trace| :: s.trace[i] < |s.arrivals| && s.delivered[i] == s.arrivals[s.trace[i]])
            && (s.resets == 0 ==> s.delivered <= s.arrivals)
    ensures Books(states[n], Completed(states, actions, n), GivenUp(states, actions, n))
    ensures forall a: nat | a < |states[n].arrivals| ::
              a in states[n].trace || StillComes(states[n], a) || a in Completed(states, actions, n)
                || a in GivenUp(states, actions, n)
  {
    hide IsRun, Completed, GivenUp, StillComes, Books;
    DeliversInOrder(states, actions, n);
    RunBooks(states, actions, n);
    forall a: nat | a < |states[n].arrivals| && Missed(states[n], a)
      ensures a in Completed(states, actions, n) || a in GivenUp(states, actions, n)
    {
      OnlyEndedAreMissed(states, actions, n, a);
    }
  }

  lemma QueuedStillComes(s: System, a: nat)
    requires Inv(s) && HandedUpBelow(s) && a in InQueue(s)
    ensures a in s.trace || StillComes(s, a)
  {
    hide Inv;
    PeerFacts(s);
    var i :| 0 <= i < |s.sender.tx| && s.sender.tx[i].receipt < |s.own.origin|
      && s.own.origin[s.sender.tx[i].receipt] == a;
    assert s.own.origin[s.sender.tx[i].receipt] in s.own.origin;
  }

  /**
   What a reset costs. When an in-place reset is confirmed, exactly those TL-SDUs of the old
   numbering are missing from what was handed up that lie at or above the peer's base. Each of
   them was kept, and is queued again, or was given up, or was acknowledged, and only one of
   these; those not kept are missed for good.
   */
  lemma MissingAfterReset(states: seq<System>, actions: seq<Action>, n: nat, k: nat)
    requires IsRun(states, actions) && n < |states| && states[n].sender.reset.Some? && k < |states[n].heard.origin|
    ensures var s, t, a := states[n], ConfirmResetStep(states[n]), states[n].heard.origin[k];
            var kept, acked, lost := a in InQueue(t), a in Completed(states, actions, n),
              a in GivenUp(states, actions, n);
            && (a !in t.trace <==> s.base <= k)
            && (kept || acked || lost) && !(kept && acked) && !(kept && lost) && !(acked && lost)
            && (s.base <= k ==> (Missed(t, a) <==> acked || lost))
  {
    hide Inv, IsRun, Completed, GivenUp;
    RunBooks(states, actions, n);
    RunHandsUp(states, actions, n);
    ConfirmedQueueStays(states[n]);
    HeardArrived(states[n], k);
    KeptIsQueued(states[n], states[n].heard.origin[k]);
  }

  lemma ConfirmedQueueStays(s: System)
    ensures InQueue(ConfirmResetStep(s)) == InQueue(s)
  {
  }

  lemma HeardArrived(s: System, k: nat)
    requires Inv(s) && k < |s.heard.origin|
    ensures s.heard.origin[k] < |s.arrivals|
  {
    HistoryIsOk(s);
    HeardIsOk(s);
  }

  lemma KeptIsQueued(s: System, a: nat)
    requires Inv(s) && s.sender.reset.Some?
    ensures a in s.own.origin <==> a in InQueue(s)
  {
    PeerFacts(s);
    QueueFacts(s);
    hide Inv;
    QueuedOrigins(s.sender.tx, s.own.origin);
    if a in s.own.origin {
      var k :| 0 <= k < |s.own.origin| && s.own.origin[k] == a;
    }
  }
}
