/** In-place AL-SETUP resets: what the sender keeps, and how both ends start again from 0. */
module ArqReset {
  import opened Arithmetic
  import opened Fcs
  import opened Segmentation
  import opened Reassembly
  import opened Sender
  import opened AdvancedLink
  import opened SendWindow
  import opened ReceiveWindow
  import opened Arq

  /** The positions a reset keeps, in ascending order. */
  function KeptPositions(tx: seq<TxSdu>, i: nat, failed: nat): (kept: seq<nat>)
    requires i <= |tx|
    ensures forall a | 0 <= a < |kept| :: i <= kept[a] < |tx| && Keeps(tx, kept[a], failed)
    ensures forall a, b | 0 <= a < b < |kept| :: kept[a] < kept[b]
    decreases |tx| - i
  {
    if i == |tx| then []
    else if Keeps(tx, i, failed) then [i] + KeptPositions(tx, i + 1, failed)
    else KeptPositions(tx, i + 1, failed)
  }

  function At(tx: seq<TxSdu>, positions: seq<nat>): seq<TxSdu>
    requires forall a | 0 <= a < |positions| :: positions[a] < |tx|
  {
    seq(|positions|, a requires 0 <= a < |positions| => tx[positions[a]])
  }

  // `retained` are the entries of `tx` at `positions`, with send sequence numbers from `from` on.
  predicate NumberedFrom(retained: seq<TxSdu>, tx: seq<TxSdu>, positions: seq<nat>, from: nat)
    requires forall a | 0 <= a < |positions| :: positions[a] < |tx|
  {
    |retained| == |positions| && forall a | 0 <= a < |retained| ::
        retained[a] == tx[positions[a]].(ns := (from + a) % 8)
  }

  lemma NumberedOneMore(retained: seq<TxSdu>, tx: seq<TxSdu>, positions: seq<nat>, from: nat, i: nat)
    requires i < |tx| && (forall a | 0 <= a < |positions| :: positions[a] < |tx|)
             && NumberedFrom(retained, tx, positions, from + 1)
    ensures NumberedFrom([tx[i].(ns := from % 8)] + retained, tx, [i] + positions, from)
  {
    var longer := [tx[i].(ns := from % 8)] + retained;
    forall a | 0 <= a < |longer|
      ensures longer[a] == tx[([i] + positions)[a]].(ns := (from + a) % 8)
    {
      if a > 0 {
        assert longer[a] == retained[a - 1] && from + 1 + (a - 1) == from + a;
      }
    }
  }

  /** A reset keeps the TL-SDUs that were never offered, in their old order, numbered from 0. */
  lemma {:induction false} RetainedShape(tx: seq<TxSdu>, i: nat, failed: nat, kept: nat)
    requires i <= |tx|
    ensures NumberedFrom(Retained(tx, i, failed, kept), tx, KeptPositions(tx, i, failed), kept)
    decreases |tx| - i
  {
    hide Keeps;
    if i < |tx| {
      if Keeps(tx, i, failed) {
        RetainedShape(tx, i + 1, failed, kept + 1);
        hide NumberedFrom;
        NumberedOneMore(Retained(tx, i + 1, failed, kept + 1), tx, KeptPositions(tx, i + 1, failed), kept, i);
      } else {
        RetainedShape(tx, i + 1, failed, kept);
      }
    }
  }

  // `gone` and `kept` together hold exactly the elements of `all`.
  ghost predicate Splits<T>(gone: seq<T>, kept: seq<T>, all: seq<T>) {
    multiset(gone) + multiset(kept) == multiset(all)
  }

  lemma SplitsOneMore<T>(x: T, gone: seq<T>, kept: seq<T>, all: seq<T>)
    requires Splits(gone, kept, all)
    ensures Splits(gone, [x] + kept, [x] + all) && Splits([x] + gone, kept, [x] + all)
  {
  }

  lemma NoneSplits<T>()
    ensures Splits<T>([], [], [])
  {
  }

  lemma KeptFirst(tx: seq<TxSdu>, i: nat, failed: nat)
    requires i < |tx|
    ensures var kept := At(tx, KeptPositions(tx, i + 1, failed));
            At(tx, KeptPositions(tx, i, failed)) == if Keeps(tx, i, failed) then [tx[i]] + kept else kept
  {
    hide Keeps;
  }

  lemma KeptNone(tx: seq<TxSdu>, failed: nat)
    ensures At(tx, KeptPositions(tx, |tx|, failed)) == []
  {
    assert KeptPositions(tx, |tx|, failed) == [];
  }

  /** What a reset keeps and what it gives up together are the whole queue. */
  lemma {:induction false} ResetConserves(tx: seq<TxSdu>, i: nat, failed: nat)
    requires i <= |tx|
    ensures Splits(Abandoned(tx, i, failed), At(tx, KeptPositions(tx, i, failed)), tx[i..])
    decreases |tx| - i
  {
    hide Keeps, At, KeptPositions, Splits;
    NoneSplits<TxSdu>();
    if i < |tx| {
      KeptFirst(tx, i, failed);
      ResetConserves(tx, i + 1, failed);
      SplitsOneMore(tx[i], Abandoned(tx, i + 1, failed), At(tx, KeptPositions(tx, i + 1, failed)), tx[i + 1..]);
      assert tx[i..] == [tx[i]] + tx[i + 1..];
    } else {
      KeptNone(tx, failed);
    }
  }

  // A queue of never-offered TL-SDUs numbered 0, 1, 2, ...
  lemma WaitingQueueOk(tx: seq<TxSdu>, window: nat)
    requires 1 <= window <= 3 && AllWaiting(tx, |tx|)
    requires forall i | 0 <= i < |tx| :: tx[i].ns == i % 8 && SduOk(tx[i])
    ensures WindowInv(tx, |tx|, window) && OneRequest(tx) && PendingTouched(tx) && Front(tx, |tx|) == 0
    ensures forall k: nat | k < |tx| :: Queued(tx, k)
  {
    hide SduOk, Touched;
    forall k: nat | k < |tx|
      ensures Queued(tx, k)
    {
      assert tx[k].receipt == k;
    }
  }

  lemma RenumberedOk(sdu: TxSdu, ns: nat, receipt: nat)
    requires SduOk(sdu) && NeverOffered(sdu)
    ensures var after := sdu.(ns := ns).(receipt := receipt);
            SduOk(after) && NeverOffered(after) && after.segments == sdu.segments
    ensures Unaired(sdu) && sdu.attempt.None?
  {
    var after := sdu.(ns := ns).(receipt := receipt);
    assert OfferedSegments(after) == OfferedSegments(sdu);
  }

  lemma RestartedQueue(s: System, failedNs: nat)
    requires SenderOk(s.sender, s.own) && s.sender.reset.None? && |s.own.accepted| == |s.own.origin|
    ensures var t := Restart(s, failedNs); var positions := KeptPositions(s.sender.tx, 0, Find(s.sender.tx, failedNs));
            && |t.sender.tx| == |t.own.accepted| == |t.own.origin| == |positions|
            && t.sender.nextTxNs == |positions| % 8
            && forall a | 0 <= a < |positions| ::
                 var was := s.sender.tx[positions[a]];
                 && t.sender.tx[a] == was.(ns := a % 8).(receipt := a)
                 && NeverOffered(was) && was.receipt < |s.own.accepted|
                 && t.own.accepted[a] == s.own.accepted[was.receipt] && t.own.origin[a] == s.own.origin[was.receipt]
  {
    hide SduOk, Segments, NeverOffered;
    RetainedShape(s.sender.tx, 0, Find(s.sender.tx, failedNs), 0);
  }

  lemma RestartedSender(s: System, failedNs: nat)
    requires 1 <= Window(s) <= 3 && SenderOk(s.sender, s.own) && s.sender.reset.None?
             && |s.own.accepted| == |s.own.origin|
    ensures var t := Restart(s, failedNs); SenderOk(t.sender, t.own) && AllWaiting(t.sender.tx, |t.own.accepted|)
  {
    var t := Restart(s, failedNs);
    RestartedQueue(s, failedNs);
    var positions := KeptPositions(s.sender.tx, 0, Find(s.sender.tx, failedNs));
    forall a | 0 <= a < |t.sender.tx|
      ensures SduOk(t.sender.tx[a]) && NeverOffered(t.sender.tx[a]) && t.sender.tx[a].ns == a % 8
              && t.sender.tx[a].receipt == a
      ensures t.sender.tx[a].segments == Segments(t.own.accepted[t.sender.tx[a].receipt])
    {
      RenumberedOk(s.sender.tx[positions[a]], a % 8, a);
    }
    hide SduOk, NeverOffered, Segments, WindowInv, Retained;
    WaitingQueueOk(t.sender.tx, Window(s));
  }

  lemma RestartedGeneration(s: System, failedNs: nat)
    requires SenderOk(s.sender, s.own) && s.sender.reset.None? && GenerationOk(s.own, s.arrivals)
    ensures GenerationOk(Restart(s, failedNs).own, s.arrivals)
  {
    hide Reassembly.Numbered, SenderOk, Segments, NeverOffered, Restart;
    RestartedQueue(s, failedNs);
    QueueIsOrdered(s.sender, s.own);
  }

  // The oldest TL-SDU kept, or a number nothing on the air can have.
  function Ceiling(s: System, failedNs: nat): nat {
    var positions := KeptPositions(s.sender.tx, 0, Find(s.sender.tx, failedNs));
    if positions == [] then |s.own.accepted| else s.sender.tx[positions[0]].receipt
  }

  // The last segment of the oldest TL-SDU kept has never been on the air.
  lemma CeilingNotAired(s: System, failedNs: nat)
    requires SenderOk(s.sender, s.own) && UnairedOk(s.sender.tx, s.data, s.mac)
             && AirOk(s.data + s.mac, s.own, s.horizon)
    ensures Ceiling(s, failedNs) !in LastAired(s.data) && Ceiling(s, failedNs) !in LastAired(s.mac)
  {
    var positions := KeptPositions(s.sender.tx, 0, Find(s.sender.tx, failedNs));
    if positions != [] {
      RenumberedOk(s.sender.tx[positions[0]], 0, 0);
    }
    hide SduOk, Segments, NeverOffered, Unaired, Carries, WindowInv, OneRequest, PendingTouched;
  }

  lemma BaseBelowCeiling(s: System, ceiling: nat)
    requires PeerOk(s) && ceiling !in LastAired(s.data)
    ensures s.base <= ceiling
  {
    hide LastAired, EntryOk, Absolute;
    assert forall k: nat | k < s.base :: k in LastAired(s.data);
  }

  lemma RestartedPhase(s: System, failedNs: nat)
    requires 1 <= Window(s) <= 3 && SenderOk(s.sender, s.own) && s.sender.reset.None? && GenerationOk(s.own, s.arrivals)
             && s.own == s.heard
    requires UnairedOk(s.sender.tx, s.data, s.mac) && AirOk(s.data + s.mac, s.heard, s.horizon) && PeerOk(s)
    requires Before(s.trace, s.own.origin, s.base)
    ensures PhaseOk(Restart(s, failedNs))
  {
    var t, ceiling := Restart(s, failedNs), Ceiling(s, failedNs);
    RestartedSender(s, failedNs);
    CeilingNotAired(s, failedNs);
    BaseBelowCeiling(s, ceiling);
    hide SenderOk, Ceiling, GenerationOk, UnairedOk, AirOk, PeerOk, Before, LastAired, AllWaiting, Restart;
    CeilingSeparates(s, failedNs);
    RestartIsReset(s, failedNs);
    assert Resetting(t, ceiling);
  }

  lemma RestartIsReset(s: System, failedNs: nat)
    requires s.sender.reset.None?
    ensures var t := Restart(s, failedNs);
            t.sender.reset.Some? && t.data == s.data && t.mac == s.mac && t.heard == s.heard && t.trace == s.trace
  {
    hide Retained, Find;
  }

  lemma CeilingSeparates(s: System, failedNs: nat)
    requires SenderOk(s.sender, s.own) && s.sender.reset.None? && GenerationOk(s.own, s.arrivals) && s.own == s.heard
    requires s.base <= Ceiling(s, failedNs) && Before(s.trace, s.own.origin, s.base)
    ensures var t := Restart(s, failedNs);
            && Before(s.trace, t.own.origin, 0)
            && forall k, j | 0 <= k < |s.own.origin| && k < Ceiling(s, failedNs) && 0 <= j < |t.own.origin| ::
                 s.own.origin[k] < t.own.origin[j]
  {
    hide SenderOk, Restart, Segments, NeverOffered, Before, Reassembly.Numbered, Ordered, Increasing, Find;
    var t := Restart(s, failedNs);
    RestartedQueue(s, failedNs);
    var positions := KeptPositions(s.sender.tx, 0, Find(s.sender.tx, failedNs));
    QueueIsOrdered(s.sender, s.own);
    CeilingBounds(s, t, positions, Ceiling(s, failedNs));
  }

  lemma QueueIsOrdered(link: Link, g: Generation)
    requires SenderOk(link, g)
    ensures Ordered(link.tx, |g.accepted|)
  {
  }

  lemma CeilingBounds(s: System, t: System, positions: seq<nat>, ceiling: nat)
    requires Ordered(s.sender.tx, |s.own.accepted|) && Increasing(s.own.origin) && |s.own.origin| == |s.own.accepted|
    requires forall a | 0 <= a < |positions| :: positions[a] < |s.sender.tx|
    requires forall a, b | 0 <= a < b < |positions| :: positions[a] < positions[b]
    requires |t.own.origin| == |positions|
    requires forall a | 0 <= a < |positions| ::
               s.sender.tx[positions[a]].receipt < |s.own.origin|
               && t.own.origin[a] == s.own.origin[s.sender.tx[positions[a]].receipt]
    requires positions != [] ==> ceiling == s.sender.tx[positions[0]].receipt
    requires s.base <= ceiling && Before(s.trace, s.own.origin, s.base)
    ensures forall k, j | 0 <= k < |s.own.origin| && k < ceiling && 0 <= j < |t.own.origin| ::
              s.own.origin[k] < t.own.origin[j]
    ensures Before(s.trace, t.own.origin, 0)
  {
  }

  lemma RestartKeeps(s: System, failedNs: nat)
    requires Inv(s) && s.sender.reset.None?
    ensures Inv(Restart(s, failedNs))
  {
    var t := Restart(s, failedNs);
    RestartedSender(s, failedNs);
    RestartedGeneration(s, failedNs);
    RestartedPhase(s, failedNs);
    hide SenderOk, InStep, AirOk, PeerOk, GenerationOk, TraceOk, Before, PhaseOk;
    assert t.peer == s.peer && t.heard == s.heard && t.base == s.base && t.delivered == s.delivered;
    RestartKeepsRest(s, t);
  }

  lemma RestartKeepsRest(s: System, t: System)
    requires t == s.(sender := t.sender, own := t.own, resets := t.resets) && t.sender.limits == s.sender.limits
    requires HistoryOk(s) && GenerationOk(t.own, t.arrivals) && PeerOk(s) && AirOk(s.data + s.mac, s.heard, s.horizon)
    ensures HistoryOk(t) && PeerOk(t) && AirOk(t.data + t.mac, t.heard, t.horizon)
  {
    hide GenerationOk, WindowOk, AirOk, Before;
  }

  // ----- The reset completes

  lemma FreshWindow(window: nat, accepted: seq<Bits>)
    requires 1 <= window <= 3
    ensures WindowOk(window, 0, map[], 0, accepted, window, LastAired({})) && Resting(0, map[])
  {
  }

  lemma ConfirmKeeps(s: System)
    requires Inv(s) && s.sender.reset.Some?
    ensures Inv(ConfirmResetStep(s))
  {
    hide SenderOk, GenerationOk, WindowOk, AllWaiting, HeldBy, Queued, Unaired, Held, ClaimsHeld, Carries, LastAired;
    var t := ConfirmResetStep(s);
    FreshWindow(Window(s), s.own.accepted);
    ConfirmedQueue(s.sender.tx, |s.own.accepted|);
    assert t.delivered[|t.delivered|..] == t.own.accepted[..0];
    assert HistoryOk(t);
    assert UnairedOk(t.sender.tx, {}, {}) by {
      NothingAired(t.sender.tx);
    }
    assert SenderOk(t.sender, t.own) by {
      SenderOkIgnoresFlags(s.sender, t.sender, s.own);
    }
  }

  lemma NothingAired(tx: seq<TxSdu>)
    ensures UnairedOk(tx, {}, {})
  {
  }

  lemma SenderOkIgnoresFlags(a: Link, b: Link, g: Generation)
    requires SenderOk(a, g) && a.tx == b.tx && a.limits == b.limits && a.nextTxNs == b.nextTxNs
    ensures SenderOk(b, g)
  {
    hide WindowInv, OneRequest, PendingTouched, Segments;
  }

  lemma ConfirmedQueue(tx: seq<TxSdu>, count: nat)
    requires AllWaiting(tx, count)
    ensures Front(tx, count) == 0
    ensures forall k: nat | k < count :: Queued(tx, k)
  {
    hide NeverOffered;
    forall k: nat | k < count
      ensures Queued(tx, k)
    {
      assert tx[k].receipt == k;
    }
  }
}
