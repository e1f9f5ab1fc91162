/** No TL-SDU handed to the LLC is lost track of, repeated or overtaken within its queue. */
module Conservation {
  import opened Arithmetic
  import opened Wrappers
  import opened Fcs
  import opened AlPdu
  import opened Tdma
  import opened TxReceipt
  import opened Segmentation
  import opened Sender
  import opened AdvancedLink
  import opened SendWindow
  import opened ArqSteps
  import opened Terminals

  ghost predicate LinkOk(link: Link) {
    && 1 <= link.limits.window <= 3 && |link.tx| <= MAX_QUEUED && AllOk(link.tx)
    && (link.reset.Some? ==> !link.ready)
  }

  function LinkedSdus(x: Terminal): seq<TxSdu> {
    if x.link.Some? then x.link.value.tx else []
  }

  function Receipts(x: Terminal): seq<nat> {
    seq(|LinkedSdus(x)|, i requires 0 <= i < |LinkedSdus(x)| => LinkedSdus(x)[i].receipt)
    + seq(|x.waiting|, i requires 0 <= i < |x.waiting| => x.waiting[i].receipt)
  }

  /**
   What holds of every terminal: TL-SDUs wait only while there is no link, at most 64 are
   queued, and they are queued in the order in which they arrived.
   */
  ghost predicate TerminalOk(x: Terminal) {
    && (x.link.Some? ==> LinkOk(x.link.value))
    && (x.waiting != [] ==> x.link.None?)
    && |Receipts(x)| <= MAX_QUEUED
    && Increasing(Receipts(x))
  }

  predicate Final(state: TxState) {
    state.Acknowledged? || state.Lost?
  }

  /** Each TL-SDU queued before a step is queued after it, or has ended, and not both. */
  ghost predicate Conserves(x: Terminal, s: Stepped) {
    && (forall r: nat :: r in Receipts(x) <==> r in Receipts(s.terminal) || r in s.ended)
    && (forall r <- s.ended :: r !in Receipts(s.terminal) && Final(s.ended[r]))
  }

  // ----- Lists of TL-SDUs

  ghost predicate Ascending(tx: seq<TxSdu>) {
    forall i, j | 0 <= i < j < |tx| :: tx[i].receipt < tx[j].receipt
  }

  // `kept` and `gone` share out the TL-SDUs of `tx`, each in its old order.
  ghost predicate Shares(tx: seq<TxSdu>, kept: seq<TxSdu>, gone: seq<TxSdu>) {
    && Ascending(kept)
    && (forall k :: Queued(tx, k) <==> Queued(kept, k) || Queued(gone, k))
    && (forall k :: Queued(kept, k) ==> !Queued(gone, k))
    && (forall sdu <- gone :: SduOk(sdu))
  }

  lemma {:induction false} EndLostShape(tx: seq<TxSdu>)
    requires AllOk(tx)
    ensures forall k :: k in EndLost(tx) <==> Queued(tx, k)
    ensures forall k <- EndLost(tx) :: EndLost(tx)[k] == Lost
  {
    if tx != [] {
      var last := |tx| - 1;
      EndLostShape(tx[..last]);
      assert SduOk(tx[last]);
      hide SduOk;
      forall k
        ensures Queued(tx, k) <==> Queued(tx[..last], k) || k == tx[last].receipt
      {
        QueuedSplit(tx, last, k);
        assert tx[last..] == [tx[last]];
      }
    }
  }

  lemma {:induction false} EndAckedShape(tx: seq<TxSdu>)
    requires AllOk(tx)
    ensures forall k :: k in EndAcked(tx) <==> Queued(tx, k)
    ensures forall k <- EndAcked(tx) :: EndAcked(tx)[k] == Acknowledged
  {
    if tx != [] {
      var last := |tx| - 1;
      EndAckedShape(tx[..last]);
      assert SduOk(tx[last]);
      hide SduOk;
      forall k
        ensures Queued(tx, k) <==> Queued(tx[..last], k) || k == tx[last].receipt
      {
        QueuedSplit(tx, last, k);
        assert tx[last..] == [tx[last]];
      }
    }
  }

  lemma {:induction false} EndWaitingShape(queue: seq<Waiting>)
    ensures forall k :: k in EndWaiting(queue) <==> exists i :: 0 <= i < |queue| && queue[i].receipt == k
    ensures forall k <- EndWaiting(queue) :: EndWaiting(queue)[k] == Lost
  {
    if queue != [] {
      var last := |queue| - 1;
      EndWaitingShape(queue[..last]);
      assert forall i | 0 <= i < last :: queue[..last][i] == queue[i];
    }
  }

  lemma ReceiptsOf(x: Terminal, k: nat)
    ensures k in Receipts(x) <==> Queued(LinkedSdus(x), k) || exists i ::
              0 <= i < |x.waiting| && x.waiting[i].receipt == k
  {
    var tx := LinkedSdus(x);
    if Queued(tx, k) {
      var i :| 0 <= i < |tx| && tx[i].receipt == k;
      assert Receipts(x)[i] == k;
    }
    if i :| 0 <= i < |x.waiting| && x.waiting[i].receipt == k {
      assert Receipts(x)[|tx| + i] == k;
    }
    if k in Receipts(x) {
      var j :| 0 <= j < |Receipts(x)| && Receipts(x)[j] == k;
      if j < |tx| {
        assert tx[j].receipt == k;
      } else {
        assert x.waiting[j - |tx|].receipt == k;
      }
    }
  }

  // ----- Removal, acknowledgement and reset share out a queue

  lemma SharesNothing(tx: seq<TxSdu>)
    requires Ascending(tx)
    ensures Shares(tx, tx, [])
  {
  }

  lemma SharesOne(tx: seq<TxSdu>, p: nat)
    requires Ascending(tx) && AllOk(tx) && p < |tx|
    ensures Shares(tx, RemoveAt(tx, p), [tx[p]])
  {
    hide SduOk;
    var rest := RemoveAt(tx, p);
    assert forall i | 0 <= i < |rest| :: rest[i] == tx[if i < p then i else i + 1];
    forall k
      ensures Queued(rest, k) <==> Queued(tx, k) && k != tx[p].receipt
    {
      if Queued(tx, k) && k != tx[p].receipt {
        var i :| 0 <= i < |tx| && tx[i].receipt == k;
        assert rest[if i < p then i else i - 1] == tx[i];
      }
    }
    assert [tx[p]][0].receipt == tx[p].receipt;
  }

  lemma SharesTrans(tx: seq<TxSdu>, mid: seq<TxSdu>, kept: seq<TxSdu>, gone: seq<TxSdu>, more: seq<TxSdu>)
    requires Shares(tx, mid, gone) && Shares(mid, kept, more)
    ensures Shares(tx, kept, gone + more)
  {
    hide SduOk, Ascending;
    forall k
      ensures Queued(gone + more, k) <==> Queued(gone, k) || Queued(more, k)
    {
      QueuedSplit(gone + more, |gone|, k);
      assert (gone + more)[..|gone|] == gone && (gone + more)[|gone|..] == more;
    }
  }

  lemma {:induction false} SharesFront(tx: seq<TxSdu>, n: nat)
    requires Ascending(tx) && AllOk(tx) && n <= |tx|
    ensures Shares(tx, tx[n..], tx[..n])
    decreases n
  {
    hide SduOk;
    if n == 0 {
      SharesNothing(tx);
      assert tx[0..] == tx && tx[..0] == [];
    } else {
      SharesFront(tx, n - 1);
      SharesOne(tx[n - 1..], 0);
      assert RemoveAt(tx[n - 1..], 0) == tx[n..];
      assert tx[..n - 1] + [tx[n - 1]] == tx[..n];
      SharesTrans(tx, tx[n - 1..], tx[n..], tx[..n - 1], [tx[n - 1]]);
    }
  }

  lemma SharesChange(tx: seq<TxSdu>, p: nat, sdu: TxSdu)
    requires Ascending(tx) && p < |tx| && sdu.receipt == tx[p].receipt
    ensures Shares(tx, tx[p := sdu], [])
  {
    var after := tx[p := sdu];
    forall k
      ensures Queued(after, k) <==> Queued(tx, k)
    {
      if Queued(tx, k) {
        var i :| 0 <= i < |tx| && tx[i].receipt == k;
        assert after[i].receipt == k;
      }
    }
  }

  lemma BlockShares(tx: seq<TxSdu>, block: AlAckBlock, limits: Limits)
    requires Ascending(tx) && AllOk(tx)
    ensures WellFormed(tx)
    ensures var r := ApplyBlock(tx, block, limits);
            Shares(tx, r.tx, r.acked) && AllOk(r.tx) && |r.tx| <= |tx|
  {
    assert forall i | 0 <= i < |tx| :: SduOk(tx[i]);
    var p := Find(tx, block.nr);
    if p < |tx| && WasSent(tx[p]) {
      ReportKeepsSdu(tx[p], block, limits);
      hide SduOk, WasSent, ApplyReport;
      SharesOne(tx, p);
      SharesChange(tx, p, ApplyReport(tx[p], block, limits));
    } else {
      SharesNothing(tx);
    }
  }

  lemma {:induction false} BlocksShare(tx: seq<TxSdu>, blocks: seq<AlAckBlock>, limits: Limits)
    requires Ascending(tx) && AllOk(tx)
    ensures WellFormed(tx)
    ensures var r := ApplyBlocks(tx, blocks, limits);
            Shares(tx, r.tx, r.acked) && AllOk(r.tx) && |r.tx| <= |tx|
    decreases |blocks|
  {
    if blocks == [] {
      SharesNothing(tx);
      assert forall i | 0 <= i < |tx| :: SduOk(tx[i]);
    } else {
      BlockShares(tx, blocks[0], limits);
      var head := ApplyBlock(tx, blocks[0], limits);
      hide ApplyBlock, Queued, AllOk;
      if head.failed.None? {
        assert Ascending(head.tx);
        BlocksShare(head.tx, blocks[1..], limits);
        var rest := ApplyBlocks(head.tx, blocks[1..], limits);
        hide Shares;
        SharesTrans(tx, head.tx, rest.tx, head.acked, rest.acked);
      }
    }
  }

  /** An acknowledgement shares the queue out into what stays and what is acknowledged. */
  lemma AckShares(tx: seq<TxSdu>, blocks: seq<AlAckBlock>, limits: Limits)
    requires Ascending(tx) && AllOk(tx) && blocks != []
    ensures WellFormed(tx)
    ensures var r := ApplyAck(tx, blocks, limits);
            Shares(tx, r.tx, r.acked) && AllOk(r.tx) && |r.tx| <= |tx|
  {
    assert forall i | 0 <= i < |tx| :: SduOk(tx[i]);
    var n := Passed(tx, blocks, limits);
    SharesFront(tx, n);
    BlocksShare(tx[n..], blocks, limits);
    var rest := ApplyBlocks(tx[n..], blocks, limits);
    hide Shares, AllOk, ApplyBlocks;
    SharesTrans(tx, tx[n..], rest.tx, tx[..n], rest.acked);
  }

  lemma {:induction false} ResetShares(tx: seq<TxSdu>, i: nat, failed: nat, kept: nat)
    requires Ascending(tx) && AllOk(tx) && i <= |tx|
    ensures Shares(tx[i..], Retained(tx, i, failed, kept), Abandoned(tx, i, failed))
    ensures AllOk(Retained(tx, i, failed, kept)) && |Retained(tx, i, failed, kept)| <= |tx| - i
    decreases |tx| - i
  {
    hide Keeps, SduOk;
    if i == |tx| {
      assert tx[i..] == [];
    } else {
      var more := if Keeps(tx, i, failed) then kept + 1 else kept;
      ResetShares(tx, i + 1, failed, more);
      var rest, gone := Retained(tx, i + 1, failed, more), Abandoned(tx, i + 1, failed);
      RenumberKeepsSdu(tx[i], kept % 8);
      assert tx[i..] == [tx[i]] + tx[i + 1..];
      assert Ascending([tx[i]] + tx[i + 1..]);
      hide Ascending, Shares;
      SharesHead(tx[i], tx[i].(ns := kept % 8), tx[i + 1..], rest, gone);
      assert Retained(tx, i, failed, kept) == if Keeps(tx, i, failed) then [tx[i].(ns := kept % 8)] + rest else rest;
      assert Abandoned(tx, i, failed) == if Keeps(tx, i, failed) then gone else [tx[i]] + gone;
    }
  }

  lemma RenumberKeepsSdu(sdu: TxSdu, ns: nat)
    requires SduOk(sdu)
    ensures SduOk(sdu.(ns := ns))
  {
    assert OfferedSegments(sdu.(ns := ns)) == OfferedSegments(sdu);
  }

  lemma QueuedCons(x: TxSdu, rest: seq<TxSdu>, k: nat)
    ensures Queued([x] + rest, k) <==> k == x.receipt || Queued(rest, k)
  {
    QueuedSplit([x] + rest, 1, k);
    assert ([x] + rest)[..1] == [x] && ([x] + rest)[1..] == rest && [x][0].receipt == x.receipt;
  }

  lemma SharesHead(x: TxSdu, x': TxSdu, rest: seq<TxSdu>, kept: seq<TxSdu>, gone: seq<TxSdu>)
    requires Ascending([x] + rest) && x'.receipt == x.receipt && SduOk(x)
    requires Shares(rest, kept, gone)
    ensures Shares([x] + rest, [x'] + kept, gone)
    ensures Shares([x] + rest, kept, [x] + gone)
  {
    forall i | 0 <= i < |rest|
      ensures x.receipt < rest[i].receipt
    {
      assert ([x] + rest)[0] == x && ([x] + rest)[i + 1] == rest[i];
    }
    assert !Queued(rest, x.receipt);
    assert forall i | 0 <= i < |kept| :: Queued(kept, kept[i].receipt);
    assert forall i | 0 <= i < |kept| :: Queued(rest, kept[i].receipt);
    forall i | 0 <= i < |kept|
      ensures x.receipt < kept[i].receipt
    {
      var j :| 0 <= j < |rest| && rest[j].receipt == kept[i].receipt;
    }
    hide SduOk;
    forall k
      ensures Queued([x] + rest, k) <==> k == x.receipt || Queued(rest, k)
      ensures Queued([x'] + kept, k) <==> k == x.receipt || Queued(kept, k)
      ensures Queued([x] + gone, k) <==> k == x.receipt || Queued(gone, k)
    {
      QueuedCons(x, rest, k);
      QueuedCons(x', kept, k);
      QueuedCons(x, gone, k);
    }
    hide Queued;
    assert Ascending([x'] + kept);
  }

  // ----- Every step conserves

  // `ended` are exactly the TL-SDUs of `gone`, each in a final state.
  ghost predicate Ends(ended: map<nat, TxState>, gone: seq<TxSdu>) {
    && (forall k :: k in ended <==> Queued(gone, k))
    && (forall k <- ended :: Final(ended[k]))
  }

  lemma LostEnds(gone: seq<TxSdu>)
    requires forall sdu <- gone :: SduOk(sdu)
    ensures Ends(EndLost(gone), gone)
  {
    assert AllOk(gone) by { hide SduOk; assert forall i | 0 <= i < |gone| :: gone[i] in gone; }
    EndLostShape(gone);
  }

  lemma AckedEnds(gone: seq<TxSdu>)
    requires forall sdu <- gone :: SduOk(sdu)
    ensures Ends(EndAcked(gone), gone)
  {
    assert AllOk(gone) by { hide SduOk; assert forall i | 0 <= i < |gone| :: gone[i] in gone; }
    EndAckedShape(gone);
  }

  lemma TerminalAscends(x: Terminal)
    requires TerminalOk(x) && x.link.Some?
    ensures Ascending(x.link.value.tx) && AllOk(x.link.value.tx) && x.waiting == []
  {
    var tx := x.link.value.tx;
    hide AllOk;
    forall i, j | 0 <= i < j < |tx|
      ensures tx[i].receipt < tx[j].receipt
    {
      assert Receipts(x)[i] < Receipts(x)[j];
    }
  }

  lemma LinkReceipts(link: Link, k: nat)
    ensures k in Receipts(Terminal(Some(link), [])) <==> Queued(link.tx, k)
  {
    ReceiptsOf(Terminal(Some(link), []), k);
  }

  lemma LinkTerminalOk(link: Link)
    requires LinkOk(link) && Ascending(link.tx)
    ensures TerminalOk(Terminal(Some(link), []))
  {
    hide AllOk;
  }

  /** A step that shares the queue of a link out conserves. */
  lemma SharedConserves(x: Terminal, after: Link, gone: seq<TxSdu>, ended: map<nat, TxState>)
    requires TerminalOk(x) && x.link.Some? && LinkOk(after)
    requires Shares(x.link.value.tx, after.tx, gone) && Ends(ended, gone)
    ensures var s := Stepped(x.(link := Some(after)), ended);
            TerminalOk(s.terminal) && Conserves(x, s)
  {
    TerminalAscends(x);
    assert x == Terminal(x.link, []) && x.(link := Some(after)) == Terminal(Some(after), []);
    LinkTerminalOk(after);
    hide TerminalOk, Receipts, Queued, SduOk, Ascending, LinkOk;
    forall k: nat
      ensures k in Receipts(x) <==> Queued(x.link.value.tx, k)
      ensures k in Receipts(x.(link := Some(after))) <==> Queued(after.tx, k)
    {
      LinkReceipts(x.link.value, k);
      LinkReceipts(after, k);
    }
  }

  lemma ConservesTrans(x: Terminal, a: Stepped, b: Stepped)
    requires Conserves(x, a) && Conserves(a.terminal, b)
    ensures Conserves(x, Then(a, b))
  {
    hide Receipts;
  }

  lemma ConservesNothing(x: Terminal)
    ensures Conserves(x, Stepped(x, map[]))
  {
    hide Receipts;
  }

  /** An in-place reset keeps what was never offered and ends everything else as lost. */
  lemma ResetConserves(x: Terminal, failedNs: nat)
    requires TerminalOk(x)
    ensures TerminalOk(ResetAt(x, failedNs).terminal) && Conserves(x, ResetAt(x, failedNs))
  {
    if x.link.None? {
      ConservesNothing(x);
    } else if x.link.value.reset.Some? {
      assert x.(link := Some(x.link.value)) == x;
      ConservesNothing(x);
    } else {
      TerminalAscends(x);
      var link := x.link.value;
      var failed := Find(link.tx, failedNs);
      ResetShares(link.tx, 0, failed, 0);
      assert link.tx[0..] == link.tx;
      LostEnds(Abandoned(link.tx, 0, failed));
      hide Shares, AllOk, Ends, Retained, Abandoned, Find;
      SharedConserves(x, BeginReset(link, failedNs), Abandoned(link.tx, 0, failed),
                      EndLost(Abandoned(link.tx, 0, failed)));
    }
  }

  /** Acknowledged TL-SDUs end as acknowledged; those a failed link gives up end as lost. */
  lemma HearAckConserves(x: Terminal, ack: AlAck, now: TdmaTime)
    requires TerminalOk(x) && ack.blocks != []
    ensures x.link.Some? ==> WellFormed(x.link.value.tx)
    ensures TerminalOk(HearAck(x, ack, now).terminal) && Conserves(x, HearAck(x, ack, now))
  {
    if x.link.None? {
      ConservesNothing(x);
    } else {
      TerminalAscends(x);
      var link := x.link.value;
      AckShares(link.tx, ack.blocks, link.limits);
      if link.reset.Some? {
        assert x.(link := Some(link)) == x;
        ConservesNothing(x);
      } else {
        var r := HandleAck(link, ack, now);
        AckedEnds(r.acked);
        hide Shares, AllOk, Ends, ApplyAck, Conserves;
        SharedConserves(x, r.link, r.acked, EndAcked(r.acked));
        var heard := Stepped(x.(link := Some(r.link)), EndAcked(r.acked));
        hide TerminalOk, HandleAck, EndAcked;
        if r.failed.Some? {
          ResetConserves(heard.terminal, r.failed.value);
          ConservesTrans(x, heard, ResetAt(heard.terminal, r.failed.value));
        }
      }
    }
  }

  lemma SharesSame(tx: seq<TxSdu>, after: seq<TxSdu>)
    requires Ascending(tx) && |after| == |tx| && forall i | 0 <= i < |tx| :: after[i].receipt == tx[i].receipt
    ensures Shares(tx, after, [])
  {
    forall k
      ensures Queued(after, k) <==> Queued(tx, k)
    {
      if Queued(tx, k) {
        var i :| 0 <= i < |tx| && tx[i].receipt == k;
        assert after[i].receipt == k;
      }
    }
  }

  lemma NothingEnds()
    ensures Ends(map[], [])
  {
  }

  lemma ObserveAllKeepsOk(tx: seq<TxSdu>, now: TdmaTime, limits: Limits)
    requires AllOk(tx)
    ensures var seen := ObserveAll(tx, now, limits).tx;
            AllOk(seen) && |seen| == |tx| && forall i | 0 <= i < |tx| :: seen[i].receipt == tx[i].receipt
  {
    var seen := ObserveAll(tx, now, limits).tx;
    ObserveAllPointwise(tx, now, limits);
    forall i | 0 <= i < |tx|
      ensures SduOk(seen[i]) && seen[i].receipt == tx[i].receipt
    {
      ObserveKeepsSdu(tx[i], now, limits);
    }
  }

  lemma OfferAllKeepsOk(tx: seq<TxSdu>, picked: seq<nat>)
    requires AllOk(tx) && forall a | 0 <= a < |picked| :: picked[a] < |tx| && !InFlight(tx[picked[a]])
    ensures AllOk(OfferAll(tx, picked)) && forall i | 0 <= i < |tx| :: OfferAll(tx, picked)[i].receipt == tx[i].receipt
  {
    forall i | 0 <= i < |tx|
      ensures SduOk(OfferAll(tx, picked)[i])
    {
      if i in picked {
        OfferKeepsSdu(tx[i], i == picked[|picked| - 1]);
      }
    }
  }

  lemma SubmitKeepsQueue(link: Link, now: TdmaTime, routeLive: bool)
    requires LinkOk(link) && link.reset.None?
    ensures AllSegmentsExist(link.tx)
    ensures var r := Submit(link, now, routeLive).link;
            LinkOk(r) && |r.tx| == |link.tx| && forall i | 0 <= i < |link.tx| :: r.tx[i].receipt == link.tx[i].receipt
  {
    SegmentsAllExist(link.tx);
    var picked := SubmitShape(link, now, routeLive);
    ObserveAllKeepsOk(link.tx, now, link.limits);
    var seen := ObserveAll(link.tx, now, link.limits).tx;
    hide Submit, ObserveAll, AllOk, AllSegmentsExist, InFlight, Selected, OfferAll;
    PickedAreIdle(seen, picked, link.limits);
    OfferAllKeepsOk(seen, picked);
  }

  lemma PickedAreIdle(tx: seq<TxSdu>, picked: seq<nat>, limits: Limits)
    requires picked == [] || exists notReady :: picked == Selected(tx, limits, notReady)
    ensures forall a | 0 <= a < |picked| :: picked[a] < |tx| && !InFlight(tx[picked[a]])
  {
    hide InFlight;
  }

  /** The end of a tick offers, repeats, resets or gives up, and conserves. */
  lemma EndTickConserves(x: Terminal, now: TdmaTime, routeLive: bool)
    requires TerminalOk(x)
    ensures x.link.Some? ==> AllSegmentsExist(x.link.value.tx)
    ensures TerminalOk(EndTick(x, now, routeLive).terminal) && Conserves(x, EndTick(x, now, routeLive))
  {
    if x.link.None? {
      ConservesNothing(x);
    } else {
      var link := x.link.value;
      TerminalAscends(x);
      SegmentsAllExist(link.tx);
      if Turn(link, now, routeLive).link.Some? {
        TurnKeepsQueue(link, now, routeLive);
      }
      hide TerminalOk, Conserves, Turn, LinkOk, AfterTurn, AllOk, AllSegmentsExist;
      AfterTurnConserves(x, Turn(link, now, routeLive));
    }
  }

  lemma AfterTurnConserves(x: Terminal, r: LinkTurn)
    requires TerminalOk(x) && x.link.Some?
    requires var tx := x.link.value.tx;
             r.link.Some? ==> LinkOk(r.link.value) && |r.link.value.tx| == |tx|
                              && forall i | 0 <= i < |tx| :: r.link.value.tx[i].receipt == tx[i].receipt
    ensures TerminalOk(AfterTurn(x, r).terminal) && Conserves(x, AfterTurn(x, r))
  {
    if r.link.None? {
      GivenUpConserves(x);
    } else {
      TerminalAscends(x);
      SharesSame(x.link.value.tx, r.link.value.tx);
      NothingEnds();
      hide Shares, AllOk, Ends, LinkOk, Conserves;
      SharedConserves(x, r.link.value, [], map[]);
      var y := x.(link := Some(r.link.value));
      hide TerminalOk, ResetAt;
      if r.failed.Some? {
        ResetConserves(y, r.failed.value);
        ConservesTrans(x, Stepped(y, map[]), ResetAt(y, r.failed.value));
        assert map[] + ResetAt(y, r.failed.value).ended == ResetAt(y, r.failed.value).ended;
      }
    }
  }

  lemma TurnKeepsQueue(link: Link, now: TdmaTime, routeLive: bool)
    requires LinkOk(link) && AllSegmentsExist(link.tx) && Turn(link, now, routeLive).link.Some?
    ensures var after := Turn(link, now, routeLive).link.value;
            LinkOk(after) && |after.tx| == |link.tx| && forall i | 0 <= i < |link.tx| ::
                after.tx[i].receipt == link.tx[i].receipt
  {
    hide AllOk;
    if link.reset.None? && link.ready {
      SubmitKeepsQueue(link, now, routeLive);
    }
    hide Submit, WatchReset, AllSegmentsExist;
  }

  /** Giving a link up ends everything on it as lost. */
  lemma GivenUpConserves(x: Terminal)
    requires TerminalOk(x) && x.link.Some?
    ensures var s := Stepped(x.(link := None), EndLost(x.link.value.tx)); TerminalOk(s.terminal) && Conserves(x, s)
  {
    TerminalAscends(x);
    var link := x.link.value;
    EndLostShape(link.tx);
    assert x == Terminal(x.link, []);
    assert Receipts(Terminal(None, [])) == [];
    forall k: nat
      ensures k in Receipts(x) <==> Queued(link.tx, k)
    {
      LinkReceipts(link, k);
    }
  }

  // ----- What a reset, a setup or the end of a tick ends, it ends as lost

  ghost predicate AllLost(ended: map<nat, TxState>) {
    forall r <- ended :: ended[r] == Lost
  }

  lemma ResetLoses(x: Terminal, failedNs: nat)
    requires x.link.Some? ==> AllOk(x.link.value.tx) && Ascending(x.link.value.tx)
    ensures AllLost(ResetAt(x, failedNs).ended)
  {
    if x.link.Some? && x.link.value.reset.None? {
      var tx := x.link.value.tx;
      var failed := Find(tx, failedNs);
      ResetShares(tx, 0, failed, 0);
      assert tx[0..] == tx;
      var gone := Abandoned(tx, 0, failed);
      assert AllOk(gone) by { hide SduOk; assert forall i | 0 <= i < |gone| :: gone[i] in gone; }
      hide Abandoned, Retained, Find, Shares;
      EndLostShape(gone);
    } else if x.link.Some? {
      NothingLost();
    }
  }

  lemma NothingLost()
    ensures EndLost([]) == map[]
  {
  }

  lemma {:induction false} AttachLoses(x: Terminal, now: TdmaTime)
    ensures AllLost(Attach(x, now).ended)
    decreases |x.waiting|
  {
    hide TdmaTime.Diff, Enqueue;
    if x.waiting != [] {
      AttachLoses(x.(waiting := x.waiting[1..]), now);
      if Room(x.link) {
        AttachLoses(Terminal(Some(Enqueue(x.link.value, x.waiting[0].receipt, Pending, x.waiting[0].sdu)),
                             x.waiting[1..]), now);
      }
    }
  }

  lemma SetUpLoses(x: Terminal, request: AlSetup, now: TdmaTime)
    requires TerminalOk(x)
    ensures AllLost(SetUp(x, request, now).ended)
  {
    if x.link.Some? {
      TerminalAscends(x);
      EndLostShape(x.link.value.tx);
    }
  }

  lemma EndTickLoses(x: Terminal, now: TdmaTime, routeLive: bool)
    requires TerminalOk(x) && (x.link.Some? ==> AllSegmentsExist(x.link.value.tx))
    ensures AllLost(EndTick(x, now, routeLive).ended)
  {
    if x.link.Some? {
      TerminalAscends(x);
      var r := Turn(x.link.value, now, routeLive);
      if r.link.None? {
        EndLostShape(x.link.value.tx);
      } else if r.failed.Some? {
        TurnKeepsQueue(x.link.value, now, routeLive);
        hide Turn, AllOk, ResetAt;
        ResetLoses(x.(link := r.link), r.failed.value);
      }
    }
  }

  // ----- New TL-SDUs

  // The TL-SDU numbered `receipt` joins those of `x`, or ends at once.
  ghost predicate TakesIn(x: Terminal, receipt: nat, s: Stepped) {
    && (forall r: nat :: r in Receipts(x) || r == receipt <==> r in Receipts(s.terminal) || r in s.ended)
    && (forall r <- s.ended :: r !in Receipts(s.terminal) && Final(s.ended[r]))
  }

  lemma EnqueueKeepsLink(link: Link, receipt: nat, sdu: Bits)
    requires LinkOk(link) && Room(Some(link))
    ensures LinkOk(Enqueue(link, receipt, Pending, sdu))
  {
    NewSduOk(receipt, link.nextTxNs, sdu);
    hide SduOk, NewSdu, Segments;
  }

  lemma EnqueueReceipts(link: Link, receipt: nat, sdu: Bits, waiting: seq<Waiting>)
    ensures Receipts(Terminal(Some(Enqueue(link, receipt, Pending, sdu)), waiting))
            == Receipts(Terminal(Some(link), [])) + [receipt] + Receipts(Terminal(None, waiting))
  {
    hide Segments;
  }

  lemma NoneLinked(rest: seq<Waiting>)
    ensures LinkedSdus(Terminal(None, rest)) == []
  {
  }

  lemma SameLinked(x: Terminal, rest: seq<Waiting>)
    ensures LinkedSdus(x.(waiting := rest)) == LinkedSdus(x) == LinkedSdus(x.(waiting := []))
  {
  }

  lemma WaitingReceipts(x: Terminal, w: Waiting, rest: seq<Waiting>)
    requires x.waiting == [w] + rest
    ensures Receipts(x) == Receipts(x.(waiting := [])) + [w.receipt] + Receipts(Terminal(None, rest))
    ensures Receipts(x.(waiting := rest)) == Receipts(x.(waiting := [])) + Receipts(Terminal(None, rest))
  {
    hide LinkedSdus;
    NoneLinked(rest);
    var linked := seq(|LinkedSdus(x)|, i requires 0 <= i < |LinkedSdus(x)| => LinkedSdus(x)[i].receipt);
    assert LinkedSdus(x.(waiting := rest)) == LinkedSdus(x) == LinkedSdus(x.(waiting := [])) by { SameLinked(x, rest); }
    assert Receipts(x.(waiting := [])) == linked;
    assert Receipts(x) == linked + [w.receipt] + Receipts(Terminal(None, rest));
  }

  lemma AppendedReceipts(x: Terminal, w: Waiting)
    ensures Receipts(x.(waiting := x.waiting + [w])) == Receipts(x) + [w.receipt]
  {
  }

  /** A TL-SDU from the service user is queued behind everything older, or ends as lost when 64 are queued. */
  lemma AcceptConserves(x: Terminal, receipt: nat, sdu: Bits, now: TdmaTime)
    requires TerminalOk(x) && forall r <- Receipts(x) :: r < receipt
    ensures var s := AcceptData(x, receipt, sdu, now);
            && TerminalOk(s.terminal) && TakesIn(x, receipt, s)
            && (s.ended == map[] ==> Receipts(s.terminal) == Receipts(x) + [receipt])
            && (s.ended != map[] <==> |Receipts(x)| >= MAX_QUEUED)
  {
    assert |Receipts(x)| == Linked(x.link) + |x.waiting|;
    if Room(x.link) {
      EnqueueTakesIn(x, receipt, sdu);
    } else if Linked(x.link) + |x.waiting| >= MAX_QUEUED {
      var ended := map[receipt := MarkReporterLost(Pending)];
      assert receipt in ended && receipt !in Receipts(x);
      hide LinkOk, Receipts;
    } else {
      AppendedReceipts(x, Waiting(receipt, sdu, now));
      AppendIncreasing(Receipts(x), receipt);
      hide LinkOk, Receipts, Increasing;
    }
  }

  lemma AppendIncreasing(s: seq<nat>, last: nat)
    requires Increasing(s) && forall r <- s :: r < last
    ensures Increasing(s + [last])
  {
    assert forall i | 0 <= i < |s| :: s[i] in s;
  }

  lemma EnqueueTakesIn(x: Terminal, receipt: nat, sdu: Bits)
    requires TerminalOk(x) && Room(x.link) && forall r <- Receipts(x) :: r < receipt
    ensures var y := Terminal(Some(Enqueue(x.link.value, receipt, Pending, sdu)), []);
            TerminalOk(y) && Receipts(y) == Receipts(x) + [receipt] && x.waiting == []
  {
    EnqueueKeepsLink(x.link.value, receipt, sdu);
    EnqueueReceipts(x.link.value, receipt, sdu, []);
    assert x == Terminal(Some(x.link.value), []) && Receipts(Terminal(None, [])) == [];
    hide LinkOk, Enqueue;
    assert |Receipts(x)| == |x.link.value.tx|;
    AppendIncreasing(Receipts(x), receipt);
    hide Receipts, Increasing;
  }

  ghost predicate Settling(x: Terminal) {
    && (x.link.Some? ==> LinkOk(x.link.value))
    && |Receipts(x)| <= MAX_QUEUED && Increasing(Receipts(x))
  }

  /** Waiting TL-SDUs move into a link, if there is one, until none waits; none is lost but by its age. */
  lemma {:induction false} AttachConserves(x: Terminal, now: TdmaTime)
    requires Settling(x)
    ensures TerminalOk(Attach(x, now).terminal) && Conserves(x, Attach(x, now))
    decreases |x.waiting|
  {
    if x.waiting == [] {
      ConservesNothing(x);
      hide Attach;
      NothingToAttach(x, now);
    } else if now.Diff(x.waiting[0].queuedAt) >= SETUP_NEGOTIATION_TIMEOUT {
      var rest := x.waiting[1..];
      SettlingRest(x);
      hide Settling, Receipts, TerminalOk;
      AttachConserves(x.(waiting := rest), now);
      AttachExpired(x, now);
      OneEnds(x, x.waiting[0].receipt, Attach(x.(waiting := rest), now), Receipts(x.(waiting := [])),
              Receipts(Terminal(None, rest)));
    } else if Room(x.link) {
      SettlingNext(x);
      hide Settling, Receipts, Enqueue, TerminalOk;
      AttachNext(x, now);
      hide Attach;
      AttachConserves(Terminal(Some(Enqueue(x.link.value, x.waiting[0].receipt, Pending, x.waiting[0].sdu)),
                               x.waiting[1..]), now);
    } else {
      ConservesNothing(x);
      NoRoomIsNoLink(x);
    }
  }

  lemma NothingToAttach(x: Terminal, now: TdmaTime)
    requires Settling(x) && x.waiting == []
    ensures Attach(x, now) == Stepped(x, map[]) && TerminalOk(x)
  {
    hide LinkOk;
  }

  lemma AttachExpired(x: Terminal, now: TdmaTime)
    requires x.waiting != [] && now.Diff(x.waiting[0].queuedAt) >= SETUP_NEGOTIATION_TIMEOUT
    ensures var r := Attach(x.(waiting := x.waiting[1..]), now);
            Attach(x, now) == r.(ended := map[x.waiting[0].receipt := MarkReporterLost(Pending)] + r.ended)
  {
    hide TdmaTime.Diff;
  }

  lemma SettlingRest(x: Terminal)
    requires Settling(x) && x.waiting != []
    ensures Settling(x.(waiting := x.waiting[1..]))
    ensures var before, behind := Receipts(x.(waiting := [])), Receipts(Terminal(None, x.waiting[1..]));
            && Receipts(x) == before + [x.waiting[0].receipt] + behind
            && Receipts(x.(waiting := x.waiting[1..])) == before + behind
            && Increasing(Receipts(x))
  {
    hide LinkOk;
    WaitingReceipts(x, x.waiting[0], x.waiting[1..]);
    var before, behind := Receipts(x.(waiting := [])), Receipts(Terminal(None, x.waiting[1..]));
    hide Receipts;
    IncreasingWithout(before, x.waiting[0].receipt, behind);
  }

  lemma IncreasingWithout(before: seq<nat>, r0: nat, behind: seq<nat>)
    requires Increasing(before + [r0] + behind)
    ensures Increasing(before + behind)
  {
    var all, less := before + [r0] + behind, before + behind;
    assert forall i | 0 <= i < |less| :: less[i] == all[if i < |before| then i else i + 1];
  }

  lemma SettlingNext(x: Terminal)
    requires Settling(x) && x.waiting != [] && Room(x.link)
    ensures var w := x.waiting[0];
            var y := Terminal(Some(Enqueue(x.link.value, w.receipt, Pending, w.sdu)), x.waiting[1..]);
            Settling(y) && Receipts(y) == Receipts(x)
  {
    var link, w, rest := x.link.value, x.waiting[0], x.waiting[1..];
    EnqueueKeepsLink(link, w.receipt, w.sdu);
    EnqueueReceipts(link, w.receipt, w.sdu, rest);
    WaitingReceipts(x, w, rest);
    assert x.(waiting := []) == Terminal(Some(link), []);
    hide LinkOk, Receipts, Enqueue;
  }

  lemma AttachStops(x: Terminal, now: TdmaTime)
    requires x.waiting != [] && now.Diff(x.waiting[0].queuedAt) < SETUP_NEGOTIATION_TIMEOUT && !Room(x.link)
    ensures Attach(x, now) == Stepped(x, map[])
  {
    hide TdmaTime.Diff, Enqueue;
  }

  lemma AttachNext(x: Terminal, now: TdmaTime)
    requires x.waiting != [] && now.Diff(x.waiting[0].queuedAt) < SETUP_NEGOTIATION_TIMEOUT && Room(x.link)
    ensures Attach(x, now)
            == Attach(Terminal(Some(Enqueue(x.link.value, x.waiting[0].receipt, Pending, x.waiting[0].sdu)),
                               x.waiting[1..]), now)
  {
    hide TdmaTime.Diff, Enqueue;
  }

  lemma NoRoomIsNoLink(x: Terminal)
    requires Settling(x) && x.waiting != [] && !Room(x.link)
    ensures x.link.None? && TerminalOk(x)
  {
    hide LinkOk;
    assert |Receipts(x)| == Linked(x.link) + |x.waiting|;
  }

  // The first waiting TL-SDU `r0` ends as lost before the step `s` of the others.
  lemma OneEnds(x: Terminal, r0: nat, s: Stepped, before: seq<nat>, behind: seq<nat>)
    requires Receipts(x) == before + [r0] + behind && Increasing(Receipts(x))
    requires forall r: nat :: r in before + behind <==> r in Receipts(s.terminal) || r in s.ended
    requires forall r <- s.ended :: r !in Receipts(s.terminal) && Final(s.ended[r])
    ensures Conserves(x, s.(ended := map[r0 := MarkReporterLost(Pending)] + s.ended))
  {
    hide Receipts;
    var all := before + [r0] + behind;
    assert all[|before|] == r0;
    forall r <- before
      ensures r < r0
    {
      var i :| 0 <= i < |before| && before[i] == r;
      assert all[i] < all[|before|];
    }
    forall r <- behind
      ensures r0 < r
    {
      var i :| 0 <= i < |behind| && behind[i] == r;
      assert all[|before|] < all[|before| + 1 + i];
    }
    assert forall r: nat :: r in all <==> r in before + behind || r == r0;
  }

  /** An AL-DISC ends everything queued for the terminal as lost. */
  lemma DisconnectConserves(x: Terminal)
    requires TerminalOk(x)
    ensures TerminalOk(Disconnect(x).terminal) && Conserves(x, Disconnect(x)) && Receipts(Disconnect(x).terminal) == []
  {
    assert Receipts(Terminal(None, [])) == [];
    var tx := LinkedSdus(x);
    assert AllOk(tx);
    EndLostShape(tx);
    EndWaitingShape(x.waiting);
    assert EndLost([]) == map[];
    hide TerminalOk, EndLost, EndWaiting, AllOk;
    var ended := Disconnect(x).ended;
    assert ended == EndLost(tx) + EndWaiting(x.waiting);
    forall k: nat
      ensures k in Receipts(x) <==> k in ended
    {
      ReceiptsOf(x, k);
    }
    hide Receipts, Queued;
  }

  /** An AL-SETUP that is not a Success ends what was on the old link; waiting TL-SDUs move to the new one. */
  lemma SetupConserves(x: Terminal, request: AlSetup, now: TdmaTime)
    requires TerminalOk(x)
    ensures TerminalOk(HandleSetup(x, request, now).terminal) && Conserves(x, HandleSetup(x, request, now))
    ensures HandleSetup(x, request, now).terminal.link.Some? && HandleSetup(x, request, now).terminal.waiting == []
  {
    SetUpSettles(x, request, now);
    var first := SetUp(x, request, now);
    hide TerminalOk, SetUp, LinkOk, Conserves, Settling;
    AttachConserves(first.terminal, now);
    ConservesTrans(x, first, Attach(first.terminal, now));
    AttachKeepsLink(first.terminal, now);
    assert TerminalOk(Attach(first.terminal, now).terminal);
    LinkedMeansNoneWaits(Attach(first.terminal, now).terminal);
  }

  lemma LinkedMeansNoneWaits(x: Terminal)
    requires TerminalOk(x) && x.link.Some?
    ensures x.waiting == []
  {
  }

  lemma {:induction false} AttachKeepsLink(x: Terminal, now: TdmaTime)
    ensures Attach(x, now).terminal.link.Some? == x.link.Some?
    decreases |x.waiting|
  {
    hide TdmaTime.Diff, Enqueue;
    if x.waiting != [] {
      AttachKeepsLink(x.(waiting := x.waiting[1..]), now);
      if Room(x.link) {
        AttachKeepsLink(Terminal(Some(Enqueue(x.link.value, x.waiting[0].receipt, Pending, x.waiting[0].sdu)),
                                 x.waiting[1..]), now);
      }
    }
  }

  lemma SetUpSettles(x: Terminal, request: AlSetup, now: TdmaTime)
    requires TerminalOk(x)
    ensures Settling(SetUp(x, request, now).terminal) && Conserves(x, SetUp(x, request, now))
    ensures SetUp(x, request, now).terminal.link.Some?
  {
    if x.link.Some? {
      LinkedMeansNoneWaits(x);
      if IsSuccess(request) {
        ConfirmedSettles(x, request);
      } else {
        GivenUpConserves(x);
        hide EndLost, AllOk;
        assert Receipts(SetUp(x, request, now).terminal) == Receipts(x.(link := None)) == [];
      }
    } else {
      hide Increasing;
      assert Receipts(SetUp(x, request, now).terminal) == Receipts(x);
    }
  }

  lemma ConfirmedSettles(x: Terminal, request: AlSetup)
    requires TerminalOk(x) && x.link.Some?
    ensures var y := x.(link := Some(Confirmed(x.link.value, request)));
            Settling(y) && Receipts(y) == Receipts(x) && Conserves(x, Stepped(y, map[]))
  {
    var y := x.(link := Some(Confirmed(x.link.value, request)));
    assert Receipts(y) == Receipts(x);
    hide AllOk, Receipts, Increasing;
  }

  // ----- Numbering

  ghost predicate Carries(sdu: TxSdu, waiting: seq<Waiting>) {
    exists j :: 0 <= j < |waiting| && waiting[j].receipt == sdu.receipt && sdu.segments == Segments(waiting[j].sdu)
  }

  // `after` is the queue of `before` followed by TL-SDUs of `waiting`, whose N(S) count on from `next`.
  ghost predicate CountsOn(before: seq<TxSdu>, next: nat, after: Link, waiting: seq<Waiting>) {
    && before <= after.tx
    && after.nextTxNs == (next + |after.tx| - |before|) % 8
    && forall i | |before| <= i < |after.tx| ::
         after.tx[i].ns == (next + i - |before|) % 8 && Carries(after.tx[i], waiting)
  }

  /**
   TL-SDUs that waited for a link get the next send sequence numbers one after the other;
   with the ascending receipts of `AttachConserves` that is in the order of their arrival.
   */
  lemma {:induction false} AttachNumbers(x: Terminal, now: TdmaTime)
    requires x.link.Some? && x.link.value.nextTxNs < 8
    ensures Attach(x, now).terminal.link.Some?
    ensures CountsOn(x.link.value.tx, x.link.value.nextTxNs, Attach(x, now).terminal.link.value, x.waiting)
    decreases |x.waiting|
  {
    hide TdmaTime.Diff, Segments;
    var link := x.link.value;
    if x.waiting == [] || (now.Diff(x.waiting[0].queuedAt) < SETUP_NEGOTIATION_TIMEOUT && !Room(x.link)) {
      assert Attach(x, now) == Stepped(x, map[]);
    } else {
      var w, rest := x.waiting[0], x.waiting[1..];
      if now.Diff(w.queuedAt) >= SETUP_NEGOTIATION_TIMEOUT {
        AttachNumbers(x.(waiting := rest), now);
        AttachExpired(x, now);
        hide Attach;
        CountsOnMore(link.tx, link.nextTxNs, Attach(x, now).terminal.link.value, w, rest);
      } else {
        var grown := Enqueue(link, w.receipt, Pending, w.sdu);
        AttachNumbers(Terminal(Some(grown), rest), now);
        AttachNext(x, now);
        hide Attach;
        CountsOnFromNext(link, w, Attach(x, now).terminal.link.value, rest);
      }
      assert x.waiting == [w] + rest;
    }
  }

  lemma CountsOnMore(before: seq<TxSdu>, next: nat, after: Link, w: Waiting, rest: seq<Waiting>)
    requires CountsOn(before, next, after, rest)
    ensures CountsOn(before, next, after, [w] + rest)
  {
    hide Segments;
    forall i | |before| <= i < |after.tx|
      ensures Carries(after.tx[i], [w] + rest)
    {
      var j :| 0 <= j < |rest| && rest[j].receipt == after.tx[i].receipt
        && after.tx[i].segments == Segments(rest[j].sdu);
      assert ([w] + rest)[j + 1] == rest[j];
    }
  }

  lemma CountsOnFromNext(link: Link, w: Waiting, after: Link, rest: seq<Waiting>)
    requires link.nextTxNs < 8
    requires var grown := Enqueue(link, w.receipt, Pending, w.sdu); CountsOn(grown.tx, grown.nextTxNs, after, rest)
    ensures CountsOn(link.tx, link.nextTxNs, after, [w] + rest)
  {
    hide Segments;
    var grown := Enqueue(link, w.receipt, Pending, w.sdu);
    CountsOnMore(grown.tx, grown.nextTxNs, after, w, rest);
    var n, next := |link.tx|, link.nextTxNs;
    Mod8Sum(next + 1, |after.tx| - n - 1);
    Mod8Small(next);
    assert after.tx[n] == grown.tx[n] && ([w] + rest)[0] == w;
    forall i | n + 1 <= i < |after.tx|
      ensures after.tx[i].ns == (next + i - n) % 8
    {
      Mod8Sum(next + 1, i - n - 1);
    }
  }

  // ----- A Success that forgets how long the receiver has been busy
}
