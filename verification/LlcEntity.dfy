/** The LLC of the base station: all advanced links, and the data that waits for one. */
module LlcEntity {
  import opened Wrappers
  import opened Fcs
  import opened AlPdu
  import opened Tdma
  import opened TxReceipt
  import opened Sender
  import opened AdvancedLink
  import opened SenderLoops
  import opened Terminals
  import opened Conservation
  import Segmentation
  import Receiver

  function TerminalAt(links: map<nat, Link>, pending: map<nat, seq<Waiting>>, issi: nat): Terminal {
    Terminal(if issi in links then Some(links[issi]) else None, if issi in pending then pending[issi] else [])
  }

  ghost predicate Belongs(x: Terminal, owner: map<nat, nat>, issi: nat) {
    forall r <- Receipts(x) :: r in owner && owner[r] == issi
  }

  /**
   Every TL-SDU ever handed over, `owner` naming its terminal, is in the queue of that
   terminal or has ended as acknowledged or lost, and never both; and each terminal's queue
   is in the order of arrival, at most 64 long.
   */
  ghost predicate Sound(links: map<nat, Link>, pending: map<nat, seq<Waiting>>, outcome: map<nat, TxState>,
                        owner: map<nat, nat>) {
    && (forall issi: nat ::
         Settling(TerminalAt(links, pending, issi)) && Belongs(TerminalAt(links, pending, issi), owner, issi))
    && (forall r <- owner :: r in outcome <==> r !in Receipts(TerminalAt(links, pending, owner[r])))
    && (forall r <- outcome :: r in owner && Final(outcome[r]))
  }

  // TL-SDUs wait only at terminals without a link.
  ghost predicate Settled(links: map<nat, Link>, pending: map<nat, seq<Waiting>>) {
    forall issi: nat :: TerminalOk(TerminalAt(links, pending, issi))
  }

  // Only the terminal `issi` differs, and it has become `x`.
  ghost predicate OnlyAt(links: map<nat, Link>, pending: map<nat, seq<Waiting>>,
                         links': map<nat, Link>, pending': map<nat, seq<Waiting>>, issi: nat, x: Terminal) {
    && TerminalAt(links', pending', issi) == x
    && forall other: nat | other != issi :: TerminalAt(links', pending', other) == TerminalAt(links, pending, other)
  }

  /** Outcomes already reported stay, and every new one is a loss. */
  ghost predicate OnlyLoses(before: map<nat, TxState>, after: map<nat, TxState>) {
    before.Keys <= after.Keys && forall r <- after :: after[r] == if r in before then before[r] else Lost
  }

  lemma LosesNothing(outcome: map<nat, TxState>)
    ensures OnlyLoses(outcome, outcome)
  {
  }

  lemma LosesOnly(a: map<nat, TxState>, b: map<nat, TxState>, c: map<nat, TxState>)
    requires OnlyLoses(a, b) && OnlyLoses(b, c)
    ensures OnlyLoses(a, c)
  {
  }

  // What a conserving step ends had not ended before.
  lemma LosesMore(links: map<nat, Link>, pending: map<nat, seq<Waiting>>, outcome: map<nat, TxState>,
                  owner: map<nat, nat>, outcome0: map<nat, TxState>, issi: nat, s: Stepped)
    requires Sound(links, pending, outcome, owner) && Conserves(TerminalAt(links, pending, issi), s) && AllLost(s.ended)
    requires OnlyLoses(outcome0, outcome)
    ensures OnlyLoses(outcome0, outcome + s.ended)
  {
    hide Settling, Receipts, TerminalAt;
    var x := TerminalAt(links, pending, issi);
    forall r <- s.ended
      ensures r !in outcome
    {
      assert r in Receipts(x);
      assert Belongs(x, owner, issi);
    }
  }

  /** A conserving step of one terminal keeps the whole sound. */
  lemma OneTerminalSteps(links: map<nat, Link>, pending: map<nat, seq<Waiting>>, outcome: map<nat, TxState>,
                         owner: map<nat, nat>, links': map<nat, Link>, pending': map<nat, seq<Waiting>>, issi: nat,
                         s: Stepped)
    requires Sound(links, pending, outcome, owner)
    requires OnlyAt(links, pending, links', pending', issi, s.terminal)
    requires Settling(s.terminal) && Conserves(TerminalAt(links, pending, issi), s)
    ensures Sound(links', pending', outcome + s.ended, owner)
  {
    hide Settling, Receipts, TerminalAt;
  }

  lemma OneTerminalSettles(links: map<nat, Link>, pending: map<nat, seq<Waiting>>, links': map<nat, Link>,
                           pending': map<nat, seq<Waiting>>, issi: nat, x: Terminal)
    requires Settled(links, pending) && OnlyAt(links, pending, links', pending', issi, x) && TerminalOk(x)
    ensures Settled(links', pending')
  {
    hide TerminalOk, TerminalAt;
  }

  /** Taking in a new TL-SDU for one terminal keeps the whole sound. */
  lemma OneTerminalTakesIn(links: map<nat, Link>, pending: map<nat, seq<Waiting>>, outcome: map<nat, TxState>,
                           owner: map<nat, nat>, links': map<nat, Link>, pending': map<nat, seq<Waiting>>, issi: nat,
                           receipt: nat, s: Stepped)
    requires Sound(links, pending, outcome, owner) && receipt !in owner
    requires OnlyAt(links, pending, links', pending', issi, s.terminal)
    requires Settling(s.terminal) && TakesIn(TerminalAt(links, pending, issi), receipt, s)
    ensures Sound(links', pending', outcome + s.ended, owner[receipt := issi])
  {
    hide Settling, Receipts, TerminalAt;
  }

  class Llc {
    var now: TdmaTime
    var links: map<nat, Link>
    var pending: map<nat, seq<Waiting>>
    // The receipts of TL-SDUs that left their queue, as the service user sees them.
    var outcome: map<nat, TxState>
    ghost var owner: map<nat, nat>

    ghost predicate Valid()
      reads this
    {
      Sound(links, pending, outcome, owner) && Settled(links, pending)
    }

    function At(issi: nat): Terminal
      reads this
    {
      TerminalAt(links, pending, issi)
    }

    constructor (start: TdmaTime)
      ensures Valid() && now == start && owner == map[]
    {
      now, links, pending, outcome, owner := start, map[], map[], map[], map[];
    }

    // rx_tla_tldata_req_al: queue on the link, if there is one with room.
    method LinkData(issi: nat, receipt: nat, sdu: Bits) returns (ok: bool)
      modifies this`links
      ensures ok == Room(old(At(issi)).link)
      ensures OnlyAt(old(links), pending, links, pending, issi,
                     if ok then old(At(issi)).(link := Some(Enqueue(old(At(issi)).link.value, receipt, Pending, sdu)))
                       else old(At(issi)))
      ensures !ok ==> links == old(links)
    {
      if issi !in links {
        return false;
      }
      var link := links[issi];
      if |link.tx| >= MAX_QUEUED {
        return false;
      }
      var segments := Segmentation.AdvancedSegments(sdu);
      var ns := link.nextTxNs;
      links := links[issi := link.(nextTxNs := (ns + 1) % 8, tx := link.tx + [NewSdu(receipt, ns, Pending, segments)])];
      ok := true;
    }

    // queue_pending_advanced_data: hold back until the link is set up, up to 64 TL-SDUs.
    method QueueData(issi: nat, receipt: nat, sdu: Bits)
      modifies this`pending, this`outcome
      ensures var x, full := old(At(issi)), Linked(old(At(issi)).link) + |old(At(issi)).waiting| >= MAX_QUEUED;
              && OnlyAt(old(links), old(pending), links, pending, issi,
                        if full then x else x.(waiting := x.waiting + [Waiting(receipt, sdu, now)]))
              && outcome == if full then old(outcome)[receipt := MarkReporterLost(Pending)] else old(outcome)
    {
      var linked := if issi in links then |links[issi].tx| else 0;
      var queue := if issi in pending then pending[issi] else [];
      if linked + |queue| >= MAX_QUEUED {
        pending := pending[issi := queue];
        outcome := outcome[receipt := MarkReporterLost(Pending)];
        return;
      }
      pending := pending[issi := queue + [Waiting(receipt, sdu, now)]];
    }

    // rx_tla_tldata_req_al_message: onto the link, or into the setup-waiting queue, or rejected.
    method PlaceData(issi: nat, receipt: nat, sdu: Bits)
      modifies this`links, this`pending, this`outcome
      ensures OnlyAt(old(links), old(pending), links, pending, issi,
                     AcceptData(old(At(issi)), receipt, sdu, now).terminal)
      ensures outcome == old(outcome) + AcceptData(old(At(issi)), receipt, sdu, now).ended
    {
      hide OnlyAt, Enqueue;
      var ok := LinkData(issi, receipt, sdu);
      if !ok {
        QueueData(issi, receipt, sdu);
      }
      assert outcome == old(outcome) + AcceptData(old(At(issi)), receipt, sdu, now).ended;
    }

    /** Data from the service user. Receipts are handed out in ascending order. */
    method Request(issi: nat, receipt: nat, sdu: Bits)
      requires Valid() && forall r <- owner :: r < receipt
      modifies this
      ensures Valid() && now == old(now) && owner == old(owner)[receipt := issi]
      ensures OnlyAt(old(links), old(pending), links, pending, issi,
                     AcceptData(old(At(issi)), receipt, sdu, now).terminal)
      ensures outcome == old(outcome) + AcceptData(old(At(issi)), receipt, sdu, now).ended
    {
      OwnReceiptsAreOlder(links, pending, outcome, owner, issi, receipt);
      OneSettles(links, pending, outcome, owner, issi);
      hide OnlyAt, Sound, Settled, Settling, TakesIn, TerminalOk, Receipts, AcceptData, TerminalAt, Belongs;
      AcceptConserves(At(issi), receipt, sdu, now);
      PlaceData(issi, receipt, sdu);
      owner := owner[receipt := issi];
      OkSettles(AcceptData(old(At(issi)), receipt, sdu, now).terminal);
      OneTerminalSettles(old(links), old(pending), links, pending, issi,
                         AcceptData(old(At(issi)), receipt, sdu, now).terminal);
      OneTerminalTakesIn(old(links), old(pending), old(outcome), old(owner), links, pending, issi, receipt,
                         AcceptData(old(At(issi)), receipt, sdu, now));
    }

    // ----- Receipts of what leaves a queue

    method LoseAll(tx: seq<TxSdu>)
      modifies this`outcome
      ensures outcome == old(outcome) + EndLost(tx)
    {
      for i := 0 to |tx|
        invariant outcome == old(outcome) + EndLost(tx[..i])
      {
        assert tx[..i + 1][..i] == tx[..i];
        outcome := outcome[tx[i].receipt := MarkReporterLost(tx[i].reporter)];
      }
      assert tx[..|tx|] == tx;
    }

    method AcknowledgeAll(tx: seq<TxSdu>)
      modifies this`outcome
      ensures outcome == old(outcome) + EndAcked(tx)
    {
      for i := 0 to |tx|
        invariant outcome == old(outcome) + EndAcked(tx[..i])
      {
        assert tx[..i + 1][..i] == tx[..i];
        outcome := outcome[tx[i].receipt := MarkSduAcknowledged(tx[i].reporter)];
      }
      assert tx[..|tx|] == tx;
    }

    method LoseWaiting(queue: seq<Waiting>)
      modifies this`outcome
      ensures outcome == old(outcome) + EndWaiting(queue)
    {
      for i := 0 to |queue|
        invariant outcome == old(outcome) + EndWaiting(queue[..i])
      {
        assert queue[..i + 1][..i] == queue[..i];
        outcome := outcome[queue[i].receipt := MarkReporterLost(Pending)];
      }
      assert queue[..|queue|] == queue;
    }

    // ----- Resets and acknowledgements

    // begin_advanced_link_reset
    method BeginResetAt(issi: nat, failedNs: nat)
      modifies this`links, this`outcome
      ensures OnlyAt(old(links), pending, links, pending, issi, ResetAt(old(At(issi)), failedNs).terminal)
      ensures outcome == old(outcome) + ResetAt(old(At(issi)), failedNs).ended
    {
      hide EndLost, Retained, Abandoned, Find;
      if issi !in links {
        return;
      }
      var link := links[issi];
      if link.reset.Some? {
        NothingIsLost();
        return;
      }
      var kept, lost := SplitForReset(link.tx, failedNs);
      LoseAll(lost);
      links := links[issi := link.(tx := kept, nextTxNs := |kept| % 8, nextRxNs := 0, rxSdus := map[],
                                   receiverReady := false,
                                   notReadySince := None, ready := false, setupStartedAt := None,
                                     reset := Some(Reset(Pending, None, 0)))];
    }

    method UpdateLink(issi: nat, link: Link)
      requires issi in links
      modifies this`links
      ensures OnlyAt(old(links), pending, links, pending, issi, old(At(issi)).(link := Some(link)))
    {
      links := links[issi := link];
    }

    /** The acknowledgement itself; `failed` is the N(S) that exhausted its retransmissions. */
    method TakeAckAt(issi: nat, ack: AlAck) returns (failed: Option<nat>)
      requires issi in links && WellFormed(links[issi].tx) && ack.blocks != []
      modifies this`links, this`outcome
      ensures var r := HandleAck(old(links)[issi], ack, now);
              && OnlyAt(old(links), pending, links, pending, issi, old(At(issi)).(link := Some(r.link)))
              && outcome == old(outcome) + EndAcked(r.acked) && failed == r.failed
    {
      hide ApplyAck, EndAcked, OnlyAt;
      var link := links[issi];
      if link.reset.Some? {
        NothingIsLost();
        UpdateLink(issi, link);
        return None;
      }
      link := link.(receiverReady := ack.receiverReady, notReadySince := if ack.receiverReady then None else Some(now));
      var tx, acked;
      tx, acked, failed := TakeAck(link.tx, ack.blocks, link.limits);
      AcknowledgeAll(acked);
      UpdateLink(issi, link.(tx := tx));
    }

    // handle_al_ack
    method HearAckAt(issi: nat, ack: AlAck)
      requires At(issi).link.Some? ==> WellFormed(At(issi).link.value.tx)
      requires ack.blocks != []
      modifies this`links, this`outcome
      ensures OnlyAt(old(links), old(pending), links, pending, issi, HearAck(old(At(issi)), ack, now).terminal)
      ensures outcome == old(outcome) + HearAck(old(At(issi)), ack, now).ended
    {
      if issi in links {
        ThenResets(At(issi), ack, now);
        ghost var r := HandleAck(links[issi], ack, now);
        ghost var heard := At(issi).(link := Some(r.link));
        hide HandleAck, ResetAt, EndAcked, OnlyAt, TerminalAt, HearAck;
        var failed := TakeAckAt(issi, ack);
        OthersStay(old(links), old(pending), links, pending, issi, heard);
        if failed.Some? {
          ghost var links1 := links;
          BeginResetAt(issi, failed.value);
          OnlyAtAgain(old(links), old(pending), links1, pending, links, pending, issi, heard,
                      ResetAt(heard, failed.value).terminal);
          Combined(old(outcome), EndAcked(r.acked), ResetAt(heard, failed.value).ended);
        }
      }
    }

    /** An AL-ACK or AL-RNR from the terminal. */
    method HearAcknowledgement(issi: nat, ack: AlAck)
      requires Valid() && ack.blocks != []
      modifies this
      ensures Valid() && now == old(now) && owner == old(owner)
      ensures old(At(issi)).link.Some? ==> WellFormed(old(At(issi)).link.value.tx)
      ensures OnlyAt(old(links), old(pending), links, pending, issi, HearAck(old(At(issi)), ack, now).terminal)
      ensures outcome == old(outcome) + HearAck(old(At(issi)), ack, now).ended
    {
      OneSettles(links, pending, outcome, owner, issi);
      hide OnlyAt, Sound, Settled, Settling, Conserves, TerminalOk, Receipts, HearAck, TerminalAt, Belongs, WellFormed;
      HearAckConserves(At(issi), ack, now);
      OkSettles(HearAck(At(issi), ack, now).terminal);
      HearAckAt(issi, ack);
      OneTerminalSteps(old(links), old(pending), old(outcome), owner, links, pending, issi,
                       HearAck(old(At(issi)), ack, now));
      OneTerminalSettles(old(links), old(pending), links, pending, issi, HearAck(old(At(issi)), ack, now).terminal);
    }

    // ----- AL-DISC and AL-SETUP

    // handle_al_disconnect
    method DisconnectAt(issi: nat)
      modifies this`links, this`pending, this`outcome
      ensures OnlyAt(old(links), old(pending), links, pending, issi, Disconnect(old(At(issi))).terminal)
      ensures outcome == old(outcome) + Disconnect(old(At(issi))).ended
    {
      hide EndLost, EndWaiting;
      if issi in links {
        LoseAll(links[issi].tx);
        links := links - {issi};
      }
      NoneWaiting();
      if issi in pending {
        LoseWaiting(pending[issi]);
        pending := pending - {issi};
      }
    }

    /** An AL-DISC from the terminal; only a Close is answered. */
    method HearDisconnect(issi: nat, linkNumber: nat, report: nat) returns (answered: bool)
      requires Valid()
      modifies this
      ensures Valid() && now == old(now) && owner == old(owner)
      ensures answered <==> linkNumber == 0 && report == 1
      ensures var s := if linkNumber == 0 then Disconnect(old(At(issi))) else Stepped(old(At(issi)), map[]);
              OnlyAt(old(links), old(pending), links, pending, issi, s.terminal) && outcome == old(outcome) + s.ended
    {
      if linkNumber != 0 {
        return false;
      }
      OneSettles(links, pending, outcome, owner, issi);
      hide OnlyAt, Sound, Settled, Settling, Conserves, TerminalOk, Receipts, Disconnect, TerminalAt, Belongs;
      DisconnectConserves(At(issi));
      OkSettles(Disconnect(At(issi)).terminal);
      DisconnectAt(issi);
      OneTerminalSteps(old(links), old(pending), old(outcome), owner, links, pending, issi, Disconnect(old(At(issi))));
      OneTerminalSettles(old(links), old(pending), links, pending, issi, Disconnect(old(At(issi))).terminal);
      answered := report == 1;
    }

    // ----- Waiting data

    /** One waiting TL-SDU: lost if it waited too long, moved if the link has room, otherwise kept. */
    method AttachEntry(issi: nat, entry: Waiting) returns (kept: bool)
      requires issi !in pending
      modifies this`links, this`outcome
      ensures kept == Stays(old(At(issi)).link, entry, now)
      ensures kept ==> links == old(links) && outcome == old(outcome)
      ensures !kept ==>
                && OnlyAt(old(links), pending, links, pending, issi,
                          Terminal(MovedInto(old(At(issi)).link, entry, now), []))
                && outcome == EndedWith(old(outcome), entry, now)
    {
      hide TdmaTime.Diff, Enqueue;
      if now.Diff(entry.queuedAt) >= SETUP_NEGOTIATION_TIMEOUT {
        outcome := outcome[entry.receipt := MarkReporterLost(Pending)];
        return false;
      }
      var ok := LinkData(issi, entry.receipt, entry.sdu);
      kept := !ok;
    }

    // The queue of one terminal in process_pending_advanced_data.
    method AttachAt(issi: nat) returns (activity: bool)
      modifies this`links, this`pending, this`outcome
      ensures OnlyAt(old(links), old(pending), links, pending, issi, Attach(old(At(issi)), now).terminal)
      ensures outcome == old(outcome) + Attach(old(At(issi)), now).ended
      ensures activity <==> |Attach(old(At(issi)), now).terminal.waiting| < |old(At(issi)).waiting|
    {
      activity := false;
      if issi !in pending {
        return;
      }
      var queue := pending[issi];
      pending := pending - {issi};
      ghost var x := old(At(issi));
      ghost var ended: map<nat, TxState> := map[];
      assert x == Terminal(At(issi).link, queue);
      assert EndedFirst(map[], Attach(x, now)) == Attach(x, now);
      assert OnlyAt(old(links), old(pending), links, pending, issi, Terminal(At(issi).link, []));
      hide Attach, OnlyAt, TerminalAt, EndedFirst, MovedInto, EndedWith, Stays;
      while queue != []
        invariant issi !in pending
        invariant OnlyAt(old(links), old(pending), links, pending, issi, Terminal(At(issi).link, []))
        invariant Attach(x, now) == EndedFirst(ended, Attach(Terminal(At(issi).link, queue), now))
        invariant outcome == old(outcome) + ended
        invariant |queue| <= |x.waiting| && (activity <==> |queue| < |x.waiting|)
      {
        ghost var link, links0 := At(issi).link, links;
        NextWaiting(ended, link, queue, now);
        var kept := AttachEntry(issi, queue[0]);
        if kept {
          PutBack(old(links), old(pending), links, pending, issi, queue);
          pending := pending[issi := queue];
          return;
        }
        OnlyAtAgain(old(links), old(pending), links0, pending, links, pending, issi, Terminal(link, []),
                    Terminal(MovedInto(link, queue[0], now), []));
        EndedWithToo(old(outcome), ended, queue[0], now);
        ended := EndedWith(ended, queue[0], now);
        queue, activity := queue[1..], true;
      }
      NothingWaits(ended, At(issi).link, now);
    }

    method AttachSoundly(issi: nat, ghost outcome0: map<nat, TxState>) returns (activity: bool)
      requires Sound(links, pending, outcome, owner) && OnlyLoses(outcome0, outcome)
      modifies this`links, this`pending, this`outcome
      ensures Sound(links, pending, outcome, owner) && TerminalOk(Attach(old(At(issi)), now).terminal)
              && OnlyLoses(outcome0, outcome)
      ensures OnlyAt(old(links), old(pending), links, pending, issi, Attach(old(At(issi)), now).terminal)
      ensures outcome == old(outcome) + Attach(old(At(issi)), now).ended
      ensures activity <==> |Attach(old(At(issi)), now).terminal.waiting| < |old(At(issi)).waiting|
    {
      OneSettles(links, pending, outcome, owner, issi);
      hide OnlyAt, Sound, Conserves, TerminalOk, Settling, Settled, Receipts, Attach, TerminalAt, Belongs, OnlyLoses,
           AllLost;
      AttachConserves(At(issi), now);
      AttachLoses(At(issi), now);
      LosesMore(links, pending, outcome, owner, outcome0, issi, Attach(At(issi), now));
      OkSettles(Attach(At(issi), now).terminal);
      activity := AttachAt(issi);
      OneTerminalSteps(old(links), old(pending), old(outcome), owner, links, pending, issi, Attach(old(At(issi)), now));
    }

    method AttachNextOf(ghost todo: set<nat>, ghost links0: map<nat, Link>, ghost pending0: map<nat, seq<Waiting>>,
                        ghost outcome0: map<nat, TxState>, issi: nat) returns (activity: bool)
      requires Sound(links, pending, outcome, owner) && issi in todo
      requires AttachedAllBut(todo, links0, pending0, outcome0, links, pending, outcome, now)
      modifies this`links, this`pending, this`outcome
      ensures Sound(links, pending, outcome, owner)
      ensures AttachedAllBut(todo - {issi}, links0, pending0, outcome0, links, pending, outcome, now)
    {
      assert OnlyLoses(outcome0, outcome);
      hide Sound, Settled, AttachedAllBut, OnlyAt, Attach, TerminalOk, TerminalAt, OnlyLoses;
      activity := AttachSoundly(issi, outcome0);
      AttachedOneMore(todo, links0, pending0, outcome0, old(links), old(pending), old(outcome), links, pending,
                      outcome, now, issi);
    }

    /**
     Move waiting data into the links that can take it, terminal by terminal in whatever
     order the map yields them. Afterwards data waits only at terminals without a link.
     */
    method ProcessPending() returns (activity: bool)
      requires Sound(links, pending, outcome, owner)
      modifies this`links, this`pending, this`outcome
      ensures Valid() && AttachedAllBut({}, old(links), old(pending), old(outcome), links, pending, outcome, now)
    {
      hide Sound, Settled, AttachedAllBut;
      activity := false;
      var todo := pending.Keys;
      NoneAttachedYet(links, pending, outcome, owner, now);
      while todo != {}
        invariant Sound(links, pending, outcome, owner)
        invariant AttachedAllBut(todo, old(links), old(pending), old(outcome), links, pending, outcome, now)
        decreases |todo|
      {
        var issi :| issi in todo;
        var moved := AttachNextOf(todo, old(links), old(pending), old(outcome), issi);
        todo := todo - {issi};
        activity := activity || moved;
      }
      AttachedAll(old(links), old(pending), old(outcome), links, pending, outcome, now);
    }

    // The link part of handle_al_setup.
    method SetUpAt(issi: nat, request: AlSetup)
      modifies this`links, this`outcome
      ensures OnlyAt(old(links), pending, links, pending, issi, SetUp(old(At(issi)), request, now).terminal)
      ensures outcome == old(outcome) + SetUp(old(At(issi)), request, now).ended
    {
      hide EndLost;
      NothingIsLost();
      var slots, maximumSdu := Clamp(RequestedSlots(request)), GrantedSdu(request);
      var limits := Granted(request);
      var negotiated := NewLink(maximumSdu, slots, limits, AwaitsSuccess(request), now);
      if IsSuccess(request) {
        if issi in links {
          var link := links[issi];
          link := link.(maximumSdu := maximumSdu, slots := slots, limits := limits, ready := true,
                        setupStartedAt := None, notReadySince := None);
          if link.reset.Some? {
            link := link.(reset := None, receiverReady := true);
          }
          links := links[issi := link];
        } else {
          links := links[issi := negotiated];
        }
      } else {
        if issi in links {
          LoseAll(links[issi].tx);
        }
        links := links[issi := negotiated];
      }
    }

    /** An AL-SETUP from the terminal. */
    method HearSetup(issi: nat, request: AlSetup) returns (response: Option<AlSetup>)
      requires Valid()
      modifies this
      ensures Valid() && now == old(now) && owner == old(owner)
      ensures response == if Supported(request) then SetupResponse(request) else None
      ensures Supported(request) ==> At(issi) == HandleSetup(old(At(issi)), request, now).terminal
      ensures forall other: nat | other != issi ::
                At(other) == if Supported(request) then Attach(old(At(other)), now).terminal else old(At(other))
      ensures OnlyLoses(old(outcome), outcome) && (!Supported(request) ==> outcome == old(outcome))
      ensures request.linkNumber != 0 || request.asymmetric || request.report > 4 ==>
                response.None? && links == old(links) && pending == old(pending) && outcome == old(outcome)
      ensures request.linkNumber == 0 && !request.asymmetric && request.report <= 4 ==>
                response == SetupResponse(request) && At(issi) == HandleSetup(old(At(issi)), request, now).terminal
    {
      if !Supported(request) {
        LosesNothing(outcome);
        return None;
      }
      OneSettles(links, pending, outcome, owner, issi);
      SetUpSettles(At(issi), request, now);
      SetUpLoses(At(issi), request, now);
      LosesNothing(outcome);
      LosesMore(links, pending, outcome, owner, outcome, issi, SetUp(At(issi), request, now));
      hide OnlyAt, Sound, Conserves, TerminalOk, Settling, Settled, Receipts, SetUp, TerminalAt, Belongs,
           SetupResponse, OnlyLoses, AllLost;
      SetUpAt(issi, request);
      OneTerminalSteps(old(links), old(pending), old(outcome), owner, links, pending, issi,
                       SetUp(old(At(issi)), request, now));
      OthersStay(old(links), old(pending), links, pending, issi, SetUp(old(At(issi)), request, now).terminal);
      response := SetupResponse(request);
      ghost var links1, pending1, outcome1 := links, pending, outcome;
      var activity := ProcessPending();
      AttachedEach(links1, pending1, outcome1, links, pending, outcome, now);
      LosesOnly(old(outcome), outcome1, outcome);
    }

    // handle_al_data
    method HearData(issi: nat, pdu: AlData) returns (ack: Option<seq<AlAckBlock>>, delivered: seq<Bits>)
      requires Valid()
      modifies this`links
      ensures Valid()
      ensures issi !in old(links) ==> links == old(links) && ack.None? && delivered == []
      ensures issi in old(links) ==>
                issi in links && DataOutcome(links[issi], ack, delivered) == HandleData(old(links)[issi], pdu)
                && OnlyAt(old(links), pending, links, pending, issi, old(At(issi)).(link := At(issi).link))
    {
      ack, delivered := None, [];
      if issi !in links || links[issi].reset.Some? {
        return;
      }
      var link := links[issi];
      var next, sdus;
      next, sdus, ack, delivered := Receiver.TakeData(link.limits.window, link.nextRxNs, link.rxSdus, pdu);
      link := link.(nextRxNs := next, rxSdus := sdus);
      UpdateLink(issi, link);
      ReceivingKeepsValid(old(links), pending, outcome, owner, links, issi, link);
    }

    // ----- The end of a tick

    // What one pass of submit_advanced_link_messages makes of a link, before failures are dealt with.
    method TurnLink(link: Link, routeLive: bool)
        returns (turned: Option<Link>, offered: seq<Offering>, failed: Option<nat>)
      requires AllSegmentsExist(link.tx)
      ensures LinkTurn(turned, offered, failed) == Turn(link, now, routeLive)
    {
      turned, offered, failed := Some(link), [], None;
      if link.reset.Some? {
        var r := WatchReset(link.reset.value, now);
        turned := if r.exhausted then None else Some(link.(reset := Some(r.reset)));
        return;
      }
      if !link.ready {
        if link.setupStartedAt.Some? && now.Diff(link.setupStartedAt.value) >= SETUP_NEGOTIATION_TIMEOUT {
          turned := None;
        }
        return;
      }
      var next;
      next, offered, failed := SubmitLink(link, routeLive);
      turned := Some(next);
    }

    method SubmitLink(link: Link, routeLive: bool) returns (next: Link, offered: seq<Offering>, failed: Option<nat>)
      requires AllSegmentsExist(link.tx)
      ensures Submission(next, offered, failed) == Submit(link, now, routeLive)
    {
      ObserveKeepsSegmentsExist(link.tx, now, link.limits);
      hide ObserveAll, AllSegmentsExist, Selected, OfferAll, Offerings, TdmaTime.Diff;
      var tx;
      tx, failed := ObserveQueue(link.tx, now, link.limits);
      next, offered := link.(tx := tx), [];
      if failed.Some? {
        return;
      }
      if !next.receiverReady {
        if next.notReadySince.Some? && now.Diff(next.notReadySince.value) >= T271_RECEIVER_NOT_READY {
          next := next.(receiverReady := true, notReadySince := None);
        } else if next.notReadySince.None? {
          return;
        }
      }
      if !routeLive {
        return;
      }
      var picked := Select(next.tx, next.limits, !next.receiverReady);
      PickedMayBeOffered(next.tx, next.limits, !next.receiverReady);
      tx, offered := OfferSelected(next.tx, picked);
      next := next.(tx := tx);
    }

    /**
     The turn of one link and what follows if it failed. The program deals with the failures
     after the pass over all links; no link's turn depends on another's, so the outcome is
     the same.
     */
    method SubmitAt(issi: nat, routeLive: bool) returns (offered: seq<Offering>)
      requires issi in links && AllSegmentsExist(links[issi].tx)
      modifies this`links, this`outcome
      ensures offered == Turn(old(links)[issi], now, routeLive).offered
      ensures OnlyAt(old(links), pending, links, pending, issi, EndTick(old(At(issi)), now, routeLive).terminal)
      ensures outcome == old(outcome) + EndTick(old(At(issi)), now, routeLive).ended
    {
      hide EndLost, Turn, ResetAt, AllSegmentsExist;
      var turned, failed;
      turned, offered, failed := TurnLink(links[issi], routeLive);
      if turned.None? {
        LoseAll(links[issi].tx);
        links := links - {issi};
      } else {
        UpdateLink(issi, turned.value);
        if failed.Some? {
          BeginResetAt(issi, failed.value);
        }
      }
    }

    method SubmitNextOf(ghost todo: set<nat>, ghost links0: map<nat, Link>, ghost outcome0: map<nat, TxState>,
                        live: set<nat>, issi: nat)
        returns (offered: seq<Offering>)
      requires Valid() && issi in todo && issi in links && OnlyLoses(outcome0, outcome)
      requires TurnedAllBut(todo, links0, links, pending, now, live)
      modifies this`links, this`outcome
      ensures Valid() && OnlyLoses(outcome0, outcome)
      ensures TurnedAllBut(todo - {issi}, links0, links, pending, now, live)
      ensures issi in links0 && AllSegmentsExist(links0[issi].tx)
              && offered == Turn(links0[issi], now, issi in live).offered
    {
      OneSettles(links, pending, outcome, owner, issi);
      EndTickConserves(At(issi), now, issi in live);
      EndTickLoses(At(issi), now, issi in live);
      LosesMore(links, pending, outcome, owner, outcome0, issi, EndTick(At(issi), now, issi in live));
      OkSettles(EndTick(At(issi), now, issi in live).terminal);
      hide Sound, Settled, Settling, TurnedAllBut, OnlyAt, Turn, AfterTurn, TerminalOk, Conserves, Receipts,
           TerminalAt, AllSegmentsExist, OnlyLoses, AllLost;
      offered := SubmitAt(issi, issi in live);
      ghost var s := EndTick(old(At(issi)), now, issi in live);
      OneTerminalSteps(old(links), old(pending), old(outcome), owner, links, pending, issi, s);
      OneTerminalSettles(old(links), old(pending), links, pending, issi, s.terminal);
      TurnedOneMore(todo, links0, old(links), links, pending, now, live, issi);
    }

    /** The end of a tick: every link takes its turn; `live` are the terminals with a packet route. */
    method SubmitAdvanced(live: set<nat>) returns (offered: map<nat, seq<Offering>>)
      requires Valid()
      modifies this`links, this`outcome
      ensures Valid() && OnlyLoses(old(outcome), outcome)
      ensures TurnedAllBut({}, old(links), links, pending, now, live)
      ensures offered.Keys == old(links).Keys
      ensures forall issi <- offered ::
                AllSegmentsExist(old(links)[issi].tx)
                && offered[issi] == Turn(old(links)[issi], now, issi in live).offered
    {
      offered := map[];
      var todo := links.Keys;
      NoneTurnedYet(links, pending, now, live);
      LosesNothing(outcome);
      hide Sound, Settled, TurnedAllBut, Turn, AllSegmentsExist, OnlyLoses;
      while todo != {}
        invariant Valid() && OnlyLoses(old(outcome), outcome) && todo <= links.Keys
        invariant TurnedAllBut(todo, old(links), links, pending, now, live)
        invariant offered.Keys == old(links).Keys - todo && todo <= old(links).Keys
        invariant forall issi <- offered ::
                    AllSegmentsExist(old(links)[issi].tx)
                    && offered[issi] == Turn(old(links)[issi], now, issi in live).offered
        decreases |todo|
      {
        var issi :| issi in todo;
        var pdus := SubmitNextOf(todo, old(links), old(outcome), live, issi);
        todo := todo - {issi};
        offered := offered[issi := pdus];
        StillToDo(todo, old(links), links, pending, now, live);
      }
    }
  }

  // What an acknowledgement does to a terminal with a link: HandleAck, and a reset if that failed.
  lemma ThenResets(x: Terminal, ack: AlAck, now: TdmaTime)
    requires x.link.Some? && WellFormed(x.link.value.tx) && ack.blocks != []
    ensures var r := HandleAck(x.link.value, ack, now); var heard := x.(link := Some(r.link));
            HearAck(x, ack, now) ==
            if r.failed.None? then Stepped(heard, EndAcked(r.acked))
            else Stepped(ResetAt(heard, r.failed.value).terminal,
                         EndAcked(r.acked) + ResetAt(heard, r.failed.value).ended)
  {
    hide HandleAck, ResetAt, EndAcked;
  }

  lemma Combined(a: map<nat, TxState>, b: map<nat, TxState>, c: map<nat, TxState>)
    ensures (a + b) + c == a + (b + c)
  {
  }

  lemma StillToDo(todo: set<nat>, links0: map<nat, Link>, links: map<nat, Link>, pending: map<nat, seq<Waiting>>,
                  now: TdmaTime, live: set<nat>)
    requires TurnedAllBut(todo, links0, links, pending, now, live) && todo <= links0.Keys
    ensures todo <= links.Keys
  {
    forall issi <- todo
      ensures issi in links
    {
      assert TerminalAt(links, pending, issi) == TerminalAt(links0, pending, issi);
    }
  }

  lemma NoneTurnedYet(links: map<nat, Link>, pending: map<nat, seq<Waiting>>, now: TdmaTime, live: set<nat>)
    ensures TurnedAllBut(links.Keys, links, links, pending, now, live)
  {
    hide AllSegmentsExist;
  }

  lemma TurnedOneMore(todo: set<nat>, links0: map<nat, Link>, links: map<nat, Link>, links': map<nat, Link>,
                      pending: map<nat, seq<Waiting>>, now: TdmaTime, live: set<nat>, issi: nat)
    requires TurnedAllBut(todo, links0, links, pending, now, live) && issi in todo
    requires TurnsAt(TerminalAt(links, pending, issi))
    requires OnlyAt(links, pending, links', pending, issi,
                    EndTick(TerminalAt(links, pending, issi), now, issi in live).terminal)
    ensures TurnedAllBut(todo - {issi}, links0, links', pending, now, live)
    ensures TerminalAt(links, pending, issi) == TerminalAt(links0, pending, issi)
  {
    OthersStay(links, pending, links', pending, issi,
               EndTick(TerminalAt(links, pending, issi), now, issi in live).terminal);
    hide OnlyAt, TerminalAt, EndTick, AllSegmentsExist;
  }

  // Every terminal but those in `todo` has had its turn; no link is new.
  ghost predicate TurnedAllBut(todo: set<nat>, links0: map<nat, Link>, links: map<nat, Link>,
                               pending: map<nat, seq<Waiting>>, now: TdmaTime, live: set<nat>) {
    && (forall issi: nat | issi in todo :: TerminalAt(links, pending, issi) == TerminalAt(links0, pending, issi))
    && (forall issi: nat | issi !in todo ::
          && TurnsAt(TerminalAt(links0, pending, issi))
          && TerminalAt(links, pending, issi) == EndTick(TerminalAt(links0, pending, issi), now, issi in live).terminal)
  }

  predicate TurnsAt(x: Terminal) {
    x.link.Some? ==> AllSegmentsExist(x.link.value.tx)
  }

  lemma PickedMayBeOffered(tx: seq<TxSdu>, limits: Limits, notReady: bool)
    requires AllSegmentsExist(tx)
    ensures var picked := Selected(tx, limits, notReady);
            && (forall a | 0 <= a < |picked| :: picked[a] < |tx| && SegmentsExist(tx[picked[a]]))
            && (forall a, b | 0 <= a < b < |picked| :: picked[a] < picked[b])
  {
  }

  lemma AttachedEach(links0: map<nat, Link>, pending0: map<nat, seq<Waiting>>, outcome0: map<nat, TxState>,
                     links: map<nat, Link>, pending: map<nat, seq<Waiting>>, outcome: map<nat, TxState>, now: TdmaTime)
    requires AttachedAllBut({}, links0, pending0, outcome0, links, pending, outcome, now)
    ensures OnlyLoses(outcome0, outcome)
    ensures forall issi: nat :: TerminalAt(links, pending, issi) == Attach(TerminalAt(links0, pending0, issi),
                                                                           now).terminal
  {
    hide Attach, TerminalAt, TerminalOk;
  }

  lemma ReceivingKeepsValid(links: map<nat, Link>, pending: map<nat, seq<Waiting>>, outcome: map<nat, TxState>,
                            owner: map<nat, nat>, links': map<nat, Link>, issi: nat, link: Link)
    requires Sound(links, pending, outcome, owner) && Settled(links, pending) && issi in links
    requires OnlyAt(links, pending, links', pending, issi, TerminalAt(links, pending, issi).(link := Some(link)))
    requires link == links[issi].(nextRxNs := link.nextRxNs, rxSdus := link.rxSdus)
    ensures Sound(links', pending, outcome, owner) && Settled(links', pending)
  {
    var x := TerminalAt(links, pending, issi);
    var y := x.(link := Some(link));
    OneSettles(links, pending, outcome, owner, issi);
    assert Receipts(y) == Receipts(x);
    assert Conserves(x, Stepped(y, map[]));
    assert TerminalOk(y);
    OkSettles(y);
    hide Receipts, Settling, TerminalOk, TerminalAt, Sound, Settled, OnlyAt, Conserves;
    OneTerminalSteps(links, pending, outcome, owner, links', pending, issi, Stepped(y, map[]));
    OneTerminalSettles(links, pending, links', pending, issi, y);
    assert outcome + map[] == outcome;
  }

  // Every terminal but those in `todo` has had its waiting data attached.
  ghost predicate AttachedAllBut(todo: set<nat>, links0: map<nat, Link>, pending0: map<nat, seq<Waiting>>,
                                 outcome0: map<nat, TxState>, links: map<nat, Link>, pending: map<nat, seq<Waiting>>,
                                 outcome: map<nat, TxState>, now: TdmaTime) {
    && OnlyLoses(outcome0, outcome)
    && (forall issi: nat | issi in todo :: TerminalAt(links, pending, issi) == TerminalAt(links0, pending0, issi))
    && (forall issi: nat | issi !in todo ::
          var r := Attach(TerminalAt(links0, pending0, issi), now);
          TerminalAt(links, pending, issi) == r.terminal && TerminalOk(r.terminal) && r.ended.Keys <= outcome.Keys)
  }

  lemma AttachedOneMore(todo: set<nat>, links0: map<nat, Link>, pending0: map<nat, seq<Waiting>>,
                        outcome0: map<nat, TxState>, links: map<nat, Link>, pending: map<nat, seq<Waiting>>,
                        outcome: map<nat, TxState>, links': map<nat, Link>, pending': map<nat, seq<Waiting>>,
                        outcome': map<nat, TxState>, now: TdmaTime, issi: nat)
    requires AttachedAllBut(todo, links0, pending0, outcome0, links, pending, outcome, now) && issi in todo
    requires var r := Attach(TerminalAt(links, pending, issi), now);
             && OnlyAt(links, pending, links', pending', issi, r.terminal) && TerminalOk(r.terminal)
             && outcome' == outcome + r.ended && OnlyLoses(outcome0, outcome')
    ensures AttachedAllBut(todo - {issi}, links0, pending0, outcome0, links', pending', outcome', now)
  {
    hide Attach, OnlyAt, TerminalAt, TerminalOk;
    OthersStay(links, pending, links', pending', issi, Attach(TerminalAt(links, pending, issi), now).terminal);
  }

  lemma AttachedAll(links0: map<nat, Link>, pending0: map<nat, seq<Waiting>>, outcome0: map<nat, TxState>,
                    links: map<nat, Link>, pending: map<nat, seq<Waiting>>, outcome: map<nat, TxState>, now: TdmaTime)
    requires AttachedAllBut({}, links0, pending0, outcome0, links, pending, outcome, now)
    ensures Settled(links, pending)
  {
    hide Attach, TerminalAt, TerminalOk;
  }

  lemma OthersStay(links: map<nat, Link>, pending: map<nat, seq<Waiting>>, links': map<nat, Link>,
                   pending': map<nat, seq<Waiting>>, issi: nat, x: Terminal)
    requires OnlyAt(links, pending, links', pending', issi, x)
    ensures forall other: nat :: TerminalAt(links', pending', other) == if other == issi
            then x else TerminalAt(links, pending, other)
  {
    hide TerminalAt;
  }

  lemma NoneAttachedYet(links: map<nat, Link>, pending: map<nat, seq<Waiting>>, outcome: map<nat, TxState>,
                        owner: map<nat, nat>, now: TdmaTime)
    requires Sound(links, pending, outcome, owner)
    ensures AttachedAllBut(pending.Keys, links, pending, outcome, links, pending, outcome, now)
  {
    WithoutWaiting(links, pending, outcome, owner, now);
    hide Attach, TerminalAt, TerminalOk, Sound;
  }

  lemma WithoutWaiting(links: map<nat, Link>, pending: map<nat, seq<Waiting>>, outcome: map<nat, TxState>,
                       owner: map<nat, nat>, now: TdmaTime)
    requires Sound(links, pending, outcome, owner)
    ensures forall issi: nat | issi !in pending ::
              && Attach(TerminalAt(links, pending, issi), now) == Stepped(TerminalAt(links, pending, issi), map[])
              && TerminalOk(TerminalAt(links, pending, issi))
  {
    forall issi: nat | issi !in pending
      ensures Attach(TerminalAt(links, pending, issi), now) == Stepped(TerminalAt(links, pending, issi), map[])
      ensures TerminalOk(TerminalAt(links, pending, issi))
    {
      OneSettles(links, pending, outcome, owner, issi);
      NothingToAttach(TerminalAt(links, pending, issi), now);
    }
  }

  lemma OkSettles(x: Terminal)
    requires TerminalOk(x)
    ensures Settling(x)
  {
  }

  predicate Expired(w: Waiting, now: TdmaTime) {
    now.Diff(w.queuedAt) >= SETUP_NEGOTIATION_TIMEOUT
  }

  predicate Stays(link: Option<Link>, w: Waiting, now: TdmaTime) {
    !Expired(w, now) && !Room(link)
  }

  function MovedInto(link: Option<Link>, w: Waiting, now: TdmaTime): Option<Link> {
    if !Expired(w, now) && Room(link) then Some(Enqueue(link.value, w.receipt, Pending, w.sdu)) else link
  }

  function EndedWith(ended: map<nat, TxState>, w: Waiting, now: TdmaTime): map<nat, TxState> {
    if Expired(w, now) then ended[w.receipt := MarkReporterLost(Pending)] else ended
  }

  lemma EndedWithToo(outcome: map<nat, TxState>, ended: map<nat, TxState>, w: Waiting, now: TdmaTime)
    ensures EndedWith(outcome + ended, w, now) == outcome + EndedWith(ended, w, now)
  {
    hide Expired;
  }

  function EndedFirst(ended: map<nat, TxState>, s: Stepped): Stepped {
    s.(ended := ended + s.ended)
  }

  lemma NextWaiting(ended: map<nat, TxState>, link: Option<Link>, queue: seq<Waiting>, now: TdmaTime)
    requires queue != []
    ensures EndedFirst(ended, Attach(Terminal(link, queue), now)) ==
            if Stays(link, queue[0], now) then Stepped(Terminal(link, queue), ended)
            else EndedFirst(EndedWith(ended, queue[0], now),
                            Attach(Terminal(MovedInto(link, queue[0], now), queue[1..]), now))
  {
    hide TdmaTime.Diff, Enqueue, Attach;
    var w, rest := queue[0], queue[1..];
    var x := Terminal(link, queue);
    if Expired(w, now) {
      AttachExpired(x, now);
      var r := Attach(Terminal(link, rest), now);
      assert x.(waiting := rest) == Terminal(link, rest);
      assert ended + (map[w.receipt := MarkReporterLost(Pending)] + r.ended)
             == ended[w.receipt := MarkReporterLost(Pending)] + r.ended;
    } else if Room(link) {
      AttachNext(x, now);
    } else {
      AttachStops(x, now);
      assert ended + map[] == ended;
    }
  }

  lemma OnlyAtAgain(links: map<nat, Link>, pending: map<nat, seq<Waiting>>, links': map<nat, Link>,
                    pending': map<nat, seq<Waiting>>, links'': map<nat, Link>, pending'': map<nat, seq<Waiting>>,
                    issi: nat, x: Terminal, y: Terminal)
    requires OnlyAt(links, pending, links', pending', issi, x) && OnlyAt(links', pending', links'', pending'', issi, y)
    ensures OnlyAt(links, pending, links'', pending'', issi, y) && TerminalAt(links'', pending'', issi) == y
  {
    hide TerminalAt;
  }

  lemma PutBack(links: map<nat, Link>, pending: map<nat, seq<Waiting>>, links': map<nat, Link>,
                pending': map<nat, seq<Waiting>>, issi: nat, queue: seq<Waiting>)
    requires OnlyAt(links, pending, links', pending', issi, Terminal(TerminalAt(links', pending', issi).link, []))
    ensures OnlyAt(links, pending, links', pending'[issi := queue], issi,
                   Terminal(TerminalAt(links', pending', issi).link, queue))
  {
  }

  lemma NothingWaits(ended: map<nat, TxState>, link: Option<Link>, now: TdmaTime)
    ensures EndedFirst(ended, Attach(Terminal(link, []), now)) == Stepped(Terminal(link, []), ended)
  {
    assert ended + map[] == ended;
  }

  lemma NoneWaiting()
    ensures EndWaiting([]) == map[]
  {
  }

  lemma OneSettles(links: map<nat, Link>, pending: map<nat, seq<Waiting>>, outcome: map<nat, TxState>,
                   owner: map<nat, nat>, issi: nat)
    requires Sound(links, pending, outcome, owner)
    ensures Settling(TerminalAt(links, pending, issi))
    ensures Settled(links, pending) ==> TerminalOk(TerminalAt(links, pending, issi))
  {
    hide TerminalOk, Settling, Receipts;
  }

  lemma NothingIsLost()
    ensures EndLost([]) == map[] && EndAcked([]) == map[]
  {
  }

  lemma OwnReceiptsAreOlder(links: map<nat, Link>, pending: map<nat, seq<Waiting>>, outcome: map<nat, TxState>,
                            owner: map<nat, nat>, issi: nat, receipt: nat)
    requires Sound(links, pending, outcome, owner) && forall r <- owner :: r < receipt
    ensures forall r <- Receipts(TerminalAt(links, pending, issi)) :: r < receipt
    ensures receipt !in owner
  {
    hide Receipts, Settling;
    assert Belongs(TerminalAt(links, pending, issi), owner, issi);
  }
}
