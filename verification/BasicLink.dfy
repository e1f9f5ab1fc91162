/** The basic link: one acknowledged message at a time to each terminal, stop and wait. */
module BasicLink {
  import opened Wrappers
  import opened Tdma
  import opened TxReceipt

  const T251_SENDER_RETRY: int := 16
  const ASSIGNED_RETRY_MULTIPLIER: int := 18
  const MAX_RETRANSMITS: nat := 3
  const ASSIGNED_EXTRA_RETRANSMITS: nat := 2
  const COMMON_FINAL_GRACE: int := 4
  const ASSIGNED_FINAL_GRACE: int := 360

  // Messages to one terminal are numbered 0, 1, 2, ... in `index`, as history.
  datatype Msg = Msg(
    ssi: nat,
    index: nat,
    ns: nat,
    fixedAssigned: bool,
    firstSlot: int,         // timeslot in which the message arrived
    submittedAt: Option<TdmaTime>,
    doneAt: Option<TdmaTime>,
    everTransmitted: bool,
    reporter: TxState,
    copies: seq<TxState>,
    attemptAssigned: bool,
    observed: nat,
    retransmits: nat)

  datatype Id = Id(ssi: nat, index: nat)

  // What the route tables answer for a terminal: the copies an attempt is sent in (at least
  // one), whether one of them is on an assigned channel, and how long unfinished copies may
  // hold a retry back.
  datatype Route = Route(extraCopies: nat, onAssigned: bool, pendingWindow: nat)

  type Routes = nat -> Route

  function NewMsg(ssi: nat, index: nat, ns: nat, fixedAssigned: bool, firstSlot: int): Msg {
    Msg(ssi, index, ns, fixedAssigned, firstSlot, None, None, false, Pending, [], false, 0, 0)
  }

  function IdOf(m: Msg): Id {
    Id(m.ssi, m.index)
  }

  predicate Assigned(m: Msg) {
    m.attemptAssigned || m.fixedAssigned
  }

  function RetryTimer(m: Msg): int {
    if Assigned(m) then T251_SENDER_RETRY * ASSIGNED_RETRY_MULTIPLIER else T251_SENDER_RETRY
  }

  function RetransmitLimit(m: Msg): nat {
    if Assigned(m) then MAX_RETRANSMITS + ASSIGNED_EXTRA_RETRANSMITS else MAX_RETRANSMITS
  }

  function TransmittedCount(copies: seq<TxState>): nat {
    if copies == [] then 0 else (if copies[0].IsTransmitted() then 1 else 0) + TransmittedCount(copies[1..])
  }

  predicate AllDone(copies: seq<TxState>) {
    copies != [] && forall i | 0 <= i < |copies| :: copies[i].IsTransmitted() || copies[i].Discarded?
  }

  function MarkOnAir(reporter: TxState): TxState {
    if reporter.IsTransmitted() then reporter else reporter.Reset().MarkTransmitted()
  }

  // ----- Retransmission

  /** Take over what the MAC reported about the copies of the current attempt. */
  function NoteCopies(m: Msg, now: TdmaTime): Msg {
    var onAir := TransmittedCount(m.copies);
    if onAir > m.observed then
      m.(everTransmitted := true, observed := onAir, reporter := MarkOnAir(m.reporter), doneAt := Some(now))
    else if m.doneAt.None? && AllDone(m.copies) then m.(doneAt := Some(now))
    else m
  }

  /** A fresh attempt on every route, replacing the copies of the one before. */
  function Submit(m: Msg, now: TdmaTime, route: Route): Msg {
    m.(submittedAt := Some(now.ForwardToTimeslot(m.firstSlot)), doneAt := None,
       copies := seq(route.extraCopies + 1, _ => Pending),
       attemptAssigned := route.onAssigned, observed := 0)
  }

  datatype Retried = Retried(msg: Msg, again: bool, exhausted: bool)

  // The unsigned comparison lets a negative age pass too.
  predicate RetryDue(m: Msg, now: TdmaTime) {
    m.doneAt.Some? && !(0 <= now.Diff(m.doneAt.value) < RetryTimer(m))
  }

  predicate Deferred(m: Msg, now: TdmaTime, route: Route) {
    m.submittedAt.Some? && 0 <= now.Diff(m.submittedAt.value) < route.pendingWindow
  }

  predicate GraceOver(m: Msg, now: TdmaTime) {
    m.doneAt.Some? && now.Diff(m.doneAt.value) >= RetryTimer(m) + if Assigned(m) then ASSIGNED_FINAL_GRACE
      else COMMON_FINAL_GRACE
  }

  function Retry(m0: Msg, now: TdmaTime, route: Route): Retried {
    var m := NoteCopies(m0, now);
    if !RetryDue(m, now) || Deferred(m, now, route) then Retried(m, false, false)
    else if m.retransmits < RetransmitLimit(m) then
      Retried(Submit(m.(retransmits := m.retransmits + 1), now, route), true, false)
    else Retried(m, false, GraceOver(m, now))
  }

  datatype RetriedAll = RetriedAll(queue: seq<Msg>, again: seq<Id>, exhausted: seq<nat>)

  function RetryAll(queue: seq<Msg>, now: TdmaTime, routes: Routes): RetriedAll {
    if queue == [] then RetriedAll([], [], [])
    else
      var head := Retry(queue[0], now, routes(queue[0].ssi));
      var rest := RetryAll(queue[1..], now, routes);
      RetriedAll([head.msg] + rest.queue,
                 (if head.again then [IdOf(queue[0])] else []) + rest.again,
                 (if head.exhausted then [queue[0].ssi] else []) + rest.exhausted)
  }

  // The message a terminal has outstanding.
  function Outstanding(queue: seq<Msg>, ssi: nat): (position: nat)
    ensures position <= |queue|
    ensures position < |queue| ==> queue[position].ssi == ssi && queue[position].submittedAt.Some?
    ensures forall i | 0 <= i < position :: !(queue[i].ssi == ssi && queue[i].submittedAt.Some?)
  {
    if queue == [] then 0
    else if queue[0].ssi == ssi && queue[0].submittedAt.Some? then 0
    else 1 + Outstanding(queue[1..], ssi)
  }

  function Without(queue: seq<Msg>, i: nat): seq<Msg>
    requires i < |queue|
  {
    queue[..i] + queue[i + 1..]
  }

  type Outcome = map<Id, TxState>

  datatype Ended = Ended(queue: seq<Msg>, outcome: Outcome)

  // Give up the outstanding message of each listed terminal. The program unwraps the lookup:
  // every listed terminal has to have one.
  predicate AllOutstanding(queue: seq<Msg>, ssis: seq<nat>)
    decreases |ssis|
  {
    ssis == [] ||
    (Outstanding(queue, ssis[0]) < |queue| && AllOutstanding(Without(queue, Outstanding(queue, ssis[0])), ssis[1..]))
  }

  function GiveUp(queue: seq<Msg>, outcome: Outcome, ssis: seq<nat>): Ended
    requires AllOutstanding(queue, ssis)
    decreases |ssis|
  {
    if ssis == [] then Ended(queue, outcome)
    else
      var p := Outstanding(queue, ssis[0]);
      GiveUp(Without(queue, p), outcome[IdOf(queue[p]) := MarkReporterLost(queue[p].reporter)], ssis[1..])
  }

  // ----- First submission

  datatype Freed = Freed(queue: seq<Msg>, submitted: seq<Id>)

  /** Submit every message whose terminal has nothing outstanding before it in the queue. */
  function SubmitFree(queue: seq<Msg>, blocked: set<nat>, now: TdmaTime, routes: Routes): Freed {
    if queue == [] then Freed([], [])
    else
      var m := queue[0];
      var rest := SubmitFree(queue[1..], blocked + {m.ssi}, now, routes);
      if m.submittedAt.Some? || m.ssi in blocked then Freed([m] + rest.queue, rest.submitted)
      else Freed([Submit(m, now, routes(m.ssi))] + rest.queue, [IdOf(m)] + rest.submitted)
  }

  // ----- Acknowledgements

  // An attempt reported on the air but not yet noted counts as transmitted.
  function CatchUp(m: Msg): Msg {
    if m.doneAt.None? && (m.reporter.IsTransmitted() || TransmittedCount(m.copies) > 0)
    then m.(everTransmitted := true, reporter := MarkOnAir(m.reporter)) else m
  }

  predicate Answers(m: Msg, nr: nat, sameProtection: bool) {
    (m.doneAt.Some? || m.everTransmitted) && sameProtection && m.ns == nr
  }

  // Nobody has completed the receipt of a queued message.
  predicate Open(m: Msg) {
    m.reporter.Pending? || m.reporter.Transmitted?
  }

  function HearAck(queue: seq<Msg>, outcome: Outcome, ssi: nat, nr: nat, sameProtection: bool): Ended
    requires forall i | 0 <= i < |queue| :: Open(queue[i])
  {
    var p := Outstanding(queue, ssi);
    if p == |queue| then Ended(queue, outcome)
    else
      assert Open(queue[p]);
      var m := CatchUp(queue[p]);
      if Answers(m, nr, sameProtection)
      then Ended(Without(queue, p), outcome[IdOf(m) := MarkOnAir(m.reporter).MarkAcknowledged()])
      else Ended([m] + Without(queue, p), outcome)
  }

  // ----- The queue of one terminal

  function Lane(queue: seq<Msg>, ssi: nat): seq<Msg> {
    if queue == [] then []
    else (if queue[0].ssi == ssi then [queue[0]] else []) + Lane(queue[1..], ssi)
  }

  // Never handed to the MAC.
  predicate Fresh(m: Msg) {
    && m.submittedAt.None? && m.doneAt.None? && !m.everTransmitted && m.reporter.Pending? && m.copies == []
    && m.observed == 0 && m.retransmits == 0
  }

  predicate MsgOk(m: Msg) {
    && Open(m) && m.ns == m.index % 2
    && m.retransmits <= MAX_RETRANSMITS + ASSIGNED_EXTRA_RETRANSMITS
    && (m.submittedAt.None? ==> Fresh(m))
  }

  /**
   One terminal's messages, `accepted` of them so far: the queue holds the latest ones in
   order, and only the first can have been submitted.
   */
  predicate LaneOk(lane: seq<Msg>, ssi: nat, accepted: nat) {
    && |lane| <= accepted
    && forall i | 0 <= i < |lane| ::
         && lane[i].ssi == ssi && lane[i].index == accepted - |lane| + i && MsgOk(lane[i])
         && (i > 0 ==> Fresh(lane[i]))
  }

  // Exactly the messages numbered below `below` have ended, each as acknowledged or lost.
  ghost predicate Completed(outcome: Outcome, ssi: nat, below: int) {
    forall k: nat :: (Id(ssi, k) in outcome <==> k < below)
      && (k < below ==> outcome[Id(ssi, k)].Acknowledged? || outcome[Id(ssi, k)].Lost?)
  }

  function Accepted(accepted: map<nat, nat>, ssi: nat): nat {
    if ssi in accepted then accepted[ssi] else 0
  }

  function SendSeq(sendSeq: map<nat, nat>, ssi: nat): nat {
    if ssi in sendSeq then sendSeq[ssi] else 0
  }

  lemma {:induction false} LaneConcat(a: seq<Msg>, b: seq<Msg>, ssi: nat)
    ensures Lane(a + b, ssi) == Lane(a, ssi) + Lane(b, ssi)
  {
    hide Lane;
    if a == [] {
      LaneOfNone(ssi);
      assert a + b == b;
    } else {
      LaneConcat(a[1..], b, ssi);
      LaneHead(a, ssi);
      assert a + b == [a[0]] + (a[1..] + b);
      LaneCons(a[0], a[1..] + b, ssi);
      Regroup(if a[0].ssi == ssi then [a[0]] else [], Lane(a[1..], ssi), Lane(b, ssi));
    }
  }

  lemma LaneOfNone(ssi: nat)
    ensures Lane([], ssi) == []
  {
  }

  lemma Regroup(a: seq<Msg>, b: seq<Msg>, c: seq<Msg>)
    ensures (a + b) + c == a + (b + c)
  {
  }

  lemma LaneCons(m: Msg, queue: seq<Msg>, ssi: nat)
    ensures Lane([m] + queue, ssi) == (if m.ssi == ssi then [m] else []) + Lane(queue, ssi)
  {
    assert ([m] + queue)[1..] == queue;
  }

  lemma LaneHead(queue: seq<Msg>, ssi: nat)
    requires queue != []
    ensures Lane(queue, ssi) == (if queue[0].ssi == ssi then [queue[0]] else []) + Lane(queue[1..], ssi)
  {
  }

  lemma {:induction false} LaneMembers(queue: seq<Msg>, ssi: nat, m: Msg)
    ensures m in Lane(queue, ssi) <==> m in queue && m.ssi == ssi
  {
    if queue != [] {
      LaneMembers(queue[1..], ssi, m);
      assert queue == [queue[0]] + queue[1..];
    }
  }

  lemma LaneOfOne(m: Msg, ssi: nat)
    ensures Lane([m], ssi) == if m.ssi == ssi then [m] else []
  {
    assert [m][1..] == [];
  }

  // The first message of a lane sits at `p` in the queue, none of the lane before it.
  lemma LaneAt(queue: seq<Msg>, p: nat, ssi: nat)
    requires p < |queue|
    ensures Lane(queue, ssi) == Lane(queue[..p], ssi) + (if queue[p].ssi == ssi then [queue[p]] else [])
            + Lane(queue[p + 1..], ssi)
    ensures Lane(Without(queue, p), ssi) == Lane(queue[..p], ssi) + Lane(queue[p + 1..], ssi)
  {
    LaneConcat(queue[..p], queue[p..], ssi);
    LaneConcat([queue[p]], queue[p + 1..], ssi);
    LaneConcat(queue[..p], queue[p + 1..], ssi);
    LaneOfOne(queue[p], ssi);
    assert queue == queue[..p] + queue[p..] && queue[p..] == [queue[p]] + queue[p + 1..];
  }

  /** What a terminal has outstanding is the first message of its lane, if that was submitted. */
  lemma OutstandingIsFirst(queue: seq<Msg>, ssi: nat, accepted: nat)
    requires LaneOk(Lane(queue, ssi), ssi, accepted)
    ensures var p, lane := Outstanding(queue, ssi), Lane(queue, ssi);
            && (p < |queue| <==> lane != [] && lane[0].submittedAt.Some?)
            && (p < |queue| ==> lane[0] == queue[p] && Lane(queue[..p], ssi) == [])
  {
    var p, lane := Outstanding(queue, ssi), Lane(queue, ssi);
    if p < |queue| {
      LaneAt(queue, p, ssi);
      assert lane[|Lane(queue[..p], ssi)|] == queue[p];
    } else if lane != [] {
      LaneMembers(queue, ssi, lane[0]);
      assert lane[0] in lane;
      var i :| 0 <= i < |queue| && queue[i] == lane[0];
    }
  }

  // ----- Every step keeps every lane

  lemma NoteKeeps(m: Msg, now: TdmaTime)
    requires MsgOk(m)
    ensures MsgOk(NoteCopies(m, now)) && IdOf(NoteCopies(m, now)) == IdOf(m)
    ensures NoteCopies(m, now).submittedAt == m.submittedAt
    ensures Fresh(m) ==> NoteCopies(m, now) == m
  {
  }

  lemma RetryKeeps(m: Msg, now: TdmaTime, route: Route)
    requires MsgOk(m)
    ensures var r := Retry(m, now, route);
            && MsgOk(r.msg) && IdOf(r.msg) == IdOf(m)
            && (Fresh(m) ==> r == Retried(m, false, false))
            && (r.exhausted ==> r.msg.submittedAt.Some?)
            && r.msg.retransmits == m.retransmits + (if r.again then 1 else 0)
            && (r.msg.submittedAt.Some? <==> m.submittedAt.Some?)
            && !(r.again && r.exhausted)
  {
    NoteKeeps(m, now);
    hide NoteCopies, TdmaTime.Diff;
  }

  lemma RetryKeepsSsi(m: Msg, now: TdmaTime, route: Route)
    ensures IdOf(Retry(m, now, route).msg) == IdOf(m)
  {
    hide TdmaTime.Diff;
  }

  // Message by message, `after` is `before` retried.
  predicate IsRetried(before: seq<Msg>, after: seq<Msg>, now: TdmaTime, routes: Routes) {
    |after| == |before| && forall i | 0 <= i < |before| :: after[i] == Retry(before[i], now, routes(before[i].ssi)).msg
  }

  lemma {:induction false} RetryAllPointwise(queue: seq<Msg>, now: TdmaTime, routes: Routes)
    ensures IsRetried(queue, RetryAll(queue, now, routes).queue, now, routes)
  {
    hide Retry;
    if queue != [] {
      RetryAllPointwise(queue[1..], now, routes);
    }
  }

  /** Retrying keeps each lane's messages in their order. */
  lemma {:induction false} RetriedLane(before: seq<Msg>, after: seq<Msg>, now: TdmaTime, routes: Routes, ssi: nat)
    requires IsRetried(before, after, now, routes)
    ensures IsRetried(Lane(before, ssi), Lane(after, ssi), now, routes)
  {
    hide Retry;
    if before != [] {
      RetryKeepsSsi(before[0], now, routes(before[0].ssi));
      RetriedLane(before[1..], after[1..], now, routes, ssi);
    }
  }

  lemma RetriedLaneOk(before: seq<Msg>, after: seq<Msg>, now: TdmaTime, routes: Routes, ssi: nat, accepted: nat)
    requires LaneOk(before, ssi, accepted) && IsRetried(before, after, now, routes)
    ensures LaneOk(after, ssi, accepted)
  {
    hide Retry, MsgOk, Fresh;
    forall i | 0 <= i < |before|
      ensures after[i].ssi == ssi && after[i].index == before[i].index && MsgOk(after[i])
              && (Fresh(before[i]) ==> after[i] == before[i])
    {
      RetryKeeps(before[i], now, routes(before[i].ssi));
    }
  }

  // ----- Giving up

  ghost predicate AllLanes(queue: seq<Msg>, accepted: map<nat, nat>) {
    forall ssi: nat :: LaneOk(Lane(queue, ssi), ssi, Accepted(accepted, ssi))
  }

  predicate Distinct(ssis: seq<nat>) {
    forall i, j | 0 <= i < j < |ssis| :: ssis[i] != ssis[j]
  }

  predicate IsOut(lane: seq<Msg>) {
    lane != [] && lane[0].submittedAt.Some?
  }

  lemma TailLaneOk(lane: seq<Msg>, ssi: nat, accepted: nat)
    requires LaneOk(lane, ssi, accepted) && lane != []
    ensures LaneOk(lane[1..], ssi, accepted)
  {
    hide MsgOk, Fresh;
  }

  /** Taking a terminal's outstanding message takes the first of its lane and leaves the other lanes alone. */
  lemma TakeFirst(queue: seq<Msg>, ssi: nat, accepted: map<nat, nat>)
    requires AllLanes(queue, accepted) && IsOut(Lane(queue, ssi))
    ensures var p := Outstanding(queue, ssi);
            && p < |queue| && queue[p] == Lane(queue, ssi)[0]
            && (forall other: nat :: Lane(Without(queue, p), other) == if other == ssi
                then Lane(queue, ssi)[1..] else Lane(queue, other))
            && AllLanes(Without(queue, p), accepted)
  {
    hide LaneOk, Lane, Outstanding, Accepted;
    var p := Outstanding(queue, ssi);
    LaneIsOk(queue, accepted, ssi);
    OutstandingIsFirst(queue, ssi, Accepted(accepted, ssi));
    forall other: nat
      ensures Lane(Without(queue, p), other) == if other == ssi then Lane(queue, ssi)[1..] else Lane(queue, other)
      ensures LaneOk(Lane(Without(queue, p), other), other, Accepted(accepted, other))
    {
      LaneIsOk(queue, accepted, other);
      TakeFromLane(queue, p, ssi, other, Accepted(accepted, other));
    }
    AllLanesFrom(Without(queue, p), accepted);
  }

  lemma TakeFromLane(queue: seq<Msg>, p: nat, ssi: nat, other: nat, accepted: nat)
    requires p < |queue| && queue[p].ssi == ssi && Lane(queue[..p], ssi) == [] && Lane(queue, ssi) != []
    requires LaneOk(Lane(queue, other), other, accepted)
    ensures Lane(Without(queue, p), other) == if other == ssi then Lane(queue, ssi)[1..] else Lane(queue, other)
    ensures LaneOk(Lane(Without(queue, p), other), other, accepted)
  {
    LaneAt(queue, p, other);
    hide LaneOk, Lane, Without;
    if other == ssi {
      TailLaneOk(Lane(queue, ssi), ssi, accepted);
    }
  }

  predicate GivenUp(lane: seq<Msg>, ssis: seq<nat>, id: Id) {
    id.ssi in ssis && lane != [] && id == IdOf(lane[0])
  }

  // The receipts after giving up the listed terminals: their outstanding messages are lost.
  ghost predicate LostOnly(queue: seq<Msg>, outcome: Outcome, ssis: seq<nat>, after: Outcome) {
    forall id: Id ::
      if GivenUp(Lane(queue, id.ssi), ssis, id) then id in after && after[id] == Lost
      else (id in after <==> id in outcome) && (id in outcome ==> after[id] == outcome[id])
  }

  lemma FirstIsOpen(lane: seq<Msg>, ssi: nat, accepted: nat)
    requires LaneOk(lane, ssi, accepted) && lane != []
    ensures Open(lane[0]) && lane[0].ssi == ssi && forall i | 1 <= i < |lane| :: IdOf(lane[i]) != IdOf(lane[0])
  {
  }

  lemma LostOneMore(queue: seq<Msg>, outcome: Outcome, ssis: seq<nat>, mid: seq<Msg>, ended: Outcome, after: Outcome)
    requires ssis != [] && Distinct(ssis) && Lane(queue, ssis[0]) != []
    requires forall other: nat | other != ssis[0] :: Lane(mid, other) == Lane(queue, other)
    requires Lane(queue, ssis[0])[0].ssi == ssis[0] && ended == outcome[IdOf(Lane(queue, ssis[0])[0]) := Lost]
    requires LostOnly(mid, ended, ssis[1..], after)
    ensures LostOnly(queue, outcome, ssis, after)
  {
    assert ssis == [ssis[0]] + ssis[1..];
    assert ssis[0] !in ssis[1..];
    forall id: Id
      ensures id.ssi != ssis[0] ==> (GivenUp(Lane(queue, id.ssi), ssis, id)
                                     <==> GivenUp(Lane(mid, id.ssi), ssis[1..], id))
      ensures id.ssi == ssis[0] ==> !GivenUp(Lane(mid, id.ssi), ssis[1..], id)
    {
    }
  }

  /** The lookup the program unwraps always finds a message: the first of the terminal's lane. */
  lemma {:induction false} GiveUpFindsAll(queue: seq<Msg>, outcome: Outcome, ssis: seq<nat>, accepted: map<nat, nat>)
    requires AllLanes(queue, accepted) && Distinct(ssis) && forall ssi <- ssis :: IsOut(Lane(queue, ssi))
    ensures AllOutstanding(queue, ssis)
    ensures var r := GiveUp(queue, outcome, ssis);
            && AllLanes(r.queue, accepted)
            && (forall ssi: nat :: Lane(r.queue, ssi) == if ssi in ssis && Lane(queue, ssi) != []
                then Lane(queue, ssi)[1..] else Lane(queue, ssi))
    decreases |ssis|
  {
    hide LaneOk, Lane, Outstanding, Without;
    if ssis != [] {
      var p := Outstanding(queue, ssis[0]);
      TakeFirst(queue, ssis[0], accepted);
      OthersOut(queue, Without(queue, p), ssis);
      hide AllLanes, IsOut, Distinct;
      assert ssis == [ssis[0]] + ssis[1..];
      GiveUpFindsAll(Without(queue, p), outcome[IdOf(queue[p]) := MarkReporterLost(queue[p].reporter)],
                     ssis[1..], accepted);
    }
  }

  /** Giving up a terminal ends its outstanding message as lost and touches no other receipt. */
  lemma {:induction false} GiveUpLoses(queue: seq<Msg>, outcome: Outcome, ssis: seq<nat>, accepted: map<nat, nat>)
    requires AllLanes(queue, accepted) && Distinct(ssis) && forall ssi <- ssis :: IsOut(Lane(queue, ssi))
    ensures AllOutstanding(queue, ssis) && LostOnly(queue, outcome, ssis, GiveUp(queue, outcome, ssis).outcome)
    decreases |ssis|
  {
    GiveUpFindsAll(queue, outcome, ssis, accepted);
    if ssis == [] {
      assert LostOnly(queue, outcome, ssis, outcome);
    } else {
      var p := Outstanding(queue, ssis[0]);
      LaneIsOk(queue, accepted, ssis[0]);
      FirstIsOpen(Lane(queue, ssis[0]), ssis[0], Accepted(accepted, ssis[0]));
      TakeFirst(queue, ssis[0], accepted);
      hide AllLanes, LostOnly, LaneOk, Accepted;
      var ended := outcome[IdOf(queue[p]) := MarkReporterLost(queue[p].reporter)];
      OthersOut(queue, Without(queue, p), ssis);
      GiveUpLoses(Without(queue, p), ended, ssis[1..], accepted);
      LostOneMore(queue, outcome, ssis, Without(queue, p), ended, GiveUp(queue, outcome, ssis).outcome);
    }
  }

  lemma OthersOut(queue: seq<Msg>, mid: seq<Msg>, ssis: seq<nat>)
    requires ssis != [] && Distinct(ssis) && forall ssi <- ssis :: IsOut(Lane(queue, ssi))
    requires forall other: nat | other != ssis[0] :: Lane(mid, other) == Lane(queue, other)
    ensures Distinct(ssis[1..]) && forall ssi <- ssis[1..] :: IsOut(Lane(mid, ssi))
  {
    assert ssis == [ssis[0]] + ssis[1..];
    assert ssis[0] !in ssis[1..];
  }

  lemma LaneIsOk(queue: seq<Msg>, accepted: map<nat, nat>, ssi: nat)
    requires AllLanes(queue, accepted)
    ensures LaneOk(Lane(queue, ssi), ssi, Accepted(accepted, ssi))
  {
    hide LaneOk;
  }

  // Only the first message of a terminal in the queue can have been submitted.
  ghost predicate Solo(queue: seq<Msg>) {
    && (forall i | 0 <= i < |queue| :: MsgOk(queue[i]))
    && forall i, j | 0 <= i < j < |queue| && queue[i].ssi == queue[j].ssi :: Fresh(queue[j])
  }

  lemma LanesAreSolo(queue: seq<Msg>, accepted: map<nat, nat>)
    requires AllLanes(queue, accepted)
    ensures Solo(queue)
  {
    hide MsgOk, Fresh, Accepted;
    forall j | 0 <= j < |queue|
      ensures MsgOk(queue[j])
      ensures forall i | 0 <= i < j && queue[i].ssi == queue[j].ssi :: Fresh(queue[j])
    {
      var ssi := queue[j].ssi;
      LaneIsOk(queue, accepted, ssi);
      LaneAt(queue, j, ssi);
      var before := Lane(queue[..j], ssi);
      assert Lane(queue, ssi)[|before|] == queue[j];
      forall i | 0 <= i < j && queue[i].ssi == ssi
        ensures |before| > 0
      {
        LaneMembers(queue[..j], ssi, queue[i]);
        assert queue[..j][i] == queue[i];
      }
    }
  }

  // The message of `ssi` that has used up its retransmissions.
  ghost predicate HasExhausted(queue: seq<Msg>, now: TdmaTime, routes: Routes, ssi: nat) {
    exists m :: m in queue && m.ssi == ssi && m.submittedAt.Some? && Retry(m, now, routes(ssi)).exhausted
  }

  lemma {:induction false} ExhaustedOnce(queue: seq<Msg>, now: TdmaTime, routes: Routes)
    requires Solo(queue)
    ensures var exhausted := RetryAll(queue, now, routes).exhausted;
            && Distinct(exhausted)
            && forall ssi <- exhausted :: HasExhausted(queue, now, routes, ssi)
  {
    hide Retry, MsgOk;
    if queue != [] {
      var rest := RetryAll(queue[1..], now, routes);
      ExhaustedOnce(queue[1..], now, routes);
      RetryKeeps(queue[0], now, routes(queue[0].ssi));
      assert queue == [queue[0]] + queue[1..];
      forall ssi <- rest.exhausted
        ensures HasExhausted(queue, now, routes, ssi)
        ensures ssi == queue[0].ssi ==> queue[0].submittedAt.None?
      {
        var m :| m in queue[1..] && m.ssi == ssi && m.submittedAt.Some? && Retry(m, now, routes(ssi)).exhausted;
        var j :| 0 <= j < |queue[1..]| && queue[1..][j] == m;
        assert queue[j + 1] == m;
      }
      if Retry(queue[0], now, routes(queue[0].ssi)).exhausted {
        assert queue[0].submittedAt.Some?;
        assert HasExhausted(queue, now, routes, queue[0].ssi);
      }
    }
  }

  /**
   After a retry pass every terminal flagged as exhausted is flagged once, and the message
   outstanding there is the one that used up its retransmissions.
   */
  lemma ExhaustedAreOut(queue: seq<Msg>, now: TdmaTime, routes: Routes, accepted: map<nat, nat>)
    requires AllLanes(queue, accepted)
    ensures var r := RetryAll(queue, now, routes);
            && AllLanes(r.queue, accepted) && Distinct(r.exhausted)
            && forall ssi <- r.exhausted ::
                 IsOut(Lane(r.queue, ssi)) && IsOut(Lane(queue, ssi))
                   && Retry(Lane(queue, ssi)[0], now, routes(ssi)).exhausted
  {
    var r := RetryAll(queue, now, routes);
    LanesAreSolo(queue, accepted);
    ExhaustedOnce(queue, now, routes);
    RetryAllPointwise(queue, now, routes);
    hide Retry, LaneOk, Solo, Accepted, IsRetried;
    forall ssi: nat
      ensures LaneOk(Lane(r.queue, ssi), ssi, Accepted(accepted, ssi))
    {
      LaneIsOk(queue, accepted, ssi);
      RetriedLane(queue, r.queue, now, routes, ssi);
      RetriedLaneOk(Lane(queue, ssi), Lane(r.queue, ssi), now, routes, ssi, Accepted(accepted, ssi));
    }
    forall ssi <- r.exhausted
      ensures IsOut(Lane(r.queue, ssi)) && IsOut(Lane(queue, ssi))
              && Retry(Lane(queue, ssi)[0], now, routes(ssi)).exhausted
    {
      var m :| m in queue && m.ssi == ssi && m.submittedAt.Some? && Retry(m, now, routes(ssi)).exhausted;
      LaneMembers(queue, ssi, m);
      LaneIsOk(queue, accepted, ssi);
      RetriedLane(queue, r.queue, now, routes, ssi);
      OnlyFirstIsSubmitted(Lane(queue, ssi), ssi, Accepted(accepted, ssi), m);
      RetriedStaysOut(Lane(queue, ssi), Lane(r.queue, ssi), now, routes, ssi, Accepted(accepted, ssi));
    }
  }

  lemma OnlyFirstIsSubmitted(lane: seq<Msg>, ssi: nat, accepted: nat, m: Msg)
    requires LaneOk(lane, ssi, accepted) && m in lane && m.submittedAt.Some?
    ensures IsOut(lane) && m == lane[0]
  {
    hide MsgOk;
  }

  lemma RetriedStaysOut(before: seq<Msg>, after: seq<Msg>, now: TdmaTime, routes: Routes, ssi: nat, accepted: nat)
    requires LaneOk(before, ssi, accepted) && IsOut(before) && IsRetried(before, after, now, routes)
    ensures IsOut(after)
  {
    RetryKeeps(before[0], now, routes(before[0].ssi));
    hide Retry, MsgOk;
  }

  // ----- Submission, acknowledgement, new messages

  predicate Free(lane: seq<Msg>) {
    lane != [] && lane[0].submittedAt.None?
  }

  function Freshly(lane: seq<Msg>, now: TdmaTime, route: Route): seq<Msg>
    requires Free(lane)
  {
    [Submit(lane[0], now, route)] + lane[1..]
  }

  /** A terminal with nothing outstanding gets exactly the first message of its lane submitted. */
  lemma {:induction false} SubmitFreeLane(queue: seq<Msg>, blocked: set<nat>, now: TdmaTime, routes: Routes, ssi: nat)
    ensures var r, lane := SubmitFree(queue, blocked, now, routes), Lane(queue, ssi);
            && Lane(r.queue, ssi) == (if ssi !in blocked && Free(lane) then Freshly(lane, now, routes(ssi)) else lane)
            && forall k: nat :: Id(ssi, k) in r.submitted <==> ssi !in blocked && Free(lane) && lane[0].index == k
    decreases |queue|
  {
    hide Submit;
    if queue != [] {
      var m := queue[0];
      var r, rest := SubmitFree(queue, blocked, now, routes), SubmitFree(queue[1..], blocked + {m.ssi}, now, routes);
      SubmitFreeLane(queue[1..], blocked + {m.ssi}, now, routes, ssi);
      SubmitKeepsId(m, now, routes(m.ssi));
      assert r.queue[1..] == rest.queue;
      InFront(IdOf(m), rest.submitted);
      FirstOfLane(queue, ssi);
    }
  }

  lemma FirstOfLane(queue: seq<Msg>, ssi: nat)
    requires queue != []
    ensures queue[0].ssi == ssi ==> Lane(queue, ssi)[0] == queue[0] && Lane(queue, ssi)[1..] == Lane(queue[1..], ssi)
    ensures queue[0].ssi != ssi ==> Lane(queue, ssi) == Lane(queue[1..], ssi)
  {
  }

  lemma InFront(id: Id, ids: seq<Id>)
    ensures forall other: Id :: other in [id] + ids <==> other == id || other in ids
  {
  }

  lemma SubmitKeepsId(m: Msg, now: TdmaTime, route: Route)
    ensures IdOf(Submit(m, now, route)) == IdOf(m)
  {
  }

  lemma FreshlyOk(lane: seq<Msg>, ssi: nat, accepted: nat, now: TdmaTime, route: Route)
    requires LaneOk(lane, ssi, accepted) && Free(lane)
    ensures LaneOk(Freshly(lane, now, route), ssi, accepted)
  {
    assert MsgOk(lane[0]);
  }

  /** An acknowledgement can only complete the outstanding message, and then only by its own N(S). */
  lemma HearAckLane(queue: seq<Msg>, outcome: Outcome, ssi: nat, nr: nat, sameProtection: bool, accepted: map<nat, nat>)
    requires AllLanes(queue, accepted)
    ensures forall i | 0 <= i < |queue| :: Open(queue[i])
    ensures var r, lane := HearAck(queue, outcome, ssi, nr, sameProtection), Lane(queue, ssi);
            var done := IsOut(lane) && Answers(CatchUp(lane[0]), nr, sameProtection);
            && (forall other: nat | other != ssi :: Lane(r.queue, other) == Lane(queue, other))
            && Lane(r.queue, ssi) == (if done then lane[1..]
                                      else if IsOut(lane) then [CatchUp(lane[0])] + lane[1..] else lane)
            && r.outcome == (if done then outcome[IdOf(lane[0]) := Acknowledged] else outcome)
  {
    LanesAreSolo(queue, accepted);
    AllAreOpen(queue);
    var p := Outstanding(queue, ssi);
    LaneIsOk(queue, accepted, ssi);
    OutstandingIsFirst(queue, ssi, Accepted(accepted, ssi));
    if p < |queue| {
      TakeFirst(queue, ssi, accepted);
      hide LaneOk, AllLanes, Solo;
      var m := CatchUp(queue[p]);
      CatchUpKeepsId(queue[p]);
      forall other: nat
        ensures Lane([m] + Without(queue, p), other) == (if other == ssi then [m] else [])
                + Lane(Without(queue, p), other)
      {
        LaneConcat([m], Without(queue, p), other);
        LaneOfOne(m, other);
      }
    }
  }

  lemma AllAreOpen(queue: seq<Msg>)
    requires Solo(queue)
    ensures forall i | 0 <= i < |queue| :: Open(queue[i])
  {
    hide Fresh;
  }

  lemma CatchUpKeepsId(m: Msg)
    ensures IdOf(CatchUp(m)) == IdOf(m) && CatchUp(m).submittedAt == m.submittedAt
    ensures MsgOk(m) && m.submittedAt.Some? ==> MsgOk(CatchUp(m))
  {
  }

  // ----- Runs

  // The basic-link state of the LLC; `accepted` counts each terminal's messages, as history.
  datatype Link = Link(queue: seq<Msg>, sendSeq: map<nat, nat>, outcome: Outcome, accepted: map<nat, nat>)

  datatype Action =
    | Request(ssi: nat, fixedAssigned: bool, firstSlot: int)
    | Report(position: nat, copy: nat, aired: bool)
    | Ack(from: nat, nr: nat, sameProtection: bool)
    | EndTick(now: TdmaTime, routes: Routes)

  function Requested(l: Link, ssi: nat, fixedAssigned: bool, firstSlot: int): Link {
    var ns := SendSeq(l.sendSeq, ssi);
    l.(queue := l.queue + [NewMsg(ssi, Accepted(l.accepted, ssi), ns, fixedAssigned, firstSlot)],
       sendSeq := l.sendSeq[ssi := (ns + 1) % 2],
       accepted := l.accepted[ssi := Accepted(l.accepted, ssi) + 1])
  }

  // The MAC reports on one copy of an attempt.
  predicate CanReport(l: Link, position: nat, copy: nat) {
    position < |l.queue| && copy < |l.queue[position].copies| && l.queue[position].copies[copy].Pending?
  }

  function Reported(l: Link, position: nat, copy: nat, aired: bool): Link
    requires CanReport(l, position, copy)
  {
    var m := l.queue[position];
    l.(queue := l.queue[position := m.(copies := m.copies[copy := if aired then Transmitted else Discarded])])
  }

  datatype Ticked = Ticked(link: Link, again: seq<Id>, submitted: seq<Id>)

  predicate CanTick(l: Link, now: TdmaTime, routes: Routes) {
    var r := RetryAll(l.queue, now, routes);
    AllOutstanding(r.queue, r.exhausted)
  }

  // The queue and receipts between giving up and first submissions.
  function LeftOver(l: Link, now: TdmaTime, routes: Routes): Ended
    requires CanTick(l, now, routes)
  {
    var r := RetryAll(l.queue, now, routes);
    GiveUp(r.queue, l.outcome, r.exhausted)
  }

  /** The end of a tick: retries, then messages given up, then first submissions. */
  function Tick(l: Link, now: TdmaTime, routes: Routes): Ticked
    requires CanTick(l, now, routes)
  {
    var left := LeftOver(l, now, routes);
    var free := SubmitFree(left.queue, {}, now, routes);
    Ticked(l.(queue := free.queue, outcome := left.outcome), RetryAll(l.queue, now, routes).again, free.submitted)
  }

  // The lane of a terminal is in order, and exactly what left it has ended.
  ghost predicate LaneStands(queue: seq<Msg>, outcome: Outcome, ssi: nat, accepted: nat) {
    LaneOk(Lane(queue, ssi), ssi, accepted) && Completed(outcome, ssi, accepted - |Lane(queue, ssi)|)
  }

  /** The invariant: every lane is in order, and exactly what left a lane has ended. */
  ghost predicate Inv(l: Link) {
    && AllLanes(l.queue, l.accepted)
    && (forall ssi: nat :: Completed(l.outcome, ssi, Accepted(l.accepted, ssi) - |Lane(l.queue, ssi)|))
    && (forall ssi: nat :: SendSeq(l.sendSeq, ssi) == Accepted(l.accepted, ssi) % 2)
  }

  lemma RequestKeeps(l: Link, ssi: nat, fixedAssigned: bool, firstSlot: int)
    requires Inv(l)
    ensures Inv(Requested(l, ssi, fixedAssigned, firstSlot))
  {
    var after := Requested(l, ssi, fixedAssigned, firstSlot);
    forall other: nat
      ensures TerminalOk(after, other)
    {
      RequestOne(l, ssi, fixedAssigned, firstSlot, other);
    }
    hide Requested, TerminalOk, Inv;
    InvFrom(after);
  }

  lemma RequestOne(l: Link, ssi: nat, fixedAssigned: bool, firstSlot: int, other: nat)
    requires Inv(l)
    ensures TerminalOk(Requested(l, ssi, fixedAssigned, firstSlot), other)
  {
    var m := NewMsg(ssi, Accepted(l.accepted, ssi), SendSeq(l.sendSeq, ssi), fixedAssigned, firstSlot);
    OneTerminalOk(l, ssi);
    OneTerminalOk(l, other);
    hide LaneStands, Inv, Accepted, SendSeq, Requested;
    RequestCounts(l, ssi, fixedAssigned, firstSlot, other);
    if other == ssi {
      NextParity(Accepted(l.accepted, ssi));
    }
    AppendStands(l.queue, l.outcome, m, other, Accepted(l.accepted, other));
  }

  lemma AppendStands(queue: seq<Msg>, outcome: Outcome, m: Msg, ssi: nat, accepted: nat)
    requires LaneStands(queue, outcome, ssi, accepted)
    requires m.ssi == ssi ==> Fresh(m) && m.index == accepted && m.ns == accepted % 2
    ensures LaneStands(queue + [m], outcome, ssi, accepted + if m.ssi == ssi then 1 else 0)
  {
    AppendedLane(queue, m, ssi);
    hide LaneOk, Lane, Completed;
    if m.ssi == ssi {
      AppendLaneOk(Lane(queue, ssi), ssi, accepted, m);
    }
  }

  lemma NextParity(n: nat)
    ensures (n % 2 + 1) % 2 == (n + 1) % 2
  {
  }

  // What a request changes of the counts of terminal `other`.
  lemma RequestCounts(l: Link, ssi: nat, fixedAssigned: bool, firstSlot: int, other: nat)
    ensures var after := Requested(l, ssi, fixedAssigned, firstSlot);
            && after.queue == l.queue + [NewMsg(ssi, Accepted(l.accepted, ssi), SendSeq(l.sendSeq, ssi),
                                                fixedAssigned, firstSlot)]
            && after.outcome == l.outcome
            && Accepted(after.accepted, other) == Accepted(l.accepted, other) + (if other == ssi then 1 else 0)
            && SendSeq(after.sendSeq, other) == if other == ssi then (SendSeq(l.sendSeq, ssi) + 1) % 2
               else SendSeq(l.sendSeq, other)
  {
  }

  lemma AppendedLane(queue: seq<Msg>, m: Msg, ssi: nat)
    ensures Lane(queue + [m], ssi) == if m.ssi == ssi then Lane(queue, ssi) + [m] else Lane(queue, ssi)
  {
    LaneConcat(queue, [m], ssi);
    LaneOfOne(m, ssi);
    assert Lane(queue, ssi) + [] == Lane(queue, ssi);
  }

  lemma AllLanesFrom(queue: seq<Msg>, accepted: map<nat, nat>)
    requires forall other: nat :: LaneOk(Lane(queue, other), other, Accepted(accepted, other))
    ensures AllLanes(queue, accepted)
  {
    hide LaneOk;
  }

  lemma AppendLaneOk(lane: seq<Msg>, ssi: nat, accepted: nat, m: Msg)
    requires LaneOk(lane, ssi, accepted) && Fresh(m) && m.ssi == ssi && m.index == accepted && m.ns == accepted % 2
    ensures LaneOk(lane + [m], ssi, accepted + 1)
  {
  }

  // Only what the copies of submitted messages say differs.
  lemma ReportKeeps(l: Link, position: nat, copy: nat, aired: bool)
    requires Inv(l) && CanReport(l, position, copy)
    ensures Inv(Reported(l, position, copy, aired))
  {
    var after := Reported(l, position, copy, aired);
    var m := l.queue[position];
    LanesAreSolo(l.queue, l.accepted);
    assert MsgOk(m);
    hide LaneOk, Solo, Completed;
    forall ssi: nat
      ensures |Lane(after.queue, ssi)| == |Lane(l.queue, ssi)|
              && LaneOk(Lane(after.queue, ssi), ssi, Accepted(l.accepted, ssi))
    {
      LaneIsOk(l.queue, l.accepted, ssi);
      LaneAt(l.queue, position, ssi);
      LaneAt(after.queue, position, ssi);
      assert after.queue[..position] == l.queue[..position] && after.queue[position + 1..] == l.queue[position + 1..];
      if m.ssi == ssi {
        ReplaceInLane(Lane(l.queue, ssi), ssi, Accepted(l.accepted, ssi), |Lane(l.queue[..position], ssi)|,
                      after.queue[position]);
      }
    }
    AllLanesFrom(after.queue, after.accepted);
  }

  lemma ReplaceInLane(lane: seq<Msg>, ssi: nat, accepted: nat, at: nat, m: Msg)
    requires LaneOk(lane, ssi, accepted) && at < |lane| && lane[at].submittedAt.Some?
    requires MsgOk(m) && IdOf(m) == IdOf(lane[at])
    ensures LaneOk(lane[at := m], ssi, accepted) && lane[..at] + [m] + lane[at + 1..] == lane[at := m]
  {
    hide MsgOk;
  }

  // One lane after an acknowledgement that completed its first message, or did not.
  lemma AckedLane(lane: seq<Msg>, outcome: Outcome, ssi: nat, accepted: nat, done: bool)
    requires LaneOk(lane, ssi, accepted) && Completed(outcome, ssi, accepted - |lane|) && (done ==> IsOut(lane))
    ensures var after := if done then lane[1..] else if IsOut(lane) then [CatchUp(lane[0])] + lane[1..] else lane;
            && LaneOk(after, ssi, accepted)
            && Completed(if done then outcome[IdOf(lane[0]) := Acknowledged] else outcome, ssi, accepted - |after|)
  {
    if IsOut(lane) {
      TailLaneOk(lane, ssi, accepted);
      CatchUpInLane(lane, ssi, accepted);
      assert IdOf(lane[0]) == Id(ssi, accepted - |lane|);
    }
    hide LaneOk, CatchUp;
  }

  lemma OtherOutcome(outcome: Outcome, id: Id, ssi: nat, below: int)
    requires Completed(outcome, ssi, below) && id.ssi != ssi
    ensures Completed(outcome[id := Acknowledged], ssi, below)
  {
  }

  ghost predicate TerminalOk(l: Link, ssi: nat) {
    && LaneStands(l.queue, l.outcome, ssi, Accepted(l.accepted, ssi))
    && SendSeq(l.sendSeq, ssi) == Accepted(l.accepted, ssi) % 2
  }

  lemma InvFrom(l: Link)
    requires forall ssi: nat :: TerminalOk(l, ssi)
    ensures Inv(l)
  {
    hide LaneOk, Completed, Lane, Accepted, SendSeq;
    forall ssi: nat
      ensures LaneOk(Lane(l.queue, ssi), ssi, Accepted(l.accepted, ssi))
      ensures Completed(l.outcome, ssi, Accepted(l.accepted, ssi) - |Lane(l.queue, ssi)|)
      ensures SendSeq(l.sendSeq, ssi) == Accepted(l.accepted, ssi) % 2
    {
      assert TerminalOk(l, ssi);
    }
  }

  lemma OneTerminalOk(l: Link, ssi: nat)
    requires Inv(l)
    ensures TerminalOk(l, ssi)
  {
    hide LaneOk, Completed, Lane, Accepted, SendSeq;
  }

  // The first message of a lane after an acknowledgement, if it completed and if it did not.
  function AfterAck(lane: seq<Msg>, done: bool): seq<Msg>
    requires done ==> lane != []
  {
    if done then lane[1..] else if IsOut(lane) then [CatchUp(lane[0])] + lane[1..] else lane
  }

  lemma AckSame(l: Link, r: Ended, ssi: nat, done: bool)
    requires TerminalOk(l, ssi) && (done ==> IsOut(Lane(l.queue, ssi)))
    requires Lane(r.queue, ssi) == AfterAck(Lane(l.queue, ssi), done)
    requires r.outcome == if done then l.outcome[IdOf(Lane(l.queue, ssi)[0]) := Acknowledged] else l.outcome
    ensures TerminalOk(l.(queue := r.queue, outcome := r.outcome), ssi)
  {
    hide Lane, CatchUp, LaneOk, Completed, Accepted, SendSeq;
    AckedLane(Lane(l.queue, ssi), l.outcome, ssi, Accepted(l.accepted, ssi), done);
  }

  lemma AckOther(l: Link, r: Ended, ssi: nat, done: bool, other: nat)
    requires TerminalOk(l, ssi) && TerminalOk(l, other) && other != ssi && (done ==> IsOut(Lane(l.queue, ssi)))
    requires Lane(r.queue, other) == Lane(l.queue, other)
    requires r.outcome == if done then l.outcome[IdOf(Lane(l.queue, ssi)[0]) := Acknowledged] else l.outcome
    ensures TerminalOk(l.(queue := r.queue, outcome := r.outcome), other)
  {
    hide Lane, LaneOk, Completed, Accepted, SendSeq;
    if done {
      FirstIsOpen(Lane(l.queue, ssi), ssi, Accepted(l.accepted, ssi));
      OtherOutcome(l.outcome, IdOf(Lane(l.queue, ssi)[0]), other, Accepted(l.accepted, other) - |Lane(l.queue, other)|);
    }
  }

  // One terminal after an acknowledgement to terminal `ssi`.
  lemma AckOne(l: Link, ssi: nat, nr: nat, sameProtection: bool, other: nat)
    requires Inv(l)
    ensures forall i | 0 <= i < |l.queue| :: Open(l.queue[i])
    ensures var r := HearAck(l.queue, l.outcome, ssi, nr, sameProtection);
            TerminalOk(l.(queue := r.queue, outcome := r.outcome), other)
  {
    OneTerminalOk(l, ssi);
    OneTerminalOk(l, other);
    HearAckLane(l.queue, l.outcome, ssi, nr, sameProtection, l.accepted);
    var lane := Lane(l.queue, ssi);
    var r := HearAck(l.queue, l.outcome, ssi, nr, sameProtection);
    var done := IsOut(lane) && Answers(CatchUp(lane[0]), nr, sameProtection);
    hide HearAck, Inv, Lane, Answers, CatchUp, TerminalOk;
    if other == ssi {
      AckSame(l, r, ssi, done);
    } else {
      AckOther(l, r, ssi, done, other);
    }
  }

  lemma AckKeeps(l: Link, ssi: nat, nr: nat, sameProtection: bool)
    requires Inv(l)
    ensures forall i | 0 <= i < |l.queue| :: Open(l.queue[i])
    ensures var r := HearAck(l.queue, l.outcome, ssi, nr, sameProtection);
            Inv(l.(queue := r.queue, outcome := r.outcome))
  {
    hide Inv, TerminalOk, HearAck;
    AckOne(l, ssi, nr, sameProtection, ssi);
    var r := HearAck(l.queue, l.outcome, ssi, nr, sameProtection);
    var after := l.(queue := r.queue, outcome := r.outcome);
    forall other: nat
      ensures TerminalOk(after, other)
    {
      AckOne(l, ssi, nr, sameProtection, other);
    }
    InvFrom(after);
  }

  lemma CatchUpInLane(lane: seq<Msg>, ssi: nat, accepted: nat)
    requires LaneOk(lane, ssi, accepted) && IsOut(lane)
    ensures LaneOk([CatchUp(lane[0])] + lane[1..], ssi, accepted)
  {
    CatchUpKeepsId(lane[0]);
    hide MsgOk, CatchUp;
  }

  lemma GivingUpCompletes(queue: seq<Msg>, outcome: Outcome, ssis: seq<nat>, outcome': Outcome, ssi: nat, accepted: nat)
    requires LaneOk(Lane(queue, ssi), ssi, accepted) && LostOnly(queue, outcome, ssis, outcome')
    requires Completed(outcome, ssi, accepted - |Lane(queue, ssi)|)
    ensures Completed(outcome', ssi, accepted - |Lane(queue, ssi)|
                      + (if ssi in ssis && Lane(queue, ssi) != [] then 1 else 0))
  {
    var lane := Lane(queue, ssi);
    var first := accepted - |lane|;
    if lane != [] {
      FirstIndex(lane, ssi, accepted);
      FirstIsOpen(lane, ssi, accepted);
    }
    hide LaneOk, Lane;
    forall k: nat
      ensures Id(ssi, k) in outcome' <==> Id(ssi, k) in outcome || (ssi in ssis && lane != [] && k == first)
      ensures Id(ssi, k) in outcome' ==>
                outcome'[Id(ssi, k)] == Lost || (Id(ssi, k) in outcome && outcome'[Id(ssi, k)] == outcome[Id(ssi, k)])
    {
      assert GivenUp(Lane(queue, Id(ssi, k).ssi), ssis, Id(ssi, k)) <==> ssi in ssis && lane != [] && k == first;
    }
    hide LostOnly, GivenUp;
  }

  lemma RetriedLength(before: seq<Msg>, after: seq<Msg>, now: TdmaTime, routes: Routes)
    requires IsRetried(before, after, now, routes)
    ensures |after| == |before|
  {
  }

  // The queue and receipts between giving up and first submissions.
  lemma AfterGivingUp(l: Link, now: TdmaTime, routes: Routes, ssi: nat)
    requires AllLanes(l.queue, l.accepted)
    ensures CanTick(l, now, routes)
    ensures var r := RetryAll(l.queue, now, routes); var left := GiveUp(r.queue, l.outcome, r.exhausted);
            && LostOnly(r.queue, l.outcome, r.exhausted, left.outcome)
            && LaneOk(Lane(r.queue, ssi), ssi, Accepted(l.accepted, ssi))
            && LaneOk(Lane(left.queue, ssi), ssi, Accepted(l.accepted, ssi))
            && Lane(left.queue, ssi) == (if ssi in r.exhausted && Lane(r.queue, ssi) != [] then Lane(r.queue, ssi)[1..]
                                         else Lane(r.queue, ssi))
  {
    var r := RetryAll(l.queue, now, routes);
    hide RetryAll, GiveUp, Retry, IsOut, LaneOk, Accepted, LostOnly, AllLanes, Lane, Distinct;
    ExhaustedAreOut(l.queue, now, routes, l.accepted);
    GiveUpFindsAll(r.queue, l.outcome, r.exhausted, l.accepted);
    GiveUpLoses(r.queue, l.outcome, r.exhausted, l.accepted);
    LaneIsOk(r.queue, l.accepted, ssi);
    LaneIsOk(GiveUp(r.queue, l.outcome, r.exhausted).queue, l.accepted, ssi);
  }

  lemma RetryAllLane(queue: seq<Msg>, now: TdmaTime, routes: Routes, ssi: nat)
    ensures IsRetried(Lane(queue, ssi), Lane(RetryAll(queue, now, routes).queue, ssi), now, routes)
    ensures |Lane(RetryAll(queue, now, routes).queue, ssi)| == |Lane(queue, ssi)|
  {
    hide IsRetried, RetryAll, Lane;
    RetryAllPointwise(queue, now, routes);
    RetriedLane(queue, RetryAll(queue, now, routes).queue, now, routes, ssi);
    RetriedLength(Lane(queue, ssi), Lane(RetryAll(queue, now, routes).queue, ssi), now, routes);
  }

  // One terminal after retries and giving up.
  lemma LeftLane(l: Link, now: TdmaTime, routes: Routes, ssi: nat)
    requires AllLanes(l.queue, l.accepted) && LaneStands(l.queue, l.outcome, ssi, Accepted(l.accepted, ssi))
    ensures CanTick(l, now, routes)
    ensures LaneStands(LeftOver(l, now, routes).queue, LeftOver(l, now, routes).outcome, ssi, Accepted(l.accepted, ssi))
  {
    hide Completed, RetryAll, GiveUp, IsRetried, LaneOk, Accepted, LostOnly, AllLanes, Lane, AllOutstanding;
    AfterGivingUp(l, now, routes, ssi);
    RetryAllLane(l.queue, now, routes, ssi);
    var r := RetryAll(l.queue, now, routes);
    GivingUpCompletes(r.queue, l.outcome, r.exhausted, GiveUp(r.queue, l.outcome, r.exhausted).outcome, ssi,
                      Accepted(l.accepted, ssi));
  }

  // What the end of a tick leaves of a terminal's lane; only the first of it may just have been submitted.
  ghost predicate LaneLeft(queue: seq<Msg>, outcome: Outcome, submitted: seq<Id>, ssi: nat, accepted: nat) {
    var lane := Lane(queue, ssi);
    && LaneOk(lane, ssi, accepted) && Completed(outcome, ssi, accepted - |lane|)
    && forall k: nat :: Id(ssi, k) in submitted ==> k == accepted - |lane|
  }

  /** Everything a terminal's messages go through at the end of a tick. */
  lemma TickLane(l: Link, now: TdmaTime, routes: Routes, ssi: nat)
    requires Inv(l)
    ensures CanTick(l, now, routes)
    ensures var t := Tick(l, now, routes);
            LaneLeft(t.link.queue, t.link.outcome, t.submitted, ssi, Accepted(l.accepted, ssi))
  {
    OneTerminalOk(l, ssi);
    InvIsAllLanes(l);
    hide LaneStands, RetryAll, GiveUp, SubmitFree, AllOutstanding, Accepted, Inv, AllLanes, LaneLeft, CanTick, LeftOver;
    LeftLane(l, now, routes, ssi);
    FreeKeepsLane(LeftOver(l, now, routes).queue, LeftOver(l, now, routes).outcome, now, routes, ssi,
                  Accepted(l.accepted, ssi));
  }

  lemma InvIsAllLanes(l: Link)
    requires Inv(l)
    ensures AllLanes(l.queue, l.accepted)
  {
  }

  lemma FreeKeepsLane(queue: seq<Msg>, outcome: Outcome, now: TdmaTime, routes: Routes, ssi: nat, accepted: nat)
    requires LaneStands(queue, outcome, ssi, accepted)
    ensures LaneLeft(SubmitFree(queue, {}, now, routes).queue, outcome, SubmitFree(queue, {}, now, routes).submitted,
                     ssi, accepted)
  {
    hide LaneOk, SubmitFree, Lane, Completed;
    SubmitFreeLane(queue, {}, now, routes, ssi);
    if Free(Lane(queue, ssi)) {
      FreshlyOk(Lane(queue, ssi), ssi, accepted, now, routes(ssi));
      FirstIndex(Lane(queue, ssi), ssi, accepted);
    }
  }

  lemma FirstIndex(lane: seq<Msg>, ssi: nat, accepted: nat)
    requires LaneOk(lane, ssi, accepted) && lane != []
    ensures lane[0].index == accepted - |lane|
  {
  }

  lemma TickKeeps(l: Link, now: TdmaTime, routes: Routes)
    requires Inv(l)
    ensures CanTick(l, now, routes) && Inv(Tick(l, now, routes).link)
  {
    AfterGivingUp(l, now, routes, 0);
    forall ssi: nat
      ensures TerminalOk(Tick(l, now, routes).link, ssi)
    {
      TickOne(l, now, routes, ssi);
    }
    hide Tick, TerminalOk, Inv, CanTick;
    InvFrom(Tick(l, now, routes).link);
  }

  lemma TickOne(l: Link, now: TdmaTime, routes: Routes, ssi: nat)
    requires Inv(l) && CanTick(l, now, routes)
    ensures TerminalOk(Tick(l, now, routes).link, ssi)
  {
    TickLane(l, now, routes, ssi);
    hide LaneOk, Completed, Accepted, AllLanes, Lane, RetryAll, GiveUp, SubmitFree, AllOutstanding;
  }
}
