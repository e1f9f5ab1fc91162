/** What holds of the basic link over whole runs. */
module BasicLinkRuns {
  import opened Tdma
  import opened BasicLink

  ghost predicate Enabled(l: Link, a: Action) {
    match a
    case Request(ssi, fixedAssigned, firstSlot) => true
    case Report(position, copy, aired) => CanReport(l, position, copy)
    case Ack(ssi, nr, sameProtection) => forall i | 0 <= i < |l.queue| :: Open(l.queue[i])
    case EndTick(now, routes) => CanTick(l, now, routes)
  }

  ghost function Step(l: Link, a: Action): Link
    requires Enabled(l, a)
  {
    match a
    case Request(ssi, fixedAssigned, firstSlot) => Requested(l, ssi, fixedAssigned, firstSlot)
    case Report(position, copy, aired) => Reported(l, position, copy, aired)
    case Ack(ssi, nr, sameProtection) =>
      var r := HearAck(l.queue, l.outcome, ssi, nr, sameProtection);
      l.(queue := r.queue, outcome := r.outcome)
    case EndTick(now, routes) => Tick(l, now, routes).link
  }

  ghost predicate IsRun(states: seq<Link>, actions: seq<Action>) {
    && |states| == |actions| + 1 && states[0] == Link([], map[], map[], map[])
    && forall i | 0 <= i < |actions| :: Enabled(states[i], actions[i]) && states[i + 1] == Step(states[i], actions[i])
  }

  // The messages a step hands to the MAC for the first time, and those it hands over again.
  ghost function First(l: Link, a: Action): seq<Id>
    requires Enabled(l, a)
  {
    if a.EndTick? then Tick(l, a.now, a.routes).submitted else []
  }

  ghost function Again(l: Link, a: Action): seq<Id>
    requires Enabled(l, a)
  {
    if a.EndTick? then Tick(l, a.now, a.routes).again else []
  }

  lemma StepKeeps(l: Link, a: Action)
    requires Inv(l) && Enabled(l, a)
    ensures Inv(Step(l, a))
  {
    hide Inv, Tick, HearAck, CanTick;
    match a
    case Request(ssi, fixedAssigned, firstSlot) => RequestKeeps(l, ssi, fixedAssigned, firstSlot);
    case Report(position, copy, aired) => ReportKeeps(l, position, copy, aired);
    case Ack(ssi, nr, sameProtection) => AckKeeps(l, ssi, nr, sameProtection);
    case EndTick(now, routes) => TickKeeps(l, now, routes);
  }

  /** In a state that keeps the invariant the technical guards hold: nothing unwraps or stops. */
  lemma NothingStops(l: Link, now: TdmaTime, routes: Routes)
    requires Inv(l)
    ensures CanTick(l, now, routes) && forall i | 0 <= i < |l.queue| :: Open(l.queue[i])
  {
    TickKeeps(l, now, routes);
    hide CanTick;
    LanesAreSolo(l.queue, l.accepted);
    AllAreOpen(l.queue);
  }

  lemma {:induction false} RunKeeps(states: seq<Link>, actions: seq<Action>, n: nat)
    requires IsRun(states, actions) && n < |states|
    ensures Inv(states[n])
  {
    hide Step, Enabled;
    if n == 0 {
      assert forall ssi: nat :: Lane([], ssi) == [];
    } else {
      RunKeeps(states, actions, n - 1);
      hide Inv;
      StepKeeps(states[n - 1], actions[n - 1]);
    }
  }

  // Every earlier message to the same terminal has ended as acknowledged or lost.
  ghost predicate EarlierEnded(outcome: Outcome, id: Id) {
    forall k: nat | k < id.index :: Id(id.ssi, k) in outcome
      && (outcome[Id(id.ssi, k)].Acknowledged? || outcome[Id(id.ssi, k)].Lost?)
  }

  /**
   Stop and wait. In every reachable state each terminal has at most one message handed to
   the MAC, ahead of all its others in the queue; N(S) is the parity of a message's number,
   so successive ones alternate; and a message is handed over for the first time only when
   every earlier one to that terminal has ended as acknowledged or lost.
   */
  lemma StopAndWait(states: seq<Link>, actions: seq<Action>, n: nat)
    requires IsRun(states, actions) && n < |actions|
    ensures var queue := states[n].queue;
            && (forall i, j | 0 <= i < j < |queue| && queue[i].ssi == queue[j].ssi ::
                  queue[j].submittedAt.None? && queue[i].index < queue[j].index)
            && (forall i | 0 <= i < |queue| :: queue[i].ns == queue[i].index % 2)
    ensures forall id <- First(states[n], actions[n]) :: EarlierEnded(states[n + 1].outcome, id)
  {
    RunKeeps(states, actions, n);
    hide IsRun;
    LanesInOrder(states[n].queue, states[n].accepted);
    if actions[n].EndTick? {
      FirstsWait(states[n], actions[n].now, actions[n].routes);
    }
  }

  lemma LanesInOrder(queue: seq<Msg>, accepted: map<nat, nat>)
    requires AllLanes(queue, accepted)
    ensures forall i, j | 0 <= i < j < |queue| && queue[i].ssi == queue[j].ssi ::
              queue[j].submittedAt.None? && queue[i].index < queue[j].index
    ensures forall i | 0 <= i < |queue| :: queue[i].ns == queue[i].index % 2
  {
    LanesAreSolo(queue, accepted);
    hide LaneOk, AllLanes, Accepted;
    forall i, j | 0 <= i < j < |queue| && queue[i].ssi == queue[j].ssi
      ensures queue[i].index < queue[j].index
    {
      var ssi := queue[i].ssi;
      LaneIsOk(queue, accepted, ssi);
      LaneOrder(queue, i, j, Accepted(accepted, ssi));
    }
  }

  lemma LaneOrder(queue: seq<Msg>, i: nat, j: nat, accepted: nat)
    requires i < j < |queue| && queue[i].ssi == queue[j].ssi
             && LaneOk(Lane(queue, queue[i].ssi), queue[i].ssi, accepted)
    ensures queue[i].index < queue[j].index
  {
    hide MsgOk, Fresh;
    var ssi := queue[i].ssi;
    var front := queue[..j];
    LaneAt(queue, j, ssi);
    LaneAt(front, i, ssi);
    assert Lane(queue, ssi)[|Lane(front, ssi)|] == queue[j];
    assert Lane(front, ssi)[|Lane(front[..i], ssi)|] == queue[i];
    assert Lane(queue, ssi)[|Lane(front[..i], ssi)|] == queue[i];
  }

  lemma FirstsWait(l: Link, now: TdmaTime, routes: Routes)
    requires Inv(l) && CanTick(l, now, routes)
    ensures forall id <- Tick(l, now, routes).submitted :: EarlierEnded(Tick(l, now, routes).link.outcome, id)
  {
    var t := Tick(l, now, routes);
    hide Tick, CanTick;
    forall id <- t.submitted
      ensures EarlierEnded(t.link.outcome, id)
    {
      TickLane(l, now, routes, id.ssi);
      assert Id(id.ssi, id.index) in t.submitted;
    }
  }

  // ----- How often a message is handed to the MAC

  const MAX_SUBMISSIONS: nat := 6

  function Made(m: Msg): nat {
    (if m.submittedAt.Some? then 1 else 0) + m.retransmits
  }

  // Times message `index` of a lane has been handed over, all there are once it has left.
  function Spent(lane: seq<Msg>, accepted: nat, index: nat): nat {
    var p := index - (accepted - |lane|);
    if p < 0 then MAX_SUBMISSIONS else if p < |lane| then Made(lane[p]) else 0
  }

  lemma SpentBound(lane: seq<Msg>, ssi: nat, accepted: nat, index: nat)
    requires LaneOk(lane, ssi, accepted)
    ensures Spent(lane, accepted, index) <= MAX_SUBMISSIONS
  {
    var p := index - (accepted - |lane|);
    if 0 <= p < |lane| {
      assert MsgOk(lane[p]);
    }
  }

  lemma {:induction false} AgainAre(queue: seq<Msg>, now: TdmaTime, routes: Routes, id: Id)
    ensures id in RetryAll(queue, now, routes).again <==>
            exists m :: m in queue && IdOf(m) == id && Retry(m, now, routes(m.ssi)).again
  {
    hide Retry;
    if queue != [] {
      AgainAre(queue[1..], now, routes, id);
      assert queue == [queue[0]] + queue[1..];
      var rest := RetryAll(queue[1..], now, routes).again;
      if Retry(queue[0], now, routes(queue[0].ssi)).again {
        InFront(IdOf(queue[0]), rest);
      } else {
        assert [] + rest == rest;
      }
    }
  }

  // Whether message `index` of a lane is handed over again.
  predicate Repeats(lane: seq<Msg>, accepted: nat, index: nat, now: TdmaTime, route: Route) {
    var p := index - (accepted - |lane|);
    0 <= p < |lane| && Retry(lane[p], now, route).again
  }

  lemma AgainInLane(queue: seq<Msg>, now: TdmaTime, routes: Routes, ssi: nat, accepted: nat, index: nat)
    requires LaneOk(Lane(queue, ssi), ssi, accepted)
    ensures Id(ssi, index) in RetryAll(queue, now, routes).again
            <==> Repeats(Lane(queue, ssi), accepted, index, now, routes(ssi))
  {
    hide Retry, MsgOk, Fresh;
    var lane, p := Lane(queue, ssi), index - (accepted - |Lane(queue, ssi)|);
    AgainAre(queue, now, routes, Id(ssi, index));
    if m :| m in queue && IdOf(m) == Id(ssi, index) && Retry(m, now, routes(m.ssi)).again {
      LaneMembers(queue, ssi, m);
      var i :| 0 <= i < |lane| && lane[i] == m;
      assert i == p;
    }
    if 0 <= p < |lane| {
      LaneMembers(queue, ssi, lane[p]);
      assert lane[p] in lane;
    }
  }

  lemma RetryingSpends(before: seq<Msg>, after: seq<Msg>, now: TdmaTime, routes: Routes, ssi: nat, accepted: nat,
                       index: nat)
    requires LaneOk(before, ssi, accepted) && IsRetried(before, after, now, routes)
    ensures Spent(after, accepted, index) == Spent(before, accepted, index)
            + (if Repeats(before, accepted, index, now, routes(ssi)) then 1 else 0)
  {
    hide Retry, MsgOk, Fresh;
    var p := index - (accepted - |before|);
    if 0 <= p < |before| {
      RetryKeeps(before[p], now, routes(before[p].ssi));
    }
  }

  lemma LeavingSpends(lane: seq<Msg>, ssi: nat, accepted: nat, index: nat)
    requires LaneOk(lane, ssi, accepted) && lane != []
    ensures Spent(lane, accepted, index) <= Spent(lane[1..], accepted, index)
  {
    SpentBound(lane, ssi, accepted, index);
    hide LaneOk;
  }

  lemma SubmittingSpends(lane: seq<Msg>, ssi: nat, accepted: nat, index: nat, now: TdmaTime, route: Route)
    requires LaneOk(lane, ssi, accepted) && Free(lane)
    ensures Spent(Freshly(lane, now, route), accepted, index) == Spent(lane, accepted, index)
            + (if lane[0].index == index then 1 else 0)
  {
    hide MsgOk;
  }

  // How often a step hands message `id` to the MAC.
  ghost function HandOvers(l: Link, a: Action, id: Id): nat
    requires Enabled(l, a)
  {
    (if id in First(l, a) then 1 else 0) + (if id in Again(l, a) then 1 else 0)
  }

  ghost function SpentOf(l: Link, id: Id): nat {
    Spent(Lane(l.queue, id.ssi), Accepted(l.accepted, id.ssi), id.index)
  }

  lemma TickSpends(l: Link, now: TdmaTime, routes: Routes, id: Id)
    requires Inv(l) && CanTick(l, now, routes)
    ensures var t := Tick(l, now, routes);
            SpentOf(l, id) + (if id in t.submitted then 1 else 0) + (if id in t.again then 1 else 0)
              <= SpentOf(t.link, id)
  {
    var ssi, accepted := id.ssi, Accepted(l.accepted, id.ssi);
    LaneIsOk(l.queue, l.accepted, ssi);
    AfterGivingUp(l, now, routes, ssi);
    RetryAllLane(l.queue, now, routes, ssi);
    hide RetryAll, GiveUp, SubmitFree, LaneOk, Inv, Lane, LostOnly, AllOutstanding, Spent, Repeats, IsRetried,
         Accepted, CanTick;
    var r := RetryAll(l.queue, now, routes);
    var left := GiveUp(r.queue, l.outcome, r.exhausted);
    AgainInLane(l.queue, now, routes, ssi, accepted, id.index);
    RetryingSpends(Lane(l.queue, ssi), Lane(r.queue, ssi), now, routes, ssi, accepted, id.index);
    if Lane(r.queue, ssi) != [] {
      LeavingSpends(Lane(r.queue, ssi), ssi, accepted, id.index);
    }
    SubmitFreeLane(left.queue, {}, now, routes, ssi);
    if Free(Lane(left.queue, ssi)) {
      SubmittingSpends(Lane(left.queue, ssi), ssi, accepted, id.index, now, routes(ssi));
    }
    assert id == Id(ssi, id.index);
  }

  lemma RequestSpends(l: Link, ssi: nat, fixedAssigned: bool, firstSlot: int, id: Id)
    requires Inv(l)
    ensures SpentOf(l, id) <= SpentOf(Requested(l, ssi, fixedAssigned, firstSlot), id)
  {
    var m := NewMsg(ssi, Accepted(l.accepted, ssi), SendSeq(l.sendSeq, ssi), fixedAssigned, firstSlot);
    hide Inv, Lane, LaneOk, Spent, Accepted, SendSeq, Requested;
    RequestCounts(l, ssi, fixedAssigned, firstSlot, id.ssi);
    AppendedLane(l.queue, m, id.ssi);
    AppendingSpends(Lane(l.queue, id.ssi), m, Accepted(l.accepted, id.ssi), id.index);
  }

  lemma AppendingSpends(lane: seq<Msg>, m: Msg, accepted: nat, index: nat)
    requires m.submittedAt.None? && m.retransmits == 0
    ensures Spent(lane + [m], accepted + 1, index) == Spent(lane, accepted, index)
  {
  }

  lemma ReportSpends(l: Link, position: nat, copy: nat, aired: bool, id: Id)
    requires CanReport(l, position, copy)
    ensures SpentOf(l, id) == SpentOf(Reported(l, position, copy, aired), id)
  {
    var after := Reported(l, position, copy, aired);
    LaneAt(l.queue, position, id.ssi);
    LaneAt(after.queue, position, id.ssi);
    assert after.queue[..position] == l.queue[..position] && after.queue[position + 1..] == l.queue[position + 1..];
    hide Lane;
  }

  lemma AckSpends(l: Link, ssi: nat, nr: nat, sameProtection: bool, id: Id)
    requires Inv(l) && forall i | 0 <= i < |l.queue| :: Open(l.queue[i])
    ensures var r := HearAck(l.queue, l.outcome, ssi, nr, sameProtection);
            SpentOf(l, id) <= SpentOf(l.(queue := r.queue), id)
  {
    HearAckLane(l.queue, l.outcome, ssi, nr, sameProtection, l.accepted);
    LaneIsOk(l.queue, l.accepted, id.ssi);
    var lane := Lane(l.queue, id.ssi);
    if lane != [] {
      LeavingSpends(lane, id.ssi, Accepted(l.accepted, id.ssi), id.index);
      CatchUpKeepsId(lane[0]);
    }
    hide HearAck, Inv, Lane, Answers, CatchUp, LaneOk, Accepted;
  }

  lemma StepSpends(l: Link, a: Action, id: Id)
    requires Inv(l) && Enabled(l, a)
    ensures SpentOf(l, id) + HandOvers(l, a, id) <= SpentOf(Step(l, a), id)
  {
    hide Inv, Tick, HearAck, CanTick, SpentOf;
    match a
    case Request(ssi, fixedAssigned, firstSlot) => RequestSpends(l, ssi, fixedAssigned, firstSlot, id);
    case Report(position, copy, aired) => ReportSpends(l, position, copy, aired, id);
    case Ack(ssi, nr, sameProtection) =>
      AckSpends(l, ssi, nr, sameProtection, id);
      SpentIgnoresOutcome(l.(queue := HearAck(l.queue, l.outcome, ssi, nr, sameProtection).queue),
                          HearAck(l.queue, l.outcome, ssi, nr, sameProtection).outcome, id);
    case EndTick(now, routes) => TickSpends(l, now, routes, id);
  }

  lemma SpentIgnoresOutcome(l: Link, outcome: Outcome, id: Id)
    ensures SpentOf(l.(outcome := outcome), id) == SpentOf(l, id)
  {
  }

  ghost function HandOverCount(states: seq<Link>, actions: seq<Action>, n: nat, id: Id): nat
    requires IsRun(states, actions) && n <= |actions|
  {
    if n == 0 then 0 else HandOverCount(states, actions, n - 1, id) + HandOvers(states[n - 1], actions[n - 1], id)
  }

  lemma {:induction false} CountIsSpent(states: seq<Link>, actions: seq<Action>, n: nat, id: Id)
    requires IsRun(states, actions) && n <= |actions|
    ensures HandOverCount(states, actions, n, id) <= SpentOf(states[n], id)
  {
    hide Step, Enabled, HandOvers;
    if n > 0 {
      CountIsSpent(states, actions, n - 1, id);
      RunKeeps(states, actions, n - 1);
      hide Inv, SpentOf;
      StepSpends(states[n - 1], actions[n - 1], id);
    }
  }

  /** Over any run a message is handed to the MAC at most N.252 + 3 times. */
  lemma HandedOverBoundedlyOften(states: seq<Link>, actions: seq<Action>, n: nat, id: Id)
    requires IsRun(states, actions) && n <= |actions|
    ensures HandOverCount(states, actions, n, id) <= MAX_RETRANSMITS + 3
  {
    CountIsSpent(states, actions, n, id);
    RunKeeps(states, actions, n);
    hide IsRun;
    LaneIsOk(states[n].queue, states[n].accepted, id.ssi);
    hide Inv;
    SpentBound(Lane(states[n].queue, id.ssi), id.ssi, Accepted(states[n].accepted, id.ssi), id.index);
  }

  predicate NoRepeats(ids: seq<Id>) {
    forall i, j | 0 <= i < j < |ids| :: ids[i] != ids[j]
  }

  lemma ConsNoRepeats(id: Id, ids: seq<Id>)
    requires NoRepeats(ids) && id !in ids
    ensures NoRepeats([id] + ids)
  {
    assert forall i | 0 <= i < |ids| :: ids[i] in ids;
  }

  /** In one step no message is handed over twice: the lists name each message once. */
  lemma HandedOverOnce(l: Link, a: Action)
    requires Inv(l) && Enabled(l, a)
    ensures NoRepeats(First(l, a)) && NoRepeats(Again(l, a))
  {
    LanesInOrder(l.queue, l.accepted);
    hide Inv, GiveUp, SubmitFree, AllOutstanding;
    if a.EndTick? {
      RetriesOnce(l.queue, a.now, a.routes);
      var r := RetryAll(l.queue, a.now, a.routes);
      hide RetryAll, NoRepeats;
      FreesOnce(GiveUp(r.queue, l.outcome, r.exhausted).queue, {}, a.now, a.routes);
    }
  }

  lemma {:induction false} RetriesOnce(queue: seq<Msg>, now: TdmaTime, routes: Routes)
    requires forall i, j | 0 <= i < j < |queue| && queue[i].ssi == queue[j].ssi :: queue[i].index < queue[j].index
    ensures NoRepeats(RetryAll(queue, now, routes).again)
  {
    hide Retry;
    if queue != [] {
      var id, rest := IdOf(queue[0]), RetryAll(queue[1..], now, routes).again;
      RetriesOnce(queue[1..], now, routes);
      AgainAre(queue[1..], now, routes, id);
      forall m | m in queue[1..]
        ensures IdOf(m) != id
      {
        var j :| 0 <= j < |queue[1..]| && queue[1..][j] == m;
        assert queue[j + 1] == m;
      }
      hide NoRepeats;
      ConsNoRepeats(id, rest);
      assert [] + rest == rest;
    }
  }

  lemma {:induction false} FreesOnce(queue: seq<Msg>, blocked: set<nat>, now: TdmaTime, routes: Routes)
    ensures NoRepeats(SubmitFree(queue, blocked, now, routes).submitted)
    decreases |queue|
  {
    hide Submit, NoRepeats;
    if queue != [] {
      var m := queue[0];
      var rest := SubmitFree(queue[1..], blocked + {m.ssi}, now, routes).submitted;
      FreesOnce(queue[1..], blocked + {m.ssi}, now, routes);
      SubmitFreeLane(queue[1..], blocked + {m.ssi}, now, routes, m.ssi);
      assert IdOf(m) == Id(m.ssi, m.index) && IdOf(m) !in rest;
      ConsNoRepeats(IdOf(m), rest);
    } else {
      EmptyNoRepeats();
    }
  }

  lemma EmptyNoRepeats()
    ensures NoRepeats([])
  {
  }
}
