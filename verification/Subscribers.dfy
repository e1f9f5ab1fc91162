/** The registry of local subscribers: their groups, their registration and their control channel. */
module Subscribers {
  import opened Arithmetic
  import opened Wrappers
  import opened ControlChannels

  datatype Assignment = Assignment(supported: Option<bool>, msScch: Option<nat>, registrationSlot: Option<nat>,
                                   lastUplinkSlot: Option<nat>)

  const NO_ASSIGNMENT := Assignment(None, None, None, None)

  function AssignmentOf(assignments: map<nat, Assignment>, issi: nat): Assignment {
    if issi in assignments then assignments[issi] else NO_ASSIGNMENT
  }

  /** The groups some subscriber is attached to. */
  function GroupsOf(subscribers: map<nat, set<nat>>): set<nat> {
    set i, g | i in subscribers && g in subscribers[i] :: g
  }

  // Terminals other than `issi` that use an MS_SCCH value.
  function UsersOf(assignments: map<nat, Assignment>, issi: nat, value: nat): set<nat> {
    set o | o in assignments && o != issi && assignments[o].msScch == Some(value)
  }

  function OthersUses(assignments: map<nat, Assignment>, issi: nat): (uses: seq<nat>)
    ensures |uses| == VALUES
  {
    seq(VALUES, v requires 0 <= v => |UsersOf(assignments, issi, v)|)
  }

  // Terminals of `cell` other than `issi` on a control channel.
  function OnChannel(cell: set<nat>, assignments: map<nat, Assignment>, issi: nat, count: nat, slot: nat): set<nat> {
    set o | o in cell && o != issi && Slot(AssignmentOf(assignments, o).msScch, count) == slot
  }

  function OthersLoads(cell: set<nat>, assignments: map<nat, Assignment>, issi: nat, count: nat): (loads: seq<nat>)
    ensures |loads| == Channels(count)
  {
    seq(Channels(count), i requires 0 <= i => |OnChannel(cell, assignments, issi, count, i + 1)|)
  }

  // Whether a terminal takes part in load balancing, from this request or an earlier one.
  function Capable(previous: Assignment, supported: Option<bool>): Option<bool> {
    if supported.Some? then supported else previous.supported
  }

  predicate Keeps(previous: Assignment, isPending: bool) {
    isPending && previous.registrationSlot.Some? && previous.msScch.Some?
  }

  /**
   What selection picks: nothing for a terminal without the capability; its value again while
   its registration is being delivered; otherwise the least used value of the channel with
   the fewest other terminals, preferring the terminal's own channel.
   */
  ghost predicate Chosen(active: set<nat>, pending: set<nat>, assignments: map<nat, Assignment>,
                         issi: nat, supported: Option<bool>, count: nat, msScch: Option<nat>) {
    var previous := AssignmentOf(assignments, issi);
    if Capable(previous, supported) != Some(true) then msScch.None?
    else if Keeps(previous, issi in pending) then msScch == previous.msScch
    else
      msScch.Some? && exists slot ::
        IsLightest(OthersLoads(active + pending, assignments, issi, count), Slot(previous.msScch, count), slot)
        && IsLeastUsed(OthersUses(assignments, issi), count, slot, msScch.value)
  }

  class SubscriberRegistry {
    // The attached groups of each registered subscriber.
    var subscribers: map<nat, set<nat>>
    var active: set<nat>
    var pending: set<nat>
    var assignments: map<nat, Assignment>
    var attached: set<nat>

    ghost predicate Valid()
      reads this
    {
      attached == GroupsOf(subscribers) && active !! pending
    }

    constructor ()
      ensures Valid() && subscribers == map[] && active == pending == {} && assignments == map[]
    {
      subscribers, active, pending, assignments, attached := map[], {}, {}, map[], {};
    }

    // ----- Registration and groups

    method MarkActive(issi: nat)
      requires Valid()
      modifies this`active, this`pending
      ensures Valid() && active == old(active) + {issi} && pending == old(pending) - {issi}
    {
      active := active + {issi};
      pending := pending - {issi};
    }

    method MarkInactive(issi: nat)
      requires Valid()
      modifies this`active, this`pending
      ensures Valid() && active == old(active) - {issi} && pending == old(pending) - {issi}
    {
      active := active - {issi};
      pending := pending - {issi};
    }

    method SetRegistrationDeliveryPending(issi: nat, isPending: bool)
      requires Valid()
      modifies this`active, this`pending
      ensures Valid()
      ensures pending == if isPending then old(pending) + {issi} else old(pending) - {issi}
      ensures active == if isPending then old(active) - {issi} else old(active)
    {
      if isPending {
        pending := pending + {issi};
        active := active - {issi};
      } else {
        pending := pending - {issi};
      }
    }

    method HasMember(group: nat) returns (found: bool)
      ensures found <==> exists i :: i in subscribers && group in subscribers[i]
    {
      var todo := subscribers.Keys;
      while todo != {}
        invariant todo <= subscribers.Keys
        invariant forall i <- subscribers | i !in todo :: group !in subscribers[i]
        decreases |todo|
      {
        var i :| i in todo;
        todo := todo - {i};
        if group in subscribers[i] {
          return true;
        }
      }
      found := false;
    }

    /** Remove a subscriber; groups nobody else is attached to leave the index. */
    method Deregister(issi: nat)
      requires Valid()
      modifies this
      ensures Valid() && subscribers == old(subscribers) - {issi}
      ensures active == old(active) - {issi} && pending == old(pending) - {issi}
              && assignments == old(assignments) - {issi}
    {
      assignments := assignments - {issi};
      MarkInactive(issi);
      GroupsSplit(subscribers, issi);
      if issi !in subscribers {
        assert subscribers - {issi} == subscribers;
        return;
      }
      var groups := subscribers[issi];
      subscribers := subscribers - {issi};
      assert attached == GroupsOf(subscribers) + groups;
      Prune(groups);
    }

    // Take those of `groups` out of the index that have no member left.
    method Prune(groups: set<nat>)
      requires attached == GroupsOf(subscribers) + groups
      modifies this`attached
      ensures attached == GroupsOf(subscribers)
    {
      var todo := groups;
      while todo != {}
        invariant todo <= groups && GroupsOf(subscribers) <= attached <= GroupsOf(subscribers) + todo
        decreases |todo|
      {
        var g :| g in todo;
        todo := todo - {g};
        MembersOf(subscribers, g);
        var stillHasMembers := HasMember(g);
        if !stillHasMembers {
          attached := attached - {g};
        }
      }
    }

    /** Tolerant registration: an earlier one is replaced, its control channel kept. */
    method Register(issi: nat)
      requires Valid()
      modifies this
      ensures Valid() && subscribers == old(subscribers)[issi := {}]
      ensures active == old(active) - {issi} && pending == old(pending) - {issi} && assignments == old(assignments)
    {
      var hadAssignment := issi in assignments;
      var assignment := if hadAssignment then assignments[issi] else NO_ASSIGNMENT;
      Deregister(issi);
      if hadAssignment {
        assignments := assignments[issi := assignment];
      }
      assert assignments == old(assignments);
      GroupsSplit(subscribers, issi);
      GroupsWith(subscribers, issi, {});
      subscribers := subscribers[issi := {}];
      assert subscribers == old(subscribers)[issi := {}];
    }

    // get_subscriber_mut as affiliation uses it.
    method EnsureSubscriber(issi: nat)
      requires Valid()
      modifies this`subscribers
      ensures Valid() && subscribers == if issi in old(subscribers) then old(subscribers)
              else old(subscribers)[issi := {}]
    {
      if issi !in subscribers {
        GroupsSplit(subscribers, issi);
        GroupsWith(subscribers, issi, {});
        subscribers := subscribers[issi := {}];
      }
    }

    function Groups(issi: nat): set<nat>
      reads this
    {
      if issi in subscribers then subscribers[issi] else {}
    }

    method Affiliate(issi: nat, group: nat)
      requires Valid()
      modifies this`subscribers, this`attached
      ensures Valid() && subscribers == old(subscribers)[issi := old(Groups(issi)) + {group}]
    {
      EnsureSubscriber(issi);
      GroupsSplit(subscribers, issi);
      GroupsWith(subscribers, issi, subscribers[issi] + {group});
      subscribers := subscribers[issi := subscribers[issi] + {group}];
      attached := attached + {group};
    }

    method Deaffiliate(issi: nat, group: nat)
      requires Valid()
      modifies this`subscribers, this`attached
      ensures Valid() && subscribers == old(subscribers)[issi := old(Groups(issi)) - {group}]
    {
      EnsureSubscriber(issi);
      GroupsSplit(subscribers, issi);
      if group in subscribers[issi] {
        GroupsWith(subscribers, issi, subscribers[issi] - {group});
        subscribers := subscribers[issi := subscribers[issi] - {group}];
        MembersOf(subscribers, group);
        var stillHasMembers := HasMember(group);
        if !stillHasMembers {
          attached := attached - {group};
        }
      } else {
        assert subscribers[issi] - {group} == subscribers[issi];
      }
    }

    // ----- Control channels

    method FinishCommonRegistration(issi: nat)
      modifies this`assignments
      ensures assignments == if issi in old(assignments)
              then old(assignments)[issi := old(assignments)[issi].(registrationSlot := None)] else old(assignments)
    {
      if issi in assignments {
        assignments := assignments[issi := assignments[issi].(registrationSlot := None)];
      }
    }

    method CountOnChannel(cell: set<nat>, issi: nat, count: nat, slot: nat) returns (load: nat)
      ensures load == |OnChannel(cell, assignments, issi, count, slot)|
    {
      load := 0;
      var todo := cell;
      while todo != {}
        invariant todo <= cell && load == |OnChannel(cell - todo, assignments, issi, count, slot)|
        decreases |todo|
      {
        var o :| o in todo;
        OneMoreOnChannel(cell - todo, o, assignments, issi, count, slot);
        assert cell - todo + {o} == cell - (todo - {o});
        todo := todo - {o};
        if o != issi && Slot(AssignmentOf(assignments, o).msScch, count) == slot {
          load := load + 1;
        }
      }
      assert cell - todo == cell;
    }

    method CountUsers(issi: nat, value: nat) returns (uses: nat)
      ensures uses == |UsersOf(assignments, issi, value)|
    {
      uses := 0;
      var todo := assignments.Keys;
      ghost var counted: set<nat> := {};
      while todo != {}
        invariant todo <= assignments.Keys && counted == (set o | o in UsersOf(assignments, issi, value) && o !in todo)
        invariant uses == |counted|
        decreases |todo|
      {
        var o :| o in todo;
        todo := todo - {o};
        if o != issi && assignments[o].msScch == Some(value) {
          uses := uses + 1;
          counted := counted + {o};
        }
      }
      assert counted == UsersOf(assignments, issi, value);
    }

    /** Pick a control channel for a terminal and remember it. */
    method SelectCommonControl(issi: nat, supported: Option<bool>, count: nat, ingress: nat)
        returns (msScch: Option<nat>)
      modifies this`assignments
      ensures Chosen(active, pending, old(assignments), issi, supported, count, msScch)
      ensures assignments == old(assignments)[issi :=
                                              Assignment(Capable(AssignmentOf(old(assignments), issi), supported),
                                                         msScch, Some(ingress), Some(ingress))]
    {
      var previous := if issi in assignments then assignments[issi] else NO_ASSIGNMENT;
      var capable := if supported.Some? then supported else previous.supported;
      msScch := None;
      if capable == Some(true) {
        if issi in pending && previous.registrationSlot.Some? && previous.msScch.Some? {
          msScch := previous.msScch;
        } else {
          var value := Balance(issi, previous, count);
          msScch := Some(value);
        }
      }
      assignments := assignments[issi := Assignment(capable, msScch, Some(ingress), Some(ingress))];
    }

    method Balance(issi: nat, previous: Assignment, count: nat) returns (value: nat)
      ensures exists slot :: IsLightest(OthersLoads(active + pending, assignments, issi, count),
                                        Slot(previous.msScch, count), slot)
                             && IsLeastUsed(OthersUses(assignments, issi), count, slot, value)
    {
      hide IsLightest, IsLeastUsed, OnChannel, UsersOf;
      // The program counts everyone and takes the terminal itself off its own channel again.
      var loads: seq<nat> := [];
      for i := 0 to Channels(count)
        invariant |loads| == i && forall j | 0 <= j < i ::
                    loads[j] == |OnChannel(active + pending, assignments, issi, count, j + 1)|
      {
        var load := CountOnChannel(active + pending, issi, count, i + 1);
        loads := loads + [load];
      }
      assert loads == OthersLoads(active + pending, assignments, issi, count);
      var slot := FindLightest(loads, Slot(previous.msScch, count));
      assert 1 <= slot <= Channels(count) by {
        LightestExists(loads, Slot(previous.msScch, count), slot);
      }
      var uses: seq<nat> := [];
      for v := 0 to VALUES
        invariant |uses| == v && forall w | 0 <= w < v :: uses[w] == |UsersOf(assignments, issi, w)|
      {
        var n := CountUsers(issi, v);
        uses := uses + [n];
      }
      assert uses == OthersUses(assignments, issi);
      value := FindLeastUsed(uses, count, slot);
    }
  }

  lemma MembersOf(subscribers: map<nat, set<nat>>, group: nat)
    ensures group in GroupsOf(subscribers) <==> exists i :: i in subscribers && group in subscribers[i]
  {
  }

  lemma GroupsSplit(subscribers: map<nat, set<nat>>, issi: nat)
    ensures issi in subscribers ==> GroupsOf(subscribers) == GroupsOf(subscribers - {issi}) + subscribers[issi]
    ensures issi !in subscribers ==> subscribers - {issi} == subscribers
  {
    if issi in subscribers {
      forall g
        ensures g in GroupsOf(subscribers) <==> g in GroupsOf(subscribers - {issi}) + subscribers[issi]
      {
        MembersOf(subscribers, g);
        MembersOf(subscribers - {issi}, g);
        if i :| i in subscribers && g in subscribers[i] && i != issi {
          assert i in subscribers - {issi};
        }
      }
    }
  }

  lemma GroupsWith(subscribers: map<nat, set<nat>>, issi: nat, groups: set<nat>)
    ensures GroupsOf(subscribers[issi := groups]) == GroupsOf(subscribers - {issi}) + groups
  {
    GroupsSplit(subscribers[issi := groups], issi);
    assert subscribers[issi := groups] - {issi} == subscribers - {issi};
  }

  lemma LightestExists(loads: seq<nat>, own: nat, slot: nat)
    requires IsLightest(loads, own, slot)
    ensures 1 <= slot <= |loads|
  {
  }

  lemma OneMoreOnChannel(cell: set<nat>, o: nat, assignments: map<nat, Assignment>, issi: nat, count: nat, slot: nat)
    requires o !in cell
    ensures |OnChannel(cell + {o}, assignments, issi, count, slot)| ==
            |OnChannel(cell, assignments, issi, count, slot)|
            + if o != issi && Slot(AssignmentOf(assignments, o).msScch, count) == slot then 1 else 0
  {
    hide Slot;
    var before, after := OnChannel(cell, assignments, issi, count, slot),
      OnChannel(cell + {o}, assignments, issi, count, slot);
    assert after == before + if o != issi && Slot(AssignmentOf(assignments, o).msScch, count) == slot then {o} else {};
  }

  /**
   What the request says of the capability counts, and what an earlier one said if it says nothing:
   without it there is no value. With it a value is kept while its registration is being delivered,
   and otherwise is one of the twelve.
   */
  lemma ChoiceFollowsTheRequest(active: set<nat>, pending: set<nat>, assignments: map<nat, Assignment>, issi: nat,
                                supported: Option<bool>, count: nat, msScch: Option<nat>)
    requires Chosen(active, pending, assignments, issi, supported, count, msScch)
    ensures var told := issi in assignments && assignments[issi].supported == Some(true);
            msScch.Some? <==> supported == Some(true) || (supported.None? && told)
    ensures msScch.Some? ==>
              if issi in pending && issi in assignments && assignments[issi].registrationSlot.Some?
                && assignments[issi].msScch.Some?
              then msScch == assignments[issi].msScch else msScch.value < 12
  {
    hide IsLightest, OthersLoads, OthersUses;
  }

  // ----- Balance over runs

  // The part of the registry that balancing depends on.
  datatype Cell = Cell(active: set<nat>, pending: set<nat>, assignments: map<nat, Assignment>)

  datatype Event =
    | Begin(issi: nat, supported: Option<bool>, ingress: nat, msScch: Option<nat>)
    | Complete(issi: nat)
    | Leave(issi: nat)
    | Fail(issi: nat)

  // What `SelectCommonControl` and then `SetRegistrationDeliveryPending` make of the cell.
  ghost predicate Begins(before: Cell, after: Cell, count: nat, e: Event)
    requires e.Begin?
  {
    && Capable(AssignmentOf(before.assignments, e.issi), e.supported) == Some(true)
    && Chosen(before.active, before.pending, before.assignments, e.issi, e.supported, count, e.msScch)
    && after == Cell(before.active - {e.issi}, before.pending + {e.issi},
                     before.assignments[e.issi := Assignment(Some(true), e.msScch, Some(e.ingress), Some(e.ingress))])
  }

  /**
   One step of a cell of capable terminals. A terminal, new or known, selects a channel and
   waits for its registration to be delivered; that delivery completes and it is active, or it
   fails and the terminal is not counted any more; or a terminal leaves and is forgotten.
   */
  ghost predicate Changes(before: Cell, after: Cell, count: nat, e: Event) {
    match e
    case Begin(_, _, _, _) => Begins(before, after, count, e)
    case Complete(issi) =>
      && issi in before.pending && issi in before.assignments
      && after == Cell(before.active + {issi}, before.pending - {issi},
                       before.assignments[issi := before.assignments[issi].(registrationSlot := None)])
    case Leave(issi) => after == Cell(before.active - {issi}, before.pending - {issi}, before.assignments - {issi})
    case Fail(issi) => issi in before.pending && after == before.(pending := before.pending - {issi})
  }

  predicate Departs(e: Event) {
    e.Leave? || e.Fail?
  }

  function Departures(events: seq<Event>, n: nat): nat
    requires n <= |events|
  {
    if n == 0 then 0 else Departures(events, n - 1) + if Departs(events[n - 1]) then 1 else 0
  }

  ghost predicate IsRun(cells: seq<Cell>, events: seq<Event>, count: nat) {
    && |cells| == |events| + 1 && cells[0] == Cell({}, {}, map[])
    && forall i | 0 <= i < |events| :: Changes(cells[i], cells[i + 1], count, events[i])
  }

  // Every terminal of the cell is active or pending, and on one of the twelve values.
  predicate Settled(c: Cell) {
    && c.active !! c.pending && c.assignments.Keys == c.active + c.pending
    && forall o <- c.assignments.Keys :: c.assignments[o].msScch.Some? && c.assignments[o].msScch.value < VALUES
  }

  // Terminals on a value, and on a channel.
  function Uses(c: Cell): (uses: seq<nat>)
    ensures |uses| == VALUES
  {
    seq(VALUES, v requires 0 <= v => |set o | o in c.assignments && c.assignments[o].msScch == Some(v)|)
  }

  function ChannelLoad(c: Cell, count: nat, slot: nat): nat {
    |set o | o in c.active + c.pending && Slot(AssignmentOf(c.assignments, o).msScch, count) == slot|
  }

  // Terminals other than `issi` on a channel through one of the values below `n`.
  function OnValues(c: Cell, issi: nat, count: nat, slot: nat, n: nat): set<nat> {
    set o | o in c.active + c.pending && o != issi && o in c.assignments && c.assignments[o].msScch.Some?
      && c.assignments[o].msScch.value < n
            && Slot(c.assignments[o].msScch, count) == slot
  }

  /** A channel's load is the sum of the uses of its values. */
  lemma {:induction false} LoadIsSum(c: Cell, issi: nat, count: nat, slot: nat, n: nat)
    requires Settled(c) && n <= VALUES
    ensures |OnValues(c, issi, count, slot, n)| == SlotSum(OthersUses(c.assignments, issi), count, slot, n)
  {
    hide Slot;
    var uses := OthersUses(c.assignments, issi);
    if n == 0 {
      assert OnValues(c, issi, count, slot, 0) == {};
    } else {
      LoadIsSum(c, issi, count, slot, n - 1);
      var fewer, users := OnValues(c, issi, count, slot, n - 1), UsersOf(c.assignments, issi, n - 1);
      assert uses[n - 1] == |users|;
      if Slot(Some(n - 1), count) == slot {
        assert OnValues(c, issi, count, slot, n) == fewer + users;
        assert fewer !! users;
      } else {
        assert OnValues(c, issi, count, slot, n) == fewer;
      }
    }
  }

  lemma OthersLoadsAreSums(c: Cell, issi: nat, count: nat)
    requires Settled(c)
    ensures OthersLoads(c.active + c.pending, c.assignments, issi, count)
            == Loads(OthersUses(c.assignments, issi), count)
  {
    hide Slot;
    var ours, sums := OthersLoads(c.active + c.pending, c.assignments, issi, count),
      Loads(OthersUses(c.assignments, issi), count);
    forall i | 0 <= i < |ours|
      ensures ours[i] == sums[i]
    {
      LoadIsSum(c, issi, count, i + 1, VALUES);
      assert OnChannel(c.active + c.pending, c.assignments, issi, count, i + 1) == OnValues(c, issi, count,
                                                                                            i + 1, VALUES);
    }
  }

  lemma OneMoreUser(c: Cell, issi: nat, v: nat, w: nat)
    requires issi in c.assignments && c.assignments[issi].msScch == Some(v)
    ensures |set o | o in c.assignments && c.assignments[o].msScch == Some(w)| == |UsersOf(c.assignments, issi, w)|
            + if w == v then 1 else 0
  {
    var all, others := (set o | o in c.assignments && c.assignments[o].msScch == Some(w)),
      UsersOf(c.assignments, issi, w);
    if w == v {
      assert all == others + {issi};
    } else {
      assert all == others;
    }
  }

  lemma UsesWith(c: Cell, issi: nat, v: nat)
    requires issi in c.assignments && c.assignments[issi].msScch == Some(v) && v < VALUES
    ensures Uses(c) == Plus(OthersUses(c.assignments, issi), v)
  {
    forall w | 0 <= w < VALUES
      ensures Uses(c)[w] == OthersUses(c.assignments, issi)[w] + if w == v then 1 else 0
    {
      OneMoreUser(c, issi, v, w);
    }
    hide Uses, OthersUses;
    assert Uses(c) == Plus(OthersUses(c.assignments, issi), v);
  }

  lemma UsesWithout(c: Cell, issi: nat)
    requires issi !in c.assignments
    ensures Uses(c) == OthersUses(c.assignments, issi)
  {
    forall w | 0 <= w < VALUES
      ensures Uses(c)[w] == OthersUses(c.assignments, issi)[w]
    {
      assert (set o | o in c.assignments && c.assignments[o].msScch == Some(w)) == UsersOf(c.assignments, issi, w);
    }
  }

  lemma OthersUnchanged(before: map<nat, Assignment>, issi: nat, a: Assignment)
    ensures OthersUses(before[issi := a], issi) == OthersUses(before, issi)
  {
    forall w | 0 <= w < VALUES
      ensures OthersUses(before[issi := a], issi)[w] == OthersUses(before, issi)[w]
    {
      assert UsersOf(before[issi := a], issi, w) == UsersOf(before, issi, w);
    }
  }

  // A terminal keeps its value: nothing moves.
  lemma SameUses(before: Cell, after: Cell, issi: nat)
    requires issi in before.assignments && issi in after.assignments
    requires after.assignments == before.assignments[issi := after.assignments[issi]]
    requires after.assignments[issi].msScch == before.assignments[issi].msScch
    ensures Uses(after) == Uses(before)
  {
    forall w | 0 <= w < VALUES
      ensures Uses(after)[w] == Uses(before)[w]
    {
      assert (set o | o in after.assignments && after.assignments[o].msScch == Some(w))
          == (set o | o in before.assignments && before.assignments[o].msScch == Some(w));
    }
  }

  lemma BeginKeepsEven(before: Cell, after: Cell, count: nat, e: Event)
    requires e.Begin? && Settled(before) && Even(Uses(before), count) && Begins(before, after, count, e)
    ensures Settled(after) && Even(Uses(after), count)
    ensures e.issi in before.assignments ==>
              Slot(after.assignments[e.issi].msScch, count) == Slot(before.assignments[e.issi].msScch, count)
  {
    var issi, previous := e.issi, AssignmentOf(before.assignments, e.issi);
    if Keeps(previous, issi in before.pending) {
      hide Even, Uses, Slot;
      SameUses(before, after, issi);
    } else {
      var uses := OthersUses(before.assignments, issi);
      var slot := BeginsOn(before, after, count, e);
      assert issi in before.assignments ==>
               previous == before.assignments[issi] && previous.msScch.Some? && previous.msScch.value < VALUES;
      hide Slot, OthersUses, Uses, IsLightest, IsLeastUsed, Loads, Even, Begins, Settled, Keeps;
      UsesWith(after, issi, e.msScch.value);
      if issi in before.assignments {
        UsesWith(before, issi, previous.msScch.value);
        ReturnKeepsEven(uses, count, previous.msScch.value, slot, e.msScch.value);
      } else {
        UsesWithout(before, issi);
        NewcomerKeepsEven(uses, count, Slot(previous.msScch, count), slot, e.msScch.value);
      }
    }
  }

  // The lightest channel, on whose least used value the terminal goes.
  lemma BeginsOn(before: Cell, after: Cell, count: nat, e: Event) returns (slot: nat)
    requires e.Begin? && Settled(before) && Begins(before, after, count, e)
    requires !Keeps(AssignmentOf(before.assignments, e.issi), e.issi in before.pending)
    ensures var uses := OthersUses(before.assignments, e.issi);
            && Settled(after) && e.msScch.Some? && e.issi in after.assignments
            && after.assignments[e.issi].msScch == e.msScch
            && IsLightest(Loads(uses, count), Slot(AssignmentOf(before.assignments, e.issi).msScch, count), slot)
            && IsLeastUsed(uses, count, slot, e.msScch.value)
            && OthersUses(after.assignments, e.issi) == uses
  {
    var issi := e.issi;
    OthersLoadsAreSums(before, issi, count);
    OthersUnchanged(before.assignments, issi, after.assignments[issi]);
    hide OthersUses, OthersLoads, Loads, IsLightest, Slot;
    slot :| IsLightest(Loads(OthersUses(before.assignments, issi), count),
                       Slot(AssignmentOf(before.assignments, issi).msScch, count), slot)
            && IsLeastUsed(OthersUses(before.assignments, issi), count, slot, e.msScch.value);
  }

  lemma ChangeKeepsEven(before: Cell, after: Cell, count: nat, e: Event)
    requires Settled(before) && Even(Uses(before), count) && Changes(before, after, count, e) && !Departs(e)
    ensures Settled(after) && Even(Uses(after), count)
  {
    hide Even, Uses;
    match e
    case Begin(_, _, _, _) =>
      hide Begins, Settled;
      BeginKeepsEven(before, after, count, e);
    case Complete(issi) => SameUses(before, after, issi);
  }

  lemma EmptyIsEven(count: nat)
    ensures Even(Uses(Cell({}, {}, map[])), count)
  {
    var uses := Uses(Cell({}, {}, map[]));
    UsesWithout(Cell({}, {}, map[]), 0);
    forall v | 0 <= v < VALUES
      ensures uses[v] == 0
    {
      assert UsersOf(map[], 0, v) == {};
    }
    assert Level(uses, 0);
    forall s | 1 <= s <= Channels(count)
      ensures SlotLoad(uses, count, s) == 0
    {
      ZeroSum(uses, count, s, VALUES);
    }
  }

  lemma {:induction false} ZeroSum(uses: seq<nat>, count: nat, slot: nat, n: nat)
    requires n <= |uses| && forall v | 0 <= v < |uses| :: uses[v] == 0
    ensures SlotSum(uses, count, slot, n) == 0
  {
    if n > 0 {
      ZeroSum(uses, count, slot, n - 1);
    }
  }

  lemma {:induction false} RunStaysEven(cells: seq<Cell>, events: seq<Event>, count: nat, n: nat)
    requires IsRun(cells, events, count) && n < |cells| && Departures(events, n) == 0
    ensures Settled(cells[n]) && Even(Uses(cells[n]), count)
  {
    hide Even, Uses, Changes;
    if n == 0 {
      EmptyIsEven(count);
    } else {
      RunStaysEven(cells, events, count, n - 1);
      ChangeKeepsEven(cells[n - 1], cells[n], count, events[n - 1]);
    }
  }

  lemma {:induction false} Outside(s: set<nat>) returns (n: nat)
    ensures forall m <- s :: m < n
  {
    n := 0;
    if s != {} {
      var m :| m in s;
      var above := Outside(s - {m});
      n := if above <= m then m + 1 else above;
      forall k <- s
        ensures k < n
      {
        assert k == m || k in s - {m};
      }
    }
  }

  lemma ChannelLoadIsSum(c: Cell, count: nat, slot: nat)
    requires Settled(c)
    ensures ChannelLoad(c, count, slot) == SlotLoad(Uses(c), count, slot)
  {
    hide Slot;
    var nobody := Outside(c.active + c.pending);
    LoadIsSum(c, nobody, count, slot, VALUES);
    UsesWithout(c, nobody);
    assert (set o | o in c.active + c.pending && Slot(AssignmentOf(c.assignments, o).msScch, count) == slot)
           == OnValues(c, nobody, count, slot, VALUES);
  }

  // ----- Balance when terminals depart

  // Channel loads differ by at most `d`.
  ghost predicate Within(c: Cell, count: nat, d: nat) {
    forall s, t | 1 <= s <= Channels(count) && 1 <= t <= Channels(count) ::
        ChannelLoad(c, count, s) <= ChannelLoad(c, count, t) + d
  }

  // A channel's load is that of the others and, on its own channel, the terminal itself.
  lemma LoadWith(c: Cell, issi: nat, count: nat, slot: nat)
    ensures ChannelLoad(c, count, slot) ==
            |OnChannel(c.active + c.pending, c.assignments, issi, count, slot)|
            + if issi in c.active + c.pending && Slot(AssignmentOf(c.assignments, issi).msScch, count) == slot
              then 1 else 0
  {
    hide Slot;
    var all := set o | o in c.active + c.pending && Slot(AssignmentOf(c.assignments, o).msScch, count) == slot;
    var others := OnChannel(c.active + c.pending, c.assignments, issi, count, slot);
    if issi in all {
      assert all == others + {issi};
    } else {
      assert all == others;
    }
  }

  lemma SameOthers(before: Cell, after: Cell, issi: nat, count: nat, slot: nat)
    requires forall o | o != issi :: (o in before.active + before.pending <==> o in after.active + after.pending)
    requires forall o | o != issi :: AssignmentOf(before.assignments, o) == AssignmentOf(after.assignments, o)
    ensures OnChannel(before.active + before.pending, before.assignments, issi, count, slot) ==
            OnChannel(after.active + after.pending, after.assignments, issi, count, slot)
  {
    hide Slot, AssignmentOf;
  }

  // Only this terminal's own share of the load can move.
  lemma OnlyOneMoves(before: Cell, after: Cell, count: nat, e: Event)
    requires Changes(before, after, count, e)
    ensures forall o | o != e.issi :: (o in before.active + before.pending <==> o in after.active + after.pending)
    ensures forall o | o != e.issi :: AssignmentOf(before.assignments, o) == AssignmentOf(after.assignments, o)
    ensures Departs(e) ==>
              after.active + after.pending <= before.active + before.pending
              && (e.Fail? ==> after.assignments == before.assignments)
    ensures e.Complete? ==> e.issi in before.active + before.pending && e.issi in after.active + after.pending
                            && AssignmentOf(after.assignments, e.issi).msScch == AssignmentOf(before.assignments,
                                                                                              e.issi).msScch
  {
    hide Chosen;
  }

  function LoadsOf(cell: set<nat>, assignments: map<nat, Assignment>, issi: nat, count: nat, slot: nat): nat {
    |OnChannel(cell, assignments, issi, count, slot)|
  }

  lemma BeginStaysWithin(before: Cell, after: Cell, count: nat, e: Event, d: nat)
    requires e.Begin? && Changes(before, after, count, e) && Within(before, count, d) && d >= 1
    ensures Within(after, count, d)
  {
    var issi, previous := e.issi, AssignmentOf(before.assignments, e.issi);
    OnlyOneMoves(before, after, count, e);
    var cell := before.active + before.pending;
    forall s | 1 <= s <= Channels(count)
      ensures ChannelLoad(before, count, s) ==
              LoadsOf(cell, before.assignments, issi, count, s) + if issi in cell && Slot(previous.msScch, count) == s
                then 1 else 0
      ensures ChannelLoad(after, count, s) ==
              LoadsOf(cell, before.assignments, issi, count, s) + if Slot(e.msScch, count) == s then 1 else 0
    {
      LoadWith(before, issi, count, s);
      LoadWith(after, issi, count, s);
      SameOthers(before, after, issi, count, s);
    }
    if !Keeps(previous, issi in before.pending) {
      LightestIsLeast(before, count, e);
    }
    hide Slot, ChannelLoad, LoadsOf, Changes, Keeps;
  }

  // The channel begun on has the least others of all; the terminal's own one if that has too.
  lemma LightestIsLeast(before: Cell, count: nat, e: Event)
    requires e.Begin? && Chosen(before.active, before.pending, before.assignments, e.issi, e.supported, count, e.msScch)
    requires Capable(AssignmentOf(before.assignments, e.issi), e.supported) == Some(true)
    requires !Keeps(AssignmentOf(before.assignments, e.issi), e.issi in before.pending)
    ensures var own, slot := Slot(AssignmentOf(before.assignments, e.issi).msScch, count), Slot(e.msScch, count);
            var cell, assignments := before.active + before.pending, before.assignments;
            && (forall s | 1 <= s <= Channels(count) ::
                  LoadsOf(cell, assignments, e.issi, count, slot) <= LoadsOf(cell, assignments, e.issi, count, s))
            && (slot != own ==> LoadsOf(cell, assignments, e.issi, count, slot) < LoadsOf(cell, assignments, e.issi,
                                                                                          count, own))
  {
    hide Slot, OnChannel, OthersUses;
    var loads := OthersLoads(before.active + before.pending, before.assignments, e.issi, count);
    assert forall s | 1 <= s <= Channels(count) ::
             loads[s - 1] == LoadsOf(before.active + before.pending, before.assignments, e.issi, count, s);
  }

  lemma ChangeStaysWithin(before: Cell, after: Cell, count: nat, e: Event, d: nat)
    requires Changes(before, after, count, e) && Within(before, count, d) && d >= 1
    ensures Within(after, count, d + if Departs(e) then 1 else 0)
  {
    if e.Begin? {
      BeginStaysWithin(before, after, count, e, d);
    } else {
      OnlyOneMoves(before, after, count, e);
      forall s | 1 <= s <= Channels(count)
        ensures e.Complete? ==> ChannelLoad(after, count, s) == ChannelLoad(before, count, s)
        ensures Departs(e) ==>
                  ChannelLoad(after, count, s) <= ChannelLoad(before, count, s) <= ChannelLoad(after, count, s) + 1
      {
        LoadWith(before, e.issi, count, s);
        LoadWith(after, e.issi, count, s);
        SameOthers(before, after, e.issi, count, s);
      }
      hide ChannelLoad, Changes;
    }
  }

  lemma EmptyIsWithin(count: nat)
    ensures Within(Cell({}, {}, map[]), count, 1)
  {
    var c := Cell({}, {}, map[]);
    hide Slot;
    forall s | 1 <= s <= Channels(count)
      ensures ChannelLoad(c, count, s) == 0
    {
      assert (set o | o in c.active + c.pending && Slot(AssignmentOf(c.assignments, o).msScch, count) == s) == {};
    }
  }

  lemma {:induction false} RunStaysWithin(cells: seq<Cell>, events: seq<Event>, count: nat, n: nat)
    requires IsRun(cells, events, count) && n < |cells|
    ensures Within(cells[n], count, 1 + Departures(events, n))
  {
    hide Within, Changes, Departs;
    if n == 0 {
      EmptyIsWithin(count);
    } else {
      RunStaysWithin(cells, events, count, n - 1);
      ChangeStaysWithin(cells[n - 1], cells[n], count, events[n - 1], 1 + Departures(events, n - 1));
    }
  }

  /**
   Balanced control channels. Starting from an empty registry, while any number of capable
   terminals register (or register again), their deliveries complete or fail and terminals leave,
   in any order, channel loads differ by at most one more than the number of those that failed or
   left. While there were none, uses of the twelve MS_SCCH values differ by at most one as well,
   and counted for any other number `other` of secondary channels the loads differ by at most 12
   over the number of channels.
   */
  lemma BalancedChannels(cells: seq<Cell>, events: seq<Event>, count: nat, n: nat, other: nat)
    requires IsRun(cells, events, count) && n < |cells|
    ensures Within(cells[n], count, 1 + Departures(events, n))
    ensures Departures(events, n) == 0 ==> Spread(cells[n], other)
  {
    hide Within, Spread, Changes;
    RunStaysWithin(cells, events, count, n);
    if Departures(events, n) == 0 {
      RunIsSpread(cells, events, count, n, other);
    }
  }

  // Uses of the values differ by at most one, and so do loads, for any count, up to a share.
  ghost predicate Spread(c: Cell, other: nat) {
    && (forall v, w | 0 <= v < VALUES && 0 <= w < VALUES :: Uses(c)[v] <= Uses(c)[w] + 1)
    && Within(c, other, VALUES / Channels(other))
  }

  lemma RunIsSpread(cells: seq<Cell>, events: seq<Event>, count: nat, n: nat, other: nat)
    requires IsRun(cells, events, count) && n < |cells| && Departures(events, n) == 0
    ensures Spread(cells[n], other)
  {
    RunStaysEven(cells, events, count, n);
    var c := cells[n];
    hide IsRun, Uses, ChannelLoad, SlotLoad, Settled;
    var q: nat :| Level(Uses(c), q);
    forall s, t | 1 <= s <= Channels(other) && 1 <= t <= Channels(other)
      ensures ChannelLoad(c, other, s) <= ChannelLoad(c, other, t) + VALUES / Channels(other)
    {
      ChannelLoadIsSum(c, other, s);
      ChannelLoadIsSum(c, other, t);
      LevelLoads(Uses(c), q, other, s, t);
    }
  }

  // ----- The bound is attained

  // Terminals 0 to `n - 1`, having registered one after the other.
  function Crowd(n: nat): Cell {
    var assignments := map o: nat | o < n :: Assignment(Some(true), Some(o % 12), Some(1), Some(1));
    Cell({}, assignments.Keys, assignments)
  }

  // The channel, or value, whose turn it is when they are taken in rotation.
  function Turn(o: nat, c: nat): nat
    requires c > 0
  {
    1 + o % c
  }

  lemma TurnsShare(n: nat, c: nat, slot: nat)
    requires 1 <= slot <= c
    ensures Share(n + 1, c, slot) == Share(n, c, slot) + if Turn(n, c) == slot then 1 else 0
  {
    ShareOneMore(n, c, slot);
  }

  lemma {:induction false} CountTurns(n: nat, c: nat, slot: nat)
    requires 1 <= slot <= c
    ensures |set o: nat | o < n && Turn(o, c) == slot| == Share(n, c, slot)
  {
    hide Share, Turn;
    if n == 0 {
      assert (set o: nat | o < n && Turn(o, c) == slot) == {};
      NoShare(c, slot);
    } else {
      CountTurns(n - 1, c, slot);
      TurnsShare(n - 1, c, slot);
      var fewer := set o: nat | o < n - 1 && Turn(o, c) == slot;
      assert (set o: nat | o < n && Turn(o, c) == slot) == fewer + if Turn(n - 1, c) == slot then {n - 1} else {};
    }
  }

  lemma CrowdSlot(o: nat, count: nat)
    ensures Slot(Some(o % 12), count) == Turn(o, Channels(count))
  {
    TwelfthsDivide(o, Channels(count));
    hide Channels;
  }

  lemma TwelfthsDivide(o: nat, c: nat)
    requires 1 <= c <= 4
    ensures o % 12 % c == o % c
  {
    var q, r := o / 12, o % 12;
    if c == 2 {
      Euclid(o, 2, 6 * q + r / 2, r % 2);
    } else if c == 3 {
      Euclid(o, 3, 4 * q + r / 3, r % 3);
    } else if c == 4 {
      Euclid(o, 4, 3 * q + r / 4, r % 4);
    }
  }

  lemma CrowdLoads(n: nat, count: nat, slot: nat)
    requires 1 <= slot <= Channels(count)
    ensures |OnChannel(Crowd(n).active + Crowd(n).pending, Crowd(n).assignments, n, count, slot)|
            == Share(n, Channels(count), slot)
  {
    hide Slot, Share;
    CountTurns(n, Channels(count), slot);
    forall o: nat
      ensures Slot(Some(o % 12), count) == Turn(o, Channels(count))
    {
      CrowdSlot(o, count);
    }
    assert OnChannel(Crowd(n).active + Crowd(n).pending, Crowd(n).assignments, n, count, slot)
        == set o: nat | o < n && Turn(o, Channels(count)) == slot;
  }

  lemma CrowdUses(n: nat, w: nat)
    requires w < VALUES
    ensures |UsersOf(Crowd(n).assignments, n, w)| == Share(n, VALUES, w + 1)
  {
    hide Share;
    CountTurns(n, VALUES, w + 1);
    assert UsersOf(Crowd(n).assignments, n, w) == set o: nat | o < n && Turn(o, VALUES) == w + 1;
  }

  // The next number modulo `c` has the smallest share, and is the first to have it.
  lemma NextHasLeast(n: nat, c: nat, slot: nat)
    requires 1 <= slot <= c
    ensures Share(n, c, 1 + n % c) == n / c <= Share(n, c, slot)
    ensures Share(n, c, slot) == n / c ==> 1 + n % c <= slot
  {
  }

  lemma CrowdIsLightest(n: nat, count: nat)
    ensures IsLightest(OthersLoads(Crowd(n).active + Crowd(n).pending, Crowd(n).assignments, n, count), 1,
                       Turn(n, Channels(count)))
  {
    var c := Channels(count);
    var loads := OthersLoads(Crowd(n).active + Crowd(n).pending, Crowd(n).assignments, n, count);
    hide OnChannel, Crowd, Share, Channels;
    forall i | 0 <= i < |loads|
      ensures loads[i] == Share(n, c, i + 1) && loads[n % c] == n / c && n / c <= loads[i]
              && (n / c == loads[i] ==> n % c <= i)
    {
      CrowdLoads(n, count, i + 1);
      CrowdLoads(n, count, n % c + 1);
      NextHasLeast(n, c, i + 1);
    }
  }

  lemma CrowdIsLeastUsed(n: nat, count: nat)
    ensures IsLeastUsed(OthersUses(Crowd(n).assignments, n), count, Turn(n, Channels(count)), n % 12)
  {
    var uses := OthersUses(Crowd(n).assignments, n);
    hide UsersOf, Crowd, Share, Slot;
    CrowdSlot(n, count);
    forall w | 0 <= w < VALUES
      ensures uses[n % 12] == n / 12 <= uses[w] && (n / 12 == uses[w] ==> n % 12 <= w)
    {
      CrowdUses(n, w);
      CrowdUses(n, n % 12);
      NextHasLeast(n, VALUES, w + 1);
    }
  }

  function Joins(n: nat): Event {
    Begin(n, Some(true), 1, Some(n % 12))
  }

  lemma CrowdGrows(n: nat, count: nat)
    ensures Changes(Crowd(n), Crowd(n + 1), count, Joins(n))
  {
    CrowdIsLightest(n, count);
    CrowdIsLeastUsed(n, count);
    hide IsLightest, IsLeastUsed, OthersLoads, OthersUses;
    var c := Crowd(n);
    assert AssignmentOf(c.assignments, n) == NO_ASSIGNMENT;
    assert Slot(None, count) == 1 by { CrowdSlot(0, count); }
    assert Crowd(n + 1).pending == c.pending + {n};
    assert Crowd(n + 1).assignments == c.assignments[n := Assignment(Some(true), Some(n % 12), Some(1), Some(1))];
  }

  lemma {:induction false} SameDepartures(events: seq<Event>, events': seq<Event>, n: nat)
    requires events <= events' && n <= |events|
    ensures Departures(events', n) == Departures(events, n)
  {
    if n > 0 {
      SameDepartures(events, events', n - 1);
    }
  }

  lemma Longer(cells: seq<Cell>, events: seq<Event>, count: nat, e: Event, after: Cell)
      returns (cells': seq<Cell>, events': seq<Event>)
    requires IsRun(cells, events, count) && Changes(cells[|events|], after, count, e)
    ensures IsRun(cells', events', count) && cells'[|events'|] == after
    ensures Departures(events', |events'|) == Departures(events, |events|) + if Departs(e) then 1 else 0
  {
    hide Changes, Departs;
    cells', events' := cells + [after], events + [e];
    forall i | 0 <= i < |events'|
      ensures Changes(cells'[i], cells'[i + 1], count, events'[i])
    {
      if i < |events| {
        assert cells'[i] == cells[i] && events'[i] == events[i] && cells'[i + 1] == cells[i + 1];
      }
    }
    SameDepartures(events, events', |events|);
  }

  lemma {:induction false} CrowdRun(n: nat, count: nat) returns (cells: seq<Cell>, events: seq<Event>)
    ensures IsRun(cells, events, count) && cells[|events|] == Crowd(n) && Departures(events, |events|) == 0
  {
    hide Changes;
    if n == 0 {
      cells, events := [Crowd(0)], [];
      assert Crowd(0) == Cell({}, {}, map[]);
    } else {
      cells, events := CrowdRun(n - 1, count);
      CrowdGrows(n - 1, count);
      cells, events := Longer(cells, events, count, Joins(n - 1), Crowd(n));
    }
  }

  // The first `k` terminals of the second channel.
  function FirstOfSecond(k: nat, c: nat): set<nat> {
    set j: nat | j < k :: 1 + j * c
  }

  function Thinned(n: nat, k: nat, c: nat): Cell {
    Cell({}, Crowd(n).pending - FirstOfSecond(k, c), Crowd(n).assignments - FirstOfSecond(k, c))
  }

  lemma ThinsOut(n: nat, k: nat, count: nat)
    ensures Changes(Thinned(n, k, Channels(count)), Thinned(n, k + 1, Channels(count)), count,
                    Leave(1 + k * Channels(count)))
  {
    var c := Channels(count);
    assert FirstOfSecond(k + 1, c) == FirstOfSecond(k, c) + {1 + k * c};
    hide FirstOfSecond, Crowd;
    var before, after := Thinned(n, k, c), Thinned(n, k + 1, c);
    assert after.pending == before.pending - {1 + k * c};
    assert after.assignments == before.assignments - {1 + k * c};
  }

  lemma {:induction false} ThinnedRun(n: nat, k: nat, count: nat) returns (cells: seq<Cell>, events: seq<Event>)
    ensures IsRun(cells, events, count) && cells[|events|] == Thinned(n, k, Channels(count))
            && Departures(events, |events|) == k
  {
    hide Changes, IsRun, Channels;
    if k == 0 {
      cells, events := CrowdRun(n, count);
      assert FirstOfSecond(0, Channels(count)) == {};
      assert Thinned(n, 0, Channels(count)) == Crowd(n);
    } else {
      cells, events := ThinnedRun(n, k - 1, count);
      ThinsOut(n, k - 1, count);
      cells, events := Longer(cells, events, count, Leave(1 + (k - 1) * Channels(count)),
                              Thinned(n, k, Channels(count)));
    }
  }

  // With the second channel emptied, the first has `d + 1` terminals.
  lemma SecondIsEmpty(d: nat, count: nat)
    requires Channels(count) >= 2
    ensures var t := Thinned(Channels(count) * d + 1, d, Channels(count));
            ChannelLoad(t, count, 1) == d + 1 && ChannelLoad(t, count, 2) == 0
  {
    var c := Channels(count);
    var n := c * d + 1;
    var t := Thinned(n, d, c);
    hide Slot, Channels, Share, FirstOfSecond;
    ThinnedOn(n, d, count, 1);
    ThinnedOn(n, d, count, 2);
    assert (set o: nat | o < n && Turn(o, c) == 1 && o !in FirstOfSecond(d, c)) == set o: nat | o < n
           && Turn(o, c) == 1 by {
      forall o <- FirstOfSecond(d, c)
        ensures Turn(o, c) == 2
      {
        SecondsAre(d, c, o);
      }
    }
    CountTurns(n, c, 1);
    FirstShare(d, c);
    assert (set o: nat | o < n && Turn(o, c) == 2 && o !in FirstOfSecond(d, c)) == {} by {
      forall o: nat | o < n && Turn(o, c) == 2
        ensures o in FirstOfSecond(d, c)
      {
        SecondsAre(d, c, o);
      }
    }
  }

  lemma ThinnedOn(n: nat, k: nat, count: nat, slot: nat)
    ensures ChannelLoad(Thinned(n, k, Channels(count)), count, slot) ==
            |set o: nat | o < n && Turn(o, Channels(count)) == slot && o !in FirstOfSecond(k, Channels(count))|
  {
    var c := Channels(count);
    var t := Thinned(n, k, c);
    hide Slot, Channels, FirstOfSecond;
    forall o: nat
      ensures Slot(Some(o % 12), count) == Turn(o, c)
    {
      CrowdSlot(o, count);
    }
    assert (set o | o in t.active + t.pending && Slot(AssignmentOf(t.assignments, o).msScch, count) == slot)
        == set o: nat | o < n && Turn(o, c) == slot && o !in FirstOfSecond(k, c);
  }

  lemma SecondsAre(d: nat, c: nat, o: nat)
    requires 2 <= c <= 4
    ensures o in FirstOfSecond(d, c) ==> Turn(o, c) == 2
    ensures o < c * d + 1 && Turn(o, c) == 2 ==> o in FirstOfSecond(d, c)
  {
    if o in FirstOfSecond(d, c) {
      var j: nat :| j < d && o == 1 + j * c;
      Euclid(o, c, j, 1);
    }
    if o < c * d + 1 && Turn(o, c) == 2 {
      var j := o / c;
      assert o == c * j + 1 == 1 + j * c && j < d;
    }
  }

  lemma FirstShare(d: nat, c: nat)
    requires 2 <= c <= 4
    ensures Share(c * d + 1, c, 1) == d + 1
  {
    Euclid(c * d + 1, c, d, 1);
  }

  // Over every run in which at most `d` terminals departed, loads differ by at most `b`.
  ghost predicate AlwaysWithin(count: nat, d: nat, b: nat) {
    forall cells, events, n: nat | IsRun(cells, events, count) && n < |cells| && Departures(events, n) <= d ::
        Within(cells[n], count, b)
  }

  /**
   The bound is exact: with two channels or more, `d` departures can take the difference to `d + 1`
   and no further.
   */
  lemma DeparturesUnbalance(count: nat, d: nat, b: nat)
    requires Channels(count) >= 2
    ensures AlwaysWithin(count, d, b) <==> b >= d + 1
  {
    hide Changes, Within, Departures;
    if b >= d + 1 {
      forall cells, events, n: nat | IsRun(cells, events, count) && n < |cells| && Departures(events, n) <= d
        ensures Within(cells[n], count, b)
      {
        RunStaysWithin(cells, events, count, n);
        WithinMore(cells[n], count, 1 + Departures(events, n), b);
      }
    } else {
      var cells, events := ThinnedRun(Channels(count) * d + 1, d, count);
      NotWithin(d, b, count);
    }
  }

  lemma WithinMore(c: Cell, count: nat, d: nat, b: nat)
    requires Within(c, count, d) && d <= b
    ensures Within(c, count, b)
  {
  }

  lemma NotWithin(d: nat, b: nat, count: nat)
    requires Channels(count) >= 2 && b <= d
    ensures !Within(Thinned(Channels(count) * d + 1, d, Channels(count)), count, b)
  {
    SecondIsEmpty(d, count);
    hide ChannelLoad, Thinned;
  }
}
