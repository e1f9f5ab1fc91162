/**
 Generations of group keys (GCK): snapshots from the network, a rollover announced for an
 exact multiframe start, and its promotion. Keys are opaque identities.
 */
module Sc3gRollover {
  import opened Wrappers
  import opened Tdma

  datatype Gck = Gck(gckn: nat, vn: nat, key: nat)

  datatype GckId = GckId(gckn: nat, vn: nat)

  datatype Rollover = Rollover(id: nat, activationUnix: nat, activation: Option<TdmaTime>, activated: bool)

  datatype Sc3 = Sc3(
    revision: nat,
    linked: bool,
    vn: nat,
    gcks: map<nat, Gck>,
    retired: map<GckId, Gck>,
    futureVn: Option<nat>,
    future: map<nat, Gck>,
    rollover: Option<Rollover>,
    associations: map<nat, nat>)

  datatype Plan = Plan(id: nat, activationUnix: nat)

  datatype Snapshot = Snapshot(
    revision: nat,
    linked: bool,
    vn: nat,
    keys: seq<Gck>,
    futureVn: Option<nat>,
    futureKeys: seq<Gck>,
    plan: Option<Plan>,
    associations: seq<(nat, nat)>)

  datatype SnapshotError = NotLinked | BadKey | BadAssociation | BadFutureKey | BadPlan

  // ----- Reading a snapshot

  predicate KeysValid(keys: seq<Gck>, vn: nat) {
    && (forall i | 0 <= i < |keys| :: keys[i].vn == vn)
    && (forall i, j | 0 <= i < j < |keys| :: keys[i].gckn != keys[j].gckn)
  }

  function KeyMap(keys: seq<Gck>): map<nat, Gck> {
    if keys == [] then map[] else KeyMap(keys[..|keys| - 1])[keys[|keys| - 1].gckn := keys[|keys| - 1]]
  }

  predicate AssociationsValid(pairs: seq<(nat, nat)>, keys: map<nat, Gck>) {
    && (forall i | 0 <= i < |pairs| :: 1 <= pairs[i].0 <= 0xff_ffff && pairs[i].1 in keys)
    && (forall i, j | 0 <= i < j < |pairs| :: pairs[i].0 != pairs[j].0)
  }

  function AssociationMap(pairs: seq<(nat, nat)>): map<nat, nat> {
    if pairs == [] then map[] else AssociationMap(pairs[..|pairs| - 1])[pairs[|pairs| - 1].0 := pairs[|pairs| - 1].1]
  }

  predicate FutureValid(keys: seq<Gck>, vn: nat, current: map<nat, Gck>) {
    KeysValid(keys, vn) && forall i | 0 <= i < |keys| :: keys[i].gckn in current
  }

  function Verdict(snap: Snapshot): Option<SnapshotError> {
    if !snap.linked && (snap.keys != [] || snap.associations != []) then Some(NotLinked)
    else if !KeysValid(snap.keys, snap.vn) then Some(BadKey)
    else if !AssociationsValid(snap.associations, KeyMap(snap.keys)) then Some(BadAssociation)
    else if snap.futureVn.None? && snap.plan.None? && snap.futureKeys == [] then None
    else if snap.futureVn.Some? && snap.plan.Some? && snap.plan.value.activationUnix > 0 && snap.futureKeys != [] then
      if FutureValid(snap.futureKeys, snap.futureVn.value, KeyMap(snap.keys)) then None else Some(BadFutureKey)
    else Some(BadPlan)
  }

  // ----- Steps

  // Keys are filed under their own GCKN.
  function Retire(retired: map<GckId, Gck>, gcks: map<nat, Gck>): map<GckId, Gck> {
    retired + map n | n in gcks :: GckId(n, gcks[n].vn) := gcks[n]
  }

  // The rollover of a snapshot keeps what this cell already decided about the same one.
  function Carried(s: Sc3, plan: Option<Plan>): Option<Rollover> {
    if plan.None? then None
    else
      var same := s.rollover.Some? && s.rollover.value.id == plan.value.id;
      Some(Rollover(plan.value.id, plan.value.activationUnix,
                    if same then s.rollover.value.activation else None, same && s.rollover.value.activated))
  }

  // The durable state after the deadline, while this cell still waits for its announced slot.
  predicate WaitsForItsSlot(s: Sc3, snap: Snapshot) {
    && snap.plan.None? && s.rollover.Some? && !s.rollover.value.activated && s.rollover.value.activation.Some?
    && s.futureVn == Some(snap.vn) && s.future == KeyMap(snap.keys)
  }

  function Effective(s: Sc3, snap: Snapshot): Sc3 {
    if WaitsForItsSlot(s, snap) then s.(revision := snap.revision, linked := snap.linked,
                                        associations := AssociationMap(snap.associations))
    else
      Sc3(snap.revision, snap.linked, snap.vn, KeyMap(snap.keys),
          if s.vn != snap.vn then Retire(s.retired, s.gcks) else s.retired,
          snap.futureVn, KeyMap(snap.futureKeys), Carried(s, snap.plan), AssociationMap(snap.associations))
  }

  /** Apply a snapshot: older revisions and malformed ones change nothing. */
  function Apply(s: Sc3, snap: Snapshot): Sc3 {
    if snap.revision < s.revision || Verdict(snap).Some? then s else Effective(s, snap)
  }

  // Slots to a Unix time, rounded up: a slot is 17/1200 s.
  function SlotsToUnix(target: nat, now: nat): nat {
    ((if target > now then target - now else 0) * 1200 + 16) / 17
  }

  predicate CanSchedule(s: Sc3, unixNow: nat) {
    && s.rollover.Some? && !s.rollover.value.activated && s.rollover.value.activation.None?
    && SlotsToUnix(s.rollover.value.activationUnix, unixNow) < 0x8000_0000
  }

  function AnnouncedStart(activationUnix: nat, unixNow: nat, current: TdmaTime): TdmaTime {
    var due := current.AddTimeslots(SlotsToUnix(activationUnix, unixNow));
    due.AddTimeslots(SlotsToMultiframe(due))
  }

  function Schedule(s: Sc3, unixNow: nat, current: TdmaTime): Sc3 {
    if !CanSchedule(s, unixNow) then s
    else s.(rollover :=
            Some(s.rollover.value.(activation := Some(AnnouncedStart(s.rollover.value.activationUnix, unixNow,
                                                                     current)))))
  }

  predicate IsDue(s: Sc3, current: TdmaTime) {
    && s.rollover.Some? && s.rollover.value.activation.Some? && !s.rollover.value.activated
    && s.rollover.value.activation.value.Age(current) >= 0
    && s.futureVn.Some? && s.future != map[]
  }

  function Activate(s: Sc3, current: TdmaTime): Sc3 {
    if !IsDue(s, current) then s
    else s.(retired := Retire(s.retired, s.gcks), vn := s.futureVn.value, gcks := s.future,
            rollover := Some(s.rollover.value.(activated := true)))
  }

  // ----- Answers

  predicate Reached(s: Sc3, time: TdmaTime) {
    s.rollover.Some? && s.rollover.value.activation.Some? && s.rollover.value.activation.value.Age(time) >= 0
  }

  function VnAt(s: Sc3, time: TdmaTime): nat {
    if Reached(s, time) && s.futureVn.Some? then s.futureVn.value else s.vn
  }

  function KeyIn(keys: map<nat, Gck>, gckn: nat): Option<Gck> {
    if gckn in keys then Some(keys[gckn]) else None
  }

  function GckAt(s: Sc3, gckn: nat, time: TdmaTime): Option<Gck> {
    if Reached(s, time) then KeyIn(s.future, gckn) else KeyIn(s.gcks, gckn)
  }

  function GckByVersion(s: Sc3, gckn: nat, vn: nat): Option<Gck> {
    if gckn in s.gcks && s.gcks[gckn].vn == vn then Some(s.gcks[gckn])
    else if gckn in s.future && s.future[gckn].vn == vn then Some(s.future[gckn])
    else if GckId(gckn, vn) in s.retired then Some(s.retired[GckId(gckn, vn)])
    else None
  }

  // ----- The generation that belongs to an air slot

  predicate Awaits(s: Sc3, former: nat, next: nat, activation: TdmaTime) {
    && s.rollover.Some? && !s.rollover.value.activated && s.rollover.value.activation == Some(activation)
    && s.vn == former && s.futureVn == Some(next) && s.future != map[]
  }

  /**
   Generation by air slot. Up to half the hyperframe cycle around the announced slot, the old
   generation applies before it and the new one from it on, as long as software has not
   promoted; promotion leaves the slots from the announced one on as they are, and gives the
   new generation to every earlier slot as well.
   */
  lemma GenerationByAirSlot(s: Sc3, former: nat, next: nat, activation: TdmaTime, k: int, now: TdmaTime, gckn: nat)
    requires Awaits(s, former, next, activation) && activation.IsValid() && -HALF_WRAP <= k < HALF_WRAP
             && activation.Age(now) >= 0
    ensures var slot := activation.AddTimeslots(k);
            && VnAt(s, slot) == (if k < 0 then former else next)
            && GckAt(s, gckn, slot) == KeyIn(if k < 0 then s.gcks else s.future, gckn)
            && VnAt(Activate(s, now), slot) == next
            && GckAt(Activate(s, now), gckn, slot) == KeyIn(s.future, gckn)
  {
    AddThenDiffInside(activation, k);
    hide TdmaTime.AddTimeslots, IntDiff;
  }

  /** The durable snapshot of the generation a cell is waiting for changes no answer of that cell. */
  lemma WaitingSnapshotChangesNothing(s: Sc3, snap: Snapshot, gckn: nat, vn: nat, time: TdmaTime)
    requires WaitsForItsSlot(s, snap)
    ensures var after := Apply(s, snap);
            && VnAt(after, time) == VnAt(s, time) && GckAt(after, gckn, time) == GckAt(s, gckn, time)
            && GckByVersion(after, gckn, vn) == GckByVersion(s, gckn, vn) && after.rollover == s.rollover
  {
    hide TdmaTime.Age, KeyMap, KeysValid, AssociationsValid, FutureValid;
  }

  lemma RoundedUp(seconds: nat)
    ensures var slots := (seconds * 1200 + 16) / 17; 17 * slots >= 1200 * seconds && 17 * (slots - 1) < 1200 * seconds
  {
  }

  /**
   Scheduling bound. The announced slot is the first multiframe start at or after the exact
   rational target time, late by less than 72 slots; far beyond half a hyperframe cycle too.
   */
  lemma SchedulingBound(activationUnix: nat, unixNow: nat, current: TdmaTime)
    requires current.IsValid() && SlotsToUnix(activationUnix, unixNow) + 72 < 0x4000_0000
    ensures var n := Wait(activationUnix, unixNow, current);
            var ahead := if activationUnix > unixNow then activationUnix - unixNow else 0;
            && AnnouncedStart(activationUnix, unixNow, current) == current.AddTimeslots(n)
            && current.AddTimeslots(n).IsMultiframeStart()
            && 17 * n >= 1200 * ahead > 17 * (n - 72)
            && forall k: nat | 17 * k >= 1200 * ahead && k < n :: !current.AddTimeslots(k).IsMultiframeStart()
  {
    var ahead := if activationUnix > unixNow then activationUnix - unixNow else 0;
    RoundedUp(ahead);
    FirstStartAfter(current, SlotsToUnix(activationUnix, unixNow));
    hide TdmaTime.IsMultiframeStart, TdmaTime.AddTimeslots, SlotsToMultiframe;
  }

  lemma FirstStartAfter(current: TdmaTime, slots: nat)
    requires current.IsValid() && slots + 72 < 0x4000_0000
    ensures var due := current.AddTimeslots(slots); var late := SlotsToMultiframe(due);
            && late < 72 && due.AddTimeslots(late) == current.AddTimeslots(slots + late)
            && current.AddTimeslots(slots + late).IsMultiframeStart()
            && forall k: nat | slots <= k < slots + late :: !current.AddTimeslots(k).IsMultiframeStart()
  {
    hide TdmaTime.IsMultiframeStart, FromInt, WrapI32, TdmaTime.AddTimeslots, SlotsToMultiframe;
    var due := current.AddTimeslots(slots);
    AddMore(current, slots, 0);
    NextMultiframe(due);
    var late := SlotsToMultiframe(due);
    AddMore(current, slots, late);
    forall k: nat | slots <= k < slots + late
      ensures !current.AddTimeslots(k).IsMultiframeStart()
    {
      AddMore(current, slots, k - slots);
    }
  }

  function Wait(activationUnix: nat, unixNow: nat, current: TdmaTime): nat {
    var slots := SlotsToUnix(activationUnix, unixNow);
    slots + SlotsToMultiframe(current.AddTimeslots(slots))
  }

  // ----- Runs

  datatype Action = ApplySnapshot(snap: Snapshot) | ScheduleAt(unixNow: nat, current: TdmaTime)
      | ActivateAt(current: TdmaTime)

  function Step(s: Sc3, a: Action): Sc3 {
    match a
    case ApplySnapshot(snap) => Apply(s, snap)
    case ScheduleAt(unixNow, current) => Schedule(s, unixNow, current)
    case ActivateAt(current) => Activate(s, current)
  }

  const EMPTY: Sc3 := Sc3(0, false, 0, map[], map[], None, map[], None, map[])

  ghost predicate IsRun(states: seq<Sc3>, actions: seq<Action>) {
    && |states| == |actions| + 1 && states[0] == EMPTY
    && forall i | 0 <= i < |actions| :: states[i + 1] == Step(states[i], actions[i])
  }

  // Keys are filed under their own GCKN and belong to one generation; groups have a current key.
  predicate Filed(keys: map<nat, Gck>, vn: nat) {
    forall n <- keys :: keys[n].gckn == n && keys[n].vn == vn
  }

  predicate StateOk(s: Sc3) {
    && Filed(s.gcks, s.vn)
    && (s.future != map[] ==> s.futureVn.Some?)
    && (s.futureVn.Some? ==> Filed(s.future, s.futureVn.value))
    && Named(s.retired)
  }

  predicate Named(retired: map<GckId, Gck>) {
    forall id <- retired :: retired[id].gckn == id.gckn && retired[id].vn == id.vn
  }

  lemma {:induction false} KeyMapFiles(keys: seq<Gck>, vn: nat)
    requires forall i | 0 <= i < |keys| :: keys[i].vn == vn
    ensures Filed(KeyMap(keys), vn)
  {
    if keys != [] {
      KeyMapFiles(keys[..|keys| - 1], vn);
    }
  }

  // Whether the pair still names a key.
  predicate Resolves(s: Sc3, id: GckId) {
    GckByVersion(s, id.gckn, id.vn).Some?
  }

  lemma RetireKeeps(s: Sc3)
    requires StateOk(s)
    ensures var r := Retire(s.retired, s.gcks); s.retired.Keys <= r.Keys && Holds(r, s.gcks, s.vn) && Named(r)
  {
    forall n <- s.gcks
      ensures GckId(n, s.vn) in Retire(s.retired, s.gcks) && Retire(s.retired, s.gcks)[GckId(n, s.vn)] == s.gcks[n]
    {
      assert s.gcks[n].vn == s.vn;
    }
  }

  // `after` has every key of `s.gcks` among its retired ones.
  ghost predicate Retires(s: Sc3, after: Sc3) {
    Holds(after.retired, s.gcks, s.vn)
  }

  ghost predicate Holds(retired: map<GckId, Gck>, gcks: map<nat, Gck>, vn: nat) {
    forall n <- gcks :: GckId(n, vn) in retired && retired[GckId(n, vn)] == gcks[n]
  }

  lemma EffectiveKeeps(s: Sc3, snap: Snapshot)
    requires StateOk(s) && Accepted(s, snap)
    ensures var after := Effective(s, snap);
            StateOk(after) && s.retired.Keys <= after.retired.Keys && (after.vn != s.vn ==> Retires(s, after))
  {
    hide Retire, KeyMap, AssociationMap, Filed, Named, Holds, Verdict, WaitsForItsSlot, Carried;
    RetireKeeps(s);
    SnapshotFiles(s, snap);
  }

  // The keys of an accepted snapshot are filed in order.
  lemma SnapshotFiles(s: Sc3, snap: Snapshot)
    requires Accepted(s, snap)
    ensures Filed(KeyMap(snap.keys), snap.vn)
    ensures if snap.futureVn.Some? then Filed(KeyMap(snap.futureKeys), snap.futureVn.value)
            else KeyMap(snap.futureKeys) == map[]
  {
    hide KeyMap, AssociationsValid, Filed;
    KeyMapFiles(snap.keys, snap.vn);
    if snap.futureVn.Some? {
      KeyMapFiles(snap.futureKeys, snap.futureVn.value);
    } else {
      EmptyKeyMap();
    }
  }

  lemma ActivateKeeps(s: Sc3, current: TdmaTime)
    requires StateOk(s) && IsDue(s, current)
    ensures StateOk(Activate(s, current)) && s.retired.Keys <= Activate(s, current).retired.Keys
            && Retires(s, Activate(s, current))
  {
    RetireKeeps(s);
    hide Retire, TdmaTime.Age, Filed, Named, Holds;
  }

  // Whether this step puts another generation in place of the current one.
  predicate Replaces(s: Sc3, a: Action) {
    Step(s, a).vn != s.vn || (a.ActivateAt? && IsDue(s, a.current))
  }

  /**
   Every step keeps the files in order, never lowers the revision and never forgets a retired
   key; a step that replaces the generation retires every key of the one it replaces.
   */
  lemma StepKeeps(s: Sc3, a: Action)
    requires StateOk(s)
    ensures StateOk(Step(s, a)) && s.revision <= Step(s, a).revision && s.retired.Keys <= Step(s, a).retired.Keys
    ensures Replaces(s, a) ==> Retires(s, Step(s, a))
  {
    hide Retires, IsDue, Verdict, WaitsForItsSlot, CanSchedule;
    match a
    case ApplySnapshot(snap) =>
      if Accepted(s, snap) {
        EffectiveKeeps(s, snap);
      }
    case ScheduleAt(unixNow, current) => hide TdmaTime.AddTimeslots;
    case ActivateAt(current) =>
      if IsDue(s, current) {
        ActivateKeeps(s, current);
      }
  }

  lemma EmptyKeyMap()
    ensures KeyMap([]) == map[]
  {
  }

  predicate Accepted(s: Sc3, snap: Snapshot) {
    snap.revision >= s.revision && Verdict(snap).None?
  }

  lemma {:induction false} RunKeeps(states: seq<Sc3>, actions: seq<Action>, m: nat, n: nat)
    requires IsRun(states, actions) && m <= n < |states|
    ensures StateOk(states[n]) && states[m].revision <= states[n].revision
            && states[m].retired.Keys <= states[n].retired.Keys
    decreases n
  {
    hide Step, StateOk;
    if n == 0 {
      EmptyOk();
    } else {
      RunKeeps(states, actions, if m < n then m else n - 1, n - 1);
      StepKeeps(states[n - 1], actions[n - 1]);
    }
  }

  lemma EmptyOk()
    ensures StateOk(EMPTY)
  {
  }

  /**
   Old pairs stay resolvable. Over any run revisions never decrease, and every pair of GCKN and
   GCK-VN that named a current key when its generation was replaced, by promotion or by a
   snapshot, names some key at every later time.
   */
  lemma OldPairsStayResolvable(states: seq<Sc3>, actions: seq<Action>, m: nat, n: nat)
    requires IsRun(states, actions) && m < n < |states|
    ensures states[m].revision <= states[n].revision
    ensures Replaces(states[m], actions[m]) ==> forall g <- states[m].gcks ::
              Resolves(states[n], GckId(g, states[m].vn))
  {
    RunKeeps(states, actions, m, m);
    RunKeeps(states, actions, m, n);
    RunKeeps(states, actions, m + 1, n);
    hide Step, StateOk, Replaces;
    StepKeeps(states[m], actions[m]);
  }

  // The key in use, or about to be, under a pair.
  function InUse(s: Sc3, id: GckId): Option<Gck> {
    if id.gckn in s.gcks && s.vn == id.vn then Some(s.gcks[id.gckn])
    else if id.gckn in s.future && s.futureVn == Some(id.vn) then Some(s.future[id.gckn])
    else None
  }

  predicate NoOther(s: Sc3, id: GckId, key: Gck) {
    InUse(s, id).None? || InUse(s, id) == Some(key)
  }

  /**
   Old keys stay resolvable exactly while their pair is not given to another key. After the
   generation of a key was replaced, its pair names that very key at every time up to `n`, if
   and only if no state up to then has another key in use, or about to be, under that pair.
   */
  lemma OldKeysStayResolvable(states: seq<Sc3>, actions: seq<Action>, m: nat, n: nat, gckn: nat)
    requires IsRun(states, actions) && m < n < |states|
    requires Replaces(states[m], actions[m]) && gckn in states[m].gcks
    ensures var id, key := GckId(gckn, states[m].vn), states[m].gcks[gckn];
            (forall i | m < i <= n :: GckByVersion(states[i], gckn, id.vn) == Some(key))
            <==> forall i | m < i <= n :: NoOther(states[i], id, key)
  {
    var id, key := GckId(gckn, states[m].vn), states[m].gcks[gckn];
    hide Step, StateOk, Replaces;
    forall i | m < i <= n
      ensures GckByVersion(states[i], gckn, id.vn) == if InUse(states[i], id).Some? then InUse(states[i], id)
              else Stored(states[i], id)
    {
      RunKeeps(states, actions, m, i);
      AnswerIs(states[i], id);
    }
    if forall i | m < i <= n :: NoOther(states[i], id, key) {
      forall i | m < i <= n
        ensures Stored(states[i], id) == Some(key)
      {
        StaysStored(states, actions, m, i, gckn);
      }
    }
  }

  function Stored(s: Sc3, id: GckId): Option<Gck> {
    if id in s.retired then Some(s.retired[id]) else None
  }

  lemma AnswerIs(s: Sc3, id: GckId)
    requires StateOk(s)
    ensures GckByVersion(s, id.gckn, id.vn) == if InUse(s, id).Some? then InUse(s, id) else Stored(s, id)
  {
  }

  lemma {:induction false} StaysStored(states: seq<Sc3>, actions: seq<Action>, m: nat, n: nat, gckn: nat)
    requires IsRun(states, actions) && m < n < |states|
    requires Replaces(states[m], actions[m]) && gckn in states[m].gcks
    requires forall i | m < i <= n :: NoOther(states[i], GckId(gckn, states[m].vn), states[m].gcks[gckn])
    ensures Stored(states[n], GckId(gckn, states[m].vn)) == Some(states[m].gcks[gckn])
    decreases n
  {
    hide Step, StateOk, Replaces;
    if n == m + 1 {
      RunKeeps(states, actions, m, m);
      StepKeeps(states[m], actions[m]);
    } else {
      StaysStored(states, actions, m, n - 1, gckn);
      RunKeeps(states, actions, m, n - 1);
      StepStores(states[n - 1], actions[n - 1], GckId(gckn, states[m].vn), states[m].gcks[gckn]);
    }
  }

  // A retired key is only replaced by the one in use under its pair.
  lemma StepStores(s: Sc3, a: Action, id: GckId, key: Gck)
    requires StateOk(s) && Stored(s, id) == Some(key) && NoOther(s, id, key)
    ensures Stored(Step(s, a), id) == Some(key)
  {
    hide StateOk, NoOther, Retire, Verdict, WaitsForItsSlot, CanSchedule, KeyMap, AssociationMap, Carried,
         AnnouncedStart, TdmaTime.Age;
    RetireStores(s, id, key);
  }

  lemma RetireStores(s: Sc3, id: GckId, key: Gck)
    requires StateOk(s) && Stored(s, id) == Some(key) && NoOther(s, id, key)
    ensures var r := Retire(s.retired, s.gcks); id in r && r[id] == key
  {
    if id.gckn in s.gcks && GckId(id.gckn, s.gcks[id.gckn].vn) == id {
      assert InUse(s, id) == Some(s.gcks[id.gckn]);
    }
    forall g | g in s.gcks && GckId(g, s.gcks[g].vn) == id
      ensures s.gcks[g] == key
    {
      assert g == id.gckn;
    }
  }

  // ----- The same, looking at snapshots alone

  predicate Lists(keys: seq<Gck>, id: GckId, key: Gck) {
    exists i | 0 <= i < |keys| :: keys[i].gckn == id.gckn && keys[i].vn == id.vn && keys[i] != key
  }

  // The snapshot files another key under the pair, for now or for later.
  predicate FilesOther(snap: Snapshot, id: GckId, key: Gck) {
    Lists(snap.keys, id, key) || Lists(snap.futureKeys, id, key)
  }

  predicate OtherTaken(s: Sc3, a: Action, id: GckId, key: Gck) {
    a.ApplySnapshot? && Accepted(s, a.snap) && FilesOther(a.snap, id, key)
  }

  // Neither the current nor the planned keys have another key under the pair.
  predicate Free(s: Sc3, id: GckId, key: Gck) {
    && (s.vn == id.vn && id.gckn in s.gcks ==> s.gcks[id.gckn] == key)
    && (s.futureVn == Some(id.vn) && id.gckn in s.future ==> s.future[id.gckn] == key)
  }

  // A snapshot plans for another generation than the one it says is current.
  predicate PlansNext(a: Action) {
    a.ApplySnapshot? ==> a.snap.futureVn != Some(a.snap.vn)
  }

  // Two generations in use differ, unless the planned one has become current.
  predicate Apart(s: Sc3) {
    s.futureVn == Some(s.vn) ==> s.gcks == s.future
  }

  lemma {:induction false} KeyMapLists(keys: seq<Gck>, vn: nat, n: nat)
    requires forall i, j | 0 <= i < j < |keys| :: keys[i].gckn != keys[j].gckn
    requires forall i | 0 <= i < |keys| :: keys[i].vn == vn
    ensures n in KeyMap(keys) <==> exists i :: 0 <= i < |keys| && keys[i].gckn == n
    ensures forall i | 0 <= i < |keys| && keys[i].gckn == n :: n in KeyMap(keys) && KeyMap(keys)[n] == keys[i]
  {
    if keys != [] {
      var last := |keys| - 1;
      KeyMapLists(keys[..last], vn, n);
      assert forall i | 0 <= i < last :: keys[..last][i] == keys[i];
    }
  }

  // Which key a list of one generation has under a pair shows in the map made of it.
  lemma ListsIsFiled(keys: seq<Gck>, vn: nat, id: GckId, key: Gck)
    requires KeysValid(keys, vn)
    ensures Lists(keys, id, key) <==> vn == id.vn && id.gckn in KeyMap(keys) && KeyMap(keys)[id.gckn] != key
  {
    hide KeyMap;
    KeyMapLists(keys, vn, id.gckn);
  }

  lemma SnapshotLists(s: Sc3, snap: Snapshot, id: GckId, key: Gck)
    requires Accepted(s, snap)
    ensures Lists(snap.keys, id, key) <==>
              snap.vn == id.vn && id.gckn in KeyMap(snap.keys) && KeyMap(snap.keys)[id.gckn] != key
    ensures Lists(snap.futureKeys, id, key) <==>
            snap.futureVn == Some(id.vn) && id.gckn in KeyMap(snap.futureKeys)
              && KeyMap(snap.futureKeys)[id.gckn] != key
    ensures snap.plan.None? ==> snap.futureKeys == []
  {
    hide KeyMap, AssociationsValid;
    ListsIsFiled(snap.keys, snap.vn, id, key);
    if snap.futureVn.Some? {
      ListsIsFiled(snap.futureKeys, snap.futureVn.value, id, key);
    }
  }

  lemma StepStaysFree(s: Sc3, a: Action, id: GckId, key: Gck)
    requires Free(s, id, key) && !OtherTaken(s, a, id, key)
    ensures Free(Step(s, a), id, key)
  {
    hide Free, Apply, Activate, OtherTaken;
    match a
    case ApplySnapshot(snap) => SnapshotStaysFree(s, snap, id, key);
    case ScheduleAt(unixNow, current) => ScheduleStaysFree(s, unixNow, current, id, key);
    case ActivateAt(current) => ActivateStaysFree(s, current, id, key);
  }

  lemma SnapshotStaysFree(s: Sc3, snap: Snapshot, id: GckId, key: Gck)
    requires Free(s, id, key) && !OtherTaken(s, ApplySnapshot(snap), id, key)
    ensures Free(Apply(s, snap), id, key)
  {
    hide KeyMap, Retire, AssociationMap, Verdict, Lists, Carried, WaitsForItsSlot;
    if Accepted(s, snap) {
      SnapshotLists(s, snap, id, key);
    }
  }

  lemma ScheduleStaysFree(s: Sc3, unixNow: nat, current: TdmaTime, id: GckId, key: Gck)
    requires Free(s, id, key)
    ensures Free(Schedule(s, unixNow, current), id, key)
  {
    hide CanSchedule, AnnouncedStart;
  }

  lemma ActivateStaysFree(s: Sc3, current: TdmaTime, id: GckId, key: Gck)
    requires Free(s, id, key)
    ensures Free(Activate(s, current), id, key)
  {
    hide IsDue, Retire;
    if IsDue(s, current) {
      DueHasNext(s, current);
    }
  }

  lemma DueHasNext(s: Sc3, current: TdmaTime)
    requires IsDue(s, current)
    ensures s.futureVn.Some? && s.rollover.Some?
  {
  }

  lemma StepStaysApart(s: Sc3, a: Action)
    requires Apart(s) && PlansNext(a)
    ensures Apart(Step(s, a))
  {
    hide KeyMap, Retire, AssociationMap, Verdict, CanSchedule, Carried, TdmaTime.AddTimeslots, TdmaTime.Age;
  }

  // Another key the snapshot files is in use, or about to be, once it is applied.
  lemma OtherShows(s: Sc3, snap: Snapshot, id: GckId, key: Gck)
    requires Apart(s) && PlansNext(ApplySnapshot(snap)) && OtherTaken(s, ApplySnapshot(snap), id, key)
    ensures !NoOther(Apply(s, snap), id, key)
  {
    hide KeyMap, Retire, AssociationMap, Verdict, Lists, Carried;
    SnapshotLists(s, snap, id, key);
    NothingListed(id, key);
  }

  lemma NothingListed(id: GckId, key: Gck)
    ensures !Lists([], id, key)
  {
  }

  lemma {:induction false} RunStaysFree(states: seq<Sc3>, actions: seq<Action>, m: nat, n: nat, id: GckId, key: Gck)
    requires IsRun(states, actions) && m <= n < |states| && Free(states[m], id, key)
    requires forall i | m <= i < n :: !OtherTaken(states[i], actions[i], id, key)
    ensures Free(states[n], id, key)
    decreases n
  {
    hide Step, Free, OtherTaken;
    if m < n {
      RunStaysFree(states, actions, m, n - 1, id, key);
      StepStaysFree(states[n - 1], actions[n - 1], id, key);
    }
  }

  lemma {:induction false} RunStaysApart(states: seq<Sc3>, actions: seq<Action>, n: nat)
    requires IsRun(states, actions) && n < |states| && forall i | 0 <= i < n :: PlansNext(actions[i])
    ensures Apart(states[n])
  {
    hide Step, Apart, PlansNext;
    if n == 0 {
      EmptyIsApart();
    } else {
      RunStaysApart(states, actions, n - 1);
      StepStaysApart(states[n - 1], actions[n - 1]);
    }
  }

  lemma EmptyIsApart()
    ensures Apart(EMPTY)
  {
  }

  lemma FreeHasNoOther(s: Sc3, id: GckId, key: Gck)
    requires Free(s, id, key)
    ensures NoOther(s, id, key)
  {
  }

  // The pair names that very key at every time after `m` up to `n`.
  ghost predicate KeepsNaming(states: seq<Sc3>, m: nat, n: nat, id: GckId, key: Gck)
    requires n < |states|
  {
    forall i | m < i <= n :: GckByVersion(states[i], id.gckn, id.vn) == Some(key)
  }

  // No snapshot accepted from step `m` on files another key under the pair.
  ghost predicate NoneTaken(states: seq<Sc3>, actions: seq<Action>, m: nat, n: nat, id: GckId, key: Gck)
    requires n <= |actions| && n < |states|
  {
    forall i | m <= i < n :: !OtherTaken(states[i], actions[i], id, key)
  }

  /**
   What whoever issues snapshots can look at. A key keeps its pair after its generation was
   replaced if no plan in force then, and no snapshot accepted from that step on, files another
   key under the pair. When snapshots plan for another generation than their current one, that no
   such snapshot is accepted is the exact condition.
   */
  lemma OldKeysStayUnlessRefiled(states: seq<Sc3>, actions: seq<Action>, m: nat, n: nat, gckn: nat)
    requires IsRun(states, actions) && m < n < |states|
    requires Replaces(states[m], actions[m]) && gckn in states[m].gcks
    ensures var id, key := GckId(gckn, states[m].vn), states[m].gcks[gckn];
            Free(states[m], id, key) && NoneTaken(states, actions, m, n, id, key) ==> KeepsNaming(states, m, n, id, key)
    ensures var id, key := GckId(gckn, states[m].vn), states[m].gcks[gckn];
            (forall i | 0 <= i < n :: PlansNext(actions[i])) ==>
              (NoneTaken(states, actions, m, n, id, key) <==> KeepsNaming(states, m, n, id, key))
  {
    var id, key := GckId(gckn, states[m].vn), states[m].gcks[gckn];
    OldKeysStayResolvable(states, actions, m, n, gckn);
    if NoneTaken(states, actions, m, n, id, key) && Free(states[m], id, key) {
      NoneTakenKeeps(states, actions, m, n, id, key);
    }
    if forall i | 0 <= i < n :: PlansNext(actions[i]) {
      hide Step, PlansNext, Apart, OtherTaken, Replaces, GckByVersion, NoOther;
      RunStaysApart(states, actions, m);
      ApartIsFree(states[m], gckn);
      if !NoneTaken(states, actions, m, n, id, key) {
        var i :| m <= i < n && OtherTaken(states[i], actions[i], id, key);
        RunStaysApart(states, actions, i);
        OtherTakenShows(states[i], actions[i], id, key);
        assert !NoOther(states[i + 1], id, key);
      }
    }
  }

  lemma NoneTakenKeeps(states: seq<Sc3>, actions: seq<Action>, m: nat, n: nat, id: GckId, key: Gck)
    requires IsRun(states, actions) && m < n < |states| && Free(states[m], id, key)
             && NoneTaken(states, actions, m, n, id, key)
    ensures forall i | m < i <= n :: NoOther(states[i], id, key)
  {
    hide Step, Free, OtherTaken, NoOther;
    forall i | m < i <= n
      ensures NoOther(states[i], id, key)
    {
      RunStaysFree(states, actions, m, i, id, key);
      FreeHasNoOther(states[i], id, key);
    }
  }

  lemma ApartIsFree(s: Sc3, gckn: nat)
    requires Apart(s) && gckn in s.gcks
    ensures Free(s, GckId(gckn, s.vn), s.gcks[gckn])
  {
  }

  lemma OtherTakenShows(s: Sc3, a: Action, id: GckId, key: Gck)
    requires Apart(s) && PlansNext(a) && OtherTaken(s, a, id, key)
    ensures !NoOther(Step(s, a), id, key)
  {
    hide Apply, FilesOther, NoOther, Apart;
    OtherShows(s, a.snap, id, key);
  }

  /** A pair can be given to another key: in this run it first names `first`, and later `second`. */
  lemma PairGivenToAnotherKey(first: nat, second: nat) returns (states: seq<Sc3>, actions: seq<Action>)
    requires first != second
    ensures IsRun(states, actions) && |states| == 4 && Replaces(states[1], actions[1])
    ensures states[1].vn == 5 && states[1].gcks == map[1 := Gck(1, 5, first)]
    ensures GckByVersion(states[2], 1, 5) == Some(Gck(1, 5, first))
            && GckByVersion(states[3], 1, 5) == Some(Gck(1, 5, second))
  {
    hide Retire, Step, Only, KeyMap;
    actions := [ApplySnapshot(Only(1, 5, first)), ApplySnapshot(Only(2, 6, first)), ApplySnapshot(Only(3, 5, second))];
    var s1 := Adopted(1, 5, first, Retire(map[], map[]));
    var s2 := Adopted(2, 6, first, Retire(s1.retired, s1.gcks));
    var s3 := Adopted(3, 5, second, Retire(s2.retired, s2.gcks));
    StepAdopts(EMPTY, 1, 5, first);
    StepAdopts(s1, 2, 6, first);
    StepAdopts(s2, 3, 5, second);
    RetiredIsFiled(s1.retired, s1.gcks, 1);
    states := [EMPTY, s1, s2, s3];
  }

  lemma RetiredIsFiled(retired: map<GckId, Gck>, gcks: map<nat, Gck>, gckn: nat)
    requires gckn in gcks
    ensures var r := Retire(retired, gcks); var id := GckId(gckn, gcks[gckn].vn); id in r && r[id] == gcks[gckn]
  {
  }

  lemma StepAdopts(s: Sc3, revision: nat, vn: nat, key: nat)
    requires s.revision <= revision && s.vn != vn && s.rollover.None?
    ensures Step(s, ApplySnapshot(Only(revision, vn, key))) == Adopted(revision, vn, key, Retire(s.retired, s.gcks))
  {
    OnlyIsApplied(s, revision, vn, key);
    hide Apply, Retire, Only;
  }

  // A snapshot with one key, for GCKN 1, and nothing planned.
  function Only(revision: nat, vn: nat, key: nat): Snapshot {
    Snapshot(revision, true, vn, [Gck(1, vn, key)], None, [], None, [])
  }

  function Adopted(revision: nat, vn: nat, key: nat, retired: map<GckId, Gck>): Sc3 {
    Sc3(revision, true, vn, map[1 := Gck(1, vn, key)], retired, None, map[], None, map[])
  }

  lemma OnlyIsApplied(s: Sc3, revision: nat, vn: nat, key: nat)
    requires s.revision <= revision && s.vn != vn && s.rollover.None?
    ensures Apply(s, Only(revision, vn, key)) == Adopted(revision, vn, key, Retire(s.retired, s.gcks))
  {
    OnlyIsValid(revision, vn, key);
    OneKeyMap(vn, key);
    EmptyKeyMap();
    hide Verdict, KeyMap, Retire;
  }

  lemma OnlyIsValid(revision: nat, vn: nat, key: nat)
    ensures Verdict(Only(revision, vn, key)).None?
  {
    hide KeyMap, AssociationsValid;
    NoPairs(KeyMap([Gck(1, vn, key)]));
  }

  lemma NoPairs(keys: map<nat, Gck>)
    ensures AssociationsValid([], keys)
  {
  }

  lemma OneKeyMap(vn: nat, key: nat)
    ensures KeyMap([Gck(1, vn, key)]) == map[1 := Gck(1, vn, key)]
  {
    var keys := [Gck(1, vn, key)];
    assert keys[..0] == [];
    EmptyKeyMap();
  }

  // ----- What a snapshot is, and what it does

  ghost predicate OneGeneration(keys: seq<Gck>, vn: nat) {
    && (forall k <- keys :: k.vn == vn)
    && forall i, j | 0 <= i < j < |keys| :: keys[i].gckn != keys[j].gckn
  }

  ghost predicate Offers(keys: seq<Gck>, gckn: nat) {
    exists k <- keys :: k.gckn == gckn
  }

  /**
   A snapshot that can be taken: keys of one generation under distinct numbers, at most one
   association a group, each with a key offered, no keys for a cell that is not linked, and
   either no plan at all or a whole one whose keys have counterparts among the current ones.
   */
  ghost predicate Sensible(snap: Snapshot) {
    && (snap.linked || (snap.keys == [] && snap.associations == []))
    && OneGeneration(snap.keys, snap.vn)
    && (forall pair <- snap.associations :: 1 <= pair.0 <= 0xff_ffff && Offers(snap.keys, pair.1))
    && (forall i, j | 0 <= i < j < |snap.associations| :: snap.associations[i].0 != snap.associations[j].0)
    && if snap.futureVn.Some? && snap.plan.Some? && snap.futureKeys != [] then
         && snap.plan.value.activationUnix > 0 && OneGeneration(snap.futureKeys, snap.futureVn.value)
         && forall k <- snap.futureKeys :: Offers(snap.keys, k.gckn)
       else snap.futureVn.None? && snap.plan.None? && snap.futureKeys == []
  }

  lemma OffersIsFiled(keys: seq<Gck>, vn: nat, gckn: nat)
    requires KeysValid(keys, vn)
    ensures Offers(keys, gckn) <==> gckn in KeyMap(keys)
  {
    hide KeyMap;
    KeyMapLists(keys, vn, gckn);
    if gckn in KeyMap(keys) {
      var i :| 0 <= i < |keys| && keys[i].gckn == gckn;
      assert keys[i] in keys;
    }
  }

  lemma OneGenerationIsValid(keys: seq<Gck>, vn: nat)
    ensures OneGeneration(keys, vn) <==> KeysValid(keys, vn)
  {
    if KeysValid(keys, vn) {
      assert forall k <- keys :: k.vn == vn;
    }
  }

  lemma AssociationsAreValid(keys: seq<Gck>, vn: nat, pairs: seq<(nat, nat)>)
    requires KeysValid(keys, vn)
    ensures AssociationsValid(pairs, KeyMap(keys)) <==>
            && (forall pair <- pairs :: 1 <= pair.0 <= 0xff_ffff && Offers(keys, pair.1))
            && (forall i, j | 0 <= i < j < |pairs| :: pairs[i].0 != pairs[j].0)
  {
    hide KeyMap, Offers;
    forall gckn: nat
      ensures Offers(keys, gckn) <==> gckn in KeyMap(keys)
    {
      OffersIsFiled(keys, vn, gckn);
    }
    if forall pair <- pairs :: 1 <= pair.0 <= 0xff_ffff && Offers(keys, pair.1) {
      assert forall i | 0 <= i < |pairs| :: pairs[i] in pairs;
    }
  }

  lemma FutureIsValid(keys: seq<Gck>, vn: nat, current: seq<Gck>, currentVn: nat)
    requires KeysValid(current, currentVn)
    ensures FutureValid(keys, vn, KeyMap(current)) <==> OneGeneration(keys, vn) && forall k <- keys ::
              Offers(current, k.gckn)
  {
    hide KeyMap, Offers;
    OneGenerationIsValid(keys, vn);
    forall gckn: nat
      ensures Offers(current, gckn) <==> gckn in KeyMap(current)
    {
      OffersIsFiled(current, currentVn, gckn);
    }
    hide KeysValid, OneGeneration;
    if forall k <- keys :: Offers(current, k.gckn) {
      assert forall i | 0 <= i < |keys| :: keys[i] in keys;
    }
  }

  /** The verdict on a snapshot is good exactly when it is sensible. */
  lemma VerdictIsRight(snap: Snapshot)
    ensures Verdict(snap).None? <==> Sensible(snap)
  {
    hide KeyMap, KeysValid, AssociationsValid, FutureValid, OneGeneration, Offers;
    OneGenerationIsValid(snap.keys, snap.vn);
    if KeysValid(snap.keys, snap.vn) {
      AssociationsAreValid(snap.keys, snap.vn, snap.associations);
      if snap.futureVn.Some? {
        FutureIsValid(snap.futureKeys, snap.futureVn.value, snap.keys, snap.vn);
      }
    }
  }

  // These are exactly the keys filed.
  ghost predicate FiledFrom(filed: map<nat, Gck>, keys: seq<Gck>) {
    && (forall k <- keys :: k.gckn in filed && filed[k.gckn] == k)
    && (forall gckn <- filed :: Offers(keys, gckn))
  }

  ghost predicate AssociatedFrom(filed: map<nat, nat>, pairs: seq<(nat, nat)>) {
    && (forall pair <- pairs :: pair.0 in filed && filed[pair.0] == pair.1)
    && (forall gssi <- filed :: exists pair <- pairs :: pair.0 == gssi)
  }

  lemma KeyMapFilesThem(keys: seq<Gck>, vn: nat)
    requires KeysValid(keys, vn)
    ensures FiledFrom(KeyMap(keys), keys)
  {
    hide KeyMap, Offers;
    forall gckn <- KeyMap(keys)
      ensures Offers(keys, gckn)
    {
      OffersIsFiled(keys, vn, gckn);
    }
    forall k <- keys
      ensures k.gckn in KeyMap(keys) && KeyMap(keys)[k.gckn] == k
    {
      KeyMapLists(keys, vn, k.gckn);
      var i :| 0 <= i < |keys| && keys[i] == k;
    }
  }

  lemma {:induction false} AssociationMapHas(pairs: seq<(nat, nat)>)
    requires forall i, j | 0 <= i < j < |pairs| :: pairs[i].0 != pairs[j].0
    ensures forall i | 0 <= i < |pairs| ::
              pairs[i].0 in AssociationMap(pairs) && AssociationMap(pairs)[pairs[i].0] == pairs[i].1
    ensures forall gssi <- AssociationMap(pairs) :: exists i :: 0 <= i < |pairs| && pairs[i].0 == gssi
  {
    if pairs != [] {
      var last := |pairs| - 1;
      AssociationMapHas(pairs[..last]);
      assert forall i | 0 <= i < last :: pairs[..last][i] == pairs[i];
    }
  }

  lemma AssociationMapFilesThem(pairs: seq<(nat, nat)>)
    requires forall i, j | 0 <= i < j < |pairs| :: pairs[i].0 != pairs[j].0
    ensures AssociatedFrom(AssociationMap(pairs), pairs)
  {
    hide AssociationMap;
    AssociationMapHas(pairs);
    forall gssi <- AssociationMap(pairs)
      ensures exists pair <- pairs :: pair.0 == gssi
    {
      var i :| 0 <= i < |pairs| && pairs[i].0 == gssi;
      assert pairs[i] in pairs;
    }
  }

  /**
   The cell waits to promote the generation of a snapshot exactly when that plans nothing, the cell
   has announced a slot that it has not promoted at, and the keys are those it has planned.
   */
  lemma WaitsWhen(s: Sc3, snap: Snapshot)
    requires KeysValid(snap.keys, snap.vn)
    ensures WaitsForItsSlot(s, snap) <==>
            && snap.plan.None? && s.rollover.Some? && s.rollover.value.activation.Some? && !s.rollover.value.activated
            && s.futureVn == Some(snap.vn) && FiledFrom(s.future, snap.keys)
  {
    KeyMapFilesThem(snap.keys, snap.vn);
    hide KeyMap;
    if FiledFrom(s.future, snap.keys) {
      FiledOnce(s.future, KeyMap(snap.keys), snap.keys);
    }
  }

  lemma FiledOnce(a: map<nat, Gck>, b: map<nat, Gck>, keys: seq<Gck>)
    requires FiledFrom(a, keys) && FiledFrom(b, keys)
    ensures a == b
  {
    forall gckn
      ensures (gckn in a <==> gckn in b) && (gckn in a && gckn in b ==> a[gckn] == b[gckn])
    {
      if gckn in a || gckn in b {
        var k :| k in keys && k.gckn == gckn;
        assert gckn in a && a[gckn] == k && gckn in b && b[gckn] == k;
      }
    }
  }

  /**
   A sensible snapshot that is not older takes effect as a whole: its revision, its associations and,
   unless it is the one whose generation the cell waits to promote, its keys and its plan. Any other
   snapshot changes nothing.
   */
  lemma SnapshotTakesEffect(s: Sc3, snap: Snapshot)
    ensures var after := Apply(s, snap);
            if snap.revision < s.revision || !Sensible(snap) then after == s
            else
              && after.revision == snap.revision && after.linked == snap.linked
              && AssociatedFrom(after.associations, snap.associations)
              && if WaitsForItsSlot(s, snap) then
                   after == s.(revision := after.revision, linked := after.linked, associations := after.associations)
                 else
                   && after.vn == snap.vn && FiledFrom(after.gcks, snap.keys)
                   && after.futureVn == snap.futureVn && FiledFrom(after.future, snap.futureKeys)
                   && (snap.plan.None? <==> after.rollover.None?)
                   && (snap.plan.Some? ==> after.rollover.value.id == snap.plan.value.id
                                           && after.rollover.value.activationUnix == snap.plan.value.activationUnix)
  {
    VerdictIsRight(snap);
    hide KeyMap, AssociationMap, AssociationsValid, FutureValid, Retire, FiledFrom, AssociatedFrom, Sensible,
         WaitsForItsSlot;
    if snap.revision >= s.revision && Sensible(snap) {
      SensibleParts(snap);
      KeyMapFilesThem(snap.keys, snap.vn);
      AssociationMapFilesThem(snap.associations);
      if snap.futureVn.Some? {
        KeyMapFilesThem(snap.futureKeys, snap.futureVn.value);
      } else {
        KeyMapFilesThem(snap.futureKeys, 0);
      }
    }
  }

  lemma SensibleParts(snap: Snapshot)
    requires Sensible(snap)
    ensures KeysValid(snap.keys, snap.vn) && forall i, j | 0 <= i < j < |snap.associations| ::
              snap.associations[i].0 != snap.associations[j].0
    ensures if snap.futureVn.Some? then KeysValid(snap.futureKeys, snap.futureVn.value) else snap.futureKeys == []
  {
    hide Offers;
    OneGenerationIsValid(snap.keys, snap.vn);
    if snap.futureVn.Some? {
      OneGenerationIsValid(snap.futureKeys, snap.futureVn.value);
    }
  }

  // ----- The announced slot

  /**
   Scheduling a planned rollover announces the first multiframe start at or after the exact rational
   target, under 72 slots late; one that has a slot already, or is promoted, stays as it is.
   */
  lemma ScheduleAnnounces(s: Sc3, unixNow: nat, current: TdmaTime)
    requires current.IsValid() && s.rollover.Some?
             && SlotsToUnix(s.rollover.value.activationUnix, unixNow) + 72 < 0x4000_0000
    ensures var r, after := s.rollover.value, Schedule(s, unixNow, current);
            if r.activated || r.activation.Some? then after == s
            else
              var n := Wait(r.activationUnix, unixNow, current);
              var ahead := if r.activationUnix > unixNow then r.activationUnix - unixNow else 0;
              && after == s.(rollover := Some(r.(activation := Some(current.AddTimeslots(n)))))
              && current.AddTimeslots(n).IsMultiframeStart()
              && 17 * n >= 1200 * ahead > 17 * (n - 72)
              && forall k: nat | 17 * k >= 1200 * ahead && k < n :: !current.AddTimeslots(k).IsMultiframeStart()
  {
    SchedulingBound(s.rollover.value.activationUnix, unixNow, current);
    hide AnnouncedStart, TdmaTime.AddTimeslots, Wait, TdmaTime.IsMultiframeStart;
  }

  // A snapshot that takes effect without the planned rollover `id`.
  predicate Supersedes(s: Sc3, a: Action, id: nat) {
    && a.ApplySnapshot? && Accepted(s, a.snap) && !WaitsForItsSlot(s, a.snap)
    && (a.snap.plan.None? || a.snap.plan.value.id != id)
  }

  // The same rollover in the same slot, promoted at most.
  predicate SameRollover(before: Option<Rollover>, after: Option<Rollover>) {
    && before.Some? && after.Some? && after.value.id == before.value.id
    && (before.value.activation.Some? ==> after.value.activation == before.value.activation)
    && (before.value.activated ==> after.value.activated)
  }

  lemma RolloverStaysOneStep(s: Sc3, a: Action)
    requires s.rollover.Some? && !Supersedes(s, a, s.rollover.value.id)
    ensures SameRollover(s.rollover, Step(s, a).rollover)
  {
    hide Apply, Effective, Carried, Retire, AnnouncedStart, TdmaTime.Age, SlotsToUnix;
    if a.ApplySnapshot? {
      RolloverOutlasts(s, a.snap);
    }
  }

  lemma RolloverOutlasts(s: Sc3, snap: Snapshot)
    requires s.rollover.Some? && !Supersedes(s, ApplySnapshot(snap), s.rollover.value.id)
    ensures SameRollover(s.rollover, Apply(s, snap).rollover)
  {
    hide Verdict, KeyMap, AssociationMap, Retire, WaitsForItsSlot;
  }

  /**
   What this cell has decided about a planned rollover stays decided: repeated snapshots of it,
   further scheduling and promotion keep its slot, and a promoted one stays promoted, until a
   snapshot takes effect that no longer plans it.
   */
  lemma {:induction false} RolloverStays(states: seq<Sc3>, actions: seq<Action>, m: nat, n: nat)
    requires IsRun(states, actions) && m <= n < |states| && states[m].rollover.Some?
    requires forall i | m <= i < n :: !Supersedes(states[i], actions[i], states[m].rollover.value.id)
    ensures SameRollover(states[m].rollover, states[n].rollover)
    decreases n
  {
    hide Step, Supersedes;
    if m < n {
      RolloverStays(states, actions, m, n - 1);
      RolloverStaysOneStep(states[n - 1], actions[n - 1]);
    }
  }

  /** A due rollover puts the planned generation in place of the current one, once. */
  lemma PromotedOnce(s: Sc3, current: TdmaTime, later: TdmaTime)
    requires IsDue(s, current)
    ensures var after := Activate(s, current);
            && Some(after.vn) == s.futureVn && after.gcks == s.future && after.rollover.Some?
            && after.rollover.value.activated
            && !IsDue(after, later) && Activate(after, later) == after
            && forall gckn <- s.gcks :: GckId(gckn, s.gcks[gckn].vn) in after.retired
  {
    hide TdmaTime.Age;
  }
}
