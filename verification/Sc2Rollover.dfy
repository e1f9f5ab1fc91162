/**
 Rollover of the network-wide SC2 key (SCK): a future key is staged, given an exact air slot,
 and promoted by software that runs ahead of or behind the air. Keys are opaque identities.
 */
module Sc2Rollover {
  import opened Arithmetic
  import opened Wrappers
  import opened Tdma
  import opened NetworkTime

  datatype Tea = Tea1 | Tea3

  datatype Sc2Key = Sc2Key(algorithm: Tea, sckn: nat, vn: nat, sck: nat)

  // The key-free identity bound to terminals and calls.
  datatype Binding = Binding(algorithm: Tea, sckn: nat, vn: nat)

  function BindingOf(key: Sc2Key): Binding {
    Binding(key.algorithm, key.sckn, key.vn)
  }

  datatype Retired = Retired(key: Sc2Key, until: TdmaTime)

  datatype Rollover = Rollover(
    id: nat,
    networkTime: nat,
    activation: Option<TdmaTime>,
    activated: bool,
    future: Sc2Key,
    retired: Option<Retired>)

  datatype Aie = Aie(enabled: bool, sc2: Option<Sc2Key>, rollover: Option<Rollover>)

  datatype Direction = Downlink | Uplink

  datatype KeyError = Sc2Disabled | StaleKeyIdentity

  datatype StageError =
    | NetworkTimeTooLarge | NotEnabled | OtherActiveKey | RepeatDiffers | Overlaps | OtherAlgorithm | SameSckn
      | WrongVersion

  function ActiveKey(aie: Aie): Result<Sc2Key, KeyError> {
    if aie.enabled && aie.sc2.Some? then Ok(aie.sc2.value) else Err(Sc2Disabled)
  }

  // What may follow `current`: another SCKN, the next SCK-VN, the same TEA algorithm.
  predicate Follows(current: Sc2Key, future: Sc2Key) {
    future.algorithm == current.algorithm && future.sckn != current.sckn && future.vn == (current.vn + 1) % 0x1_0000
  }

  predicate LaterThan(a: nat, b: nat) {
    Units(a).Some? && Units(b).Some? && Units(a).value > Units(b).value
  }

  datatype Staged = Staged(aie: Aie, error: Option<StageError>)

  /** Stage a future key on the command of the network. */
  function Stage(aie: Aie, id: nat, active: Binding, future: Sc2Key, networkTime: nat): Staged {
    if networkTime >= LIMIT then Staged(aie, Some(NetworkTimeTooLarge))
    else if ActiveKey(aie).Err? then Staged(aie, Some(NotEnabled))
    else
      var current := ActiveKey(aie).value;
      if BindingOf(current) != active then Staged(aie, Some(OtherActiveKey))
      else if aie.rollover.Some? && aie.rollover.value.id == id then
        Staged(aie, if aie.rollover.value.networkTime != networkTime || aie.rollover.value.future != future
               then Some(RepeatDiffers) else None)
      else if aie.rollover.Some? && aie.rollover.value.activated
        && !LaterThan(networkTime, aie.rollover.value.networkTime) then
        Staged(aie, Some(Overlaps))
      else if current.algorithm != future.algorithm then Staged(aie, Some(OtherAlgorithm))
      else if current.sckn == future.sckn then Staged(aie, Some(SameSckn))
      else if future.vn != (current.vn + 1) % 0x1_0000 then Staged(aie, Some(WrongVersion))
      else Staged(aie.(rollover := Some(Rollover(id, networkTime, None, false, future, None))), None)
  }

  function Cancel(aie: Aie, id: nat): Aie {
    if aie.rollover.Some? && aie.rollover.value.id == id && !aie.rollover.value.activated
      then aie.(rollover := None) else aie
  }

  // TDMA slots from now to a Network Time, rounded up: one slot is 17/1200 s, one unit two seconds.
  function SlotsUntil(target: int, current: int): nat {
    ((if target > current then target - current else 0) * 2400 + 16) / 17
  }

  // Whether there is a rollover to schedule, and the time it is due to be scheduled for.
  predicate CanSchedule(aie: Aie, currentNetworkTime: nat) {
    && aie.rollover.Some? && !aie.rollover.value.activated && aie.rollover.value.activation.None?
    && Units(currentNetworkTime).Some? && Units(aie.rollover.value.networkTime).Some?
    && SlotsUntil(Units(aie.rollover.value.networkTime).value, Units(currentNetworkTime).value) < 0x8000_0000
  }

  /** The air slot at which a rollover is announced to take effect. */
  function AnnouncedSlot(networkTime: nat, currentNetworkTime: nat, now: TdmaTime): TdmaTime
    requires Units(networkTime).Some? && Units(currentNetworkTime).Some?
  {
    var due := now.AddTimeslots(SlotsUntil(Units(networkTime).value, Units(currentNetworkTime).value));
    due.AddTimeslots(SlotsToSysinfo(due))
  }

  function Schedule(aie: Aie, currentNetworkTime: nat, now: TdmaTime): Aie {
    if !CanSchedule(aie, currentNetworkTime) then aie
    else aie.(rollover :=
              Some(aie.rollover.value.(activation :=
                                       Some(AnnouncedSlot(aie.rollover.value.networkTime, currentNetworkTime, now)))))
  }

  predicate IsDue(aie: Aie, now: TdmaTime) {
    && aie.rollover.Some? && !aie.rollover.value.activated
    && aie.rollover.value.activation.Some? && aie.rollover.value.activation.value.Age(now) >= 0
  }

  /** Promote the staged key once its slot has come; the old key is retained. */
  function Activate(aie: Aie, now: TdmaTime): Aie {
    if !IsDue(aie, now) || aie.sc2.None? then
      // `replace` on an absent key still leaves the future key behind.
      if IsDue(aie, now) then aie.(sc2 := Some(aie.rollover.value.future)) else aie
    else
      var r := aie.rollover.value;
      aie.(sc2 := Some(r.future),
           rollover := Some(r.(activated := true, retired := Some(Retired(aie.sc2.value, now.AddTimeslots(2))))))
  }

  /** The key that belongs to an air slot, whatever software has got round to. */
  function KeyAt(aie: Aie, direction: Direction, time: TdmaTime): Result<Sc2Key, KeyError> {
    if ActiveKey(aie).Err? || aie.rollover.None? || aie.rollover.value.activation.None? then ActiveKey(aie)
    else
      var r := aie.rollover.value;
      var age := r.activation.value.Age(time);
      var before := if r.retired.Some? then Ok(r.retired.value.key) else Err(StaleKeyIdentity);
      if age < 0 && r.activated then before
      else if direction.Downlink? && age >= 0 then Ok(r.future)
      else if direction.Uplink? && 0 <= age < 2 then (if r.activated then before else ActiveKey(aie))
      else if direction.Uplink? && age >= 2 && !r.activated then Ok(r.future)
      else ActiveKey(aie)
  }

  // ----- Promotion cannot be seen on the air

  // A rollover from `former` to `future` waits for the air slot `activation`.
  predicate Awaits(aie: Aie, former: Sc2Key, future: Sc2Key, activation: TdmaTime) {
    && aie.enabled && aie.sc2 == Some(former) && aie.rollover.Some?
    && !aie.rollover.value.activated && aie.rollover.value.future == future
    && aie.rollover.value.activation == Some(activation)
  }

  /** Slots from which the new key applies, counted from the announced slot. */
  function Grace(direction: Direction): int {
    if direction.Downlink? then 0 else 2
  }

  /**
   Unobservable promotion. Take any slot `k` slots after (or before) the announced one, up to
   half the hyperframe cycle away: the old key applies before the announced slot on the
   downlink, and before the slot two later on the uplink, the new key from there on; and the
   answer is the same before software promotes the key and after, whenever it does.
   */
  lemma UnobservablePromotion(aie: Aie, former: Sc2Key, future: Sc2Key, activation: TdmaTime, direction: Direction,
                              k: int, now: TdmaTime)
    requires Awaits(aie, former, future, activation) && activation.IsValid() && -HALF_WRAP <= k < HALF_WRAP
    ensures KeyAt(aie, direction, activation.AddTimeslots(k)) == Ok(if k < Grace(direction) then former else future)
    ensures KeyAt(Activate(aie, now), direction, activation.AddTimeslots(k)) == KeyAt(aie, direction,
                                                                                      activation.AddTimeslots(k))
  {
    AddThenDiffInside(activation, k);
    hide TdmaTime.AddTimeslots, IntDiff;
  }

  /** The expiry kept with the retired key is never consulted. */
  lemma ExpiryIsIgnored(aie: Aie, until: TdmaTime, direction: Direction, time: TdmaTime)
    requires aie.rollover.Some? && aie.rollover.value.retired.Some?
    ensures var r := aie.rollover.value;
            KeyAt(aie.(rollover := Some(r.(retired := Some(r.retired.value.(until := until))))), direction, time)
              == KeyAt(aie, direction, time)
  {
    hide TdmaTime.Age;
  }

  // ----- When the key changes over

  lemma RoundedUp(delta: nat)
    ensures var slots := (delta * 2400 + 16) / 17; 17 * slots >= 2400 * delta && 17 * (slots - 1) < 2400 * delta
  {
  }

  /**
   Scheduling bound. The announced slot is `n` slots away, where `n` is the first wait, at or
   after the exact rational target time, that ends on a security SYSINFO; it is late by less
   than 24 slots. This holds far beyond half a hyperframe cycle, up to where an i32 is left.
   */
  lemma SchedulingBound(networkTime: nat, currentNetworkTime: nat, now: TdmaTime)
    requires now.IsValid() && Units(networkTime).Some? && Units(currentNetworkTime).Some?
    requires SlotsUntil(Units(networkTime).value, Units(currentNetworkTime).value) + 24 < 0x4000_0000
    ensures var n := Wait(networkTime, currentNetworkTime, now);
            && AnnouncedSlot(networkTime, currentNetworkTime, now) == now.AddTimeslots(n)
            && now.AddTimeslots(n).IsSc2SecuritySysinfoOpportunity()
            && 17 * n >= 2400 * Ahead(networkTime, currentNetworkTime) > 17 * (n - 24)
            && forall k: nat | 17 * k >= 2400 * Ahead(networkTime, currentNetworkTime) && k < n ::
                 !now.AddTimeslots(k).IsSc2SecuritySysinfoOpportunity()
  {
    RoundedUp(Ahead(networkTime, currentNetworkTime));
    FirstSysinfoAfter(now, SlotsUntil(Units(networkTime).value, Units(currentNetworkTime).value));
    hide Units, TdmaTime.IsSc2SecuritySysinfoOpportunity, TdmaTime.AddTimeslots, SlotsToSysinfo;
  }

  lemma FirstSysinfoAfter(now: TdmaTime, slots: nat)
    requires now.IsValid() && slots + 24 < 0x4000_0000
    ensures var due := now.AddTimeslots(slots); var late := SlotsToSysinfo(due);
            && late < 24 && due.AddTimeslots(late) == now.AddTimeslots(slots + late)
            && now.AddTimeslots(slots + late).IsSc2SecuritySysinfoOpportunity()
            && forall k: nat | slots <= k < slots + late :: !now.AddTimeslots(k).IsSc2SecuritySysinfoOpportunity()
  {
    hide TdmaTime.IsSc2SecuritySysinfoOpportunity, FromInt, WrapI32, TdmaTime.AddTimeslots, SlotsToSysinfo;
    var due := now.AddTimeslots(slots);
    AddMore(now, slots, 0);
    NextSysinfo(due);
    var late := SlotsToSysinfo(due);
    AddMore(now, slots, late);
    forall k: nat | slots <= k < slots + late
      ensures !now.AddTimeslots(k).IsSc2SecuritySysinfoOpportunity()
    {
      AddMore(now, slots, k - slots);
    }
  }

  // Two-second units the target lies ahead; a target in the past counts as now.
  function Ahead(networkTime: nat, currentNetworkTime: nat): nat
    requires Units(networkTime).Some? && Units(currentNetworkTime).Some?
  {
    var target, current := Units(networkTime).value, Units(currentNetworkTime).value;
    if target > current then target - current else 0
  }

  function Wait(networkTime: nat, currentNetworkTime: nat, now: TdmaTime): nat
    requires Units(networkTime).Some? && Units(currentNetworkTime).Some?
  {
    var slots := SlotsUntil(Units(networkTime).value, Units(currentNetworkTime).value);
    slots + SlotsToSysinfo(now.AddTimeslots(slots))
  }

  // ----- Runs

  // The configuration and, as history, an absolute slot counter whose TDMA time the program
  // sees, the slot last announced and how far ahead that was, counts of what happened, the
  // Network Time of the last promotion, and whether each promotion was set for a later
  // Network Time than the one before it.
  datatype World = World(aie: Aie, clock: nat, announced: nat, ahead: nat, promotions: nat, stagings: nat,
                         last: Option<nat>, inOrder: bool)

  datatype Action =
    | DoStage(id: nat, active: Binding, future: Sc2Key, networkTime: nat)
    | DoCancel(id: nat)
    | DoSchedule(currentNetworkTime: nat)
    | DoActivate
    | Pass(slots: nat)

  function Now(w: World): TdmaTime {
    FromInt(w.clock)
  }

  predicate LaterThanLast(w: World, networkTime: nat) {
    w.last.Some? ==> LaterThan(networkTime, w.last.value)
  }

  function Step(w: World, a: Action): World {
    match a
    case DoStage(id, active, future, networkTime) =>
      var r := Stage(w.aie, id, active, future, networkTime);
      w.(aie := r.aie, stagings := w.stagings + if r.aie != w.aie then 1 else 0)
    case DoCancel(id) => w.(aie := Cancel(w.aie, id))
    case DoSchedule(currentNetworkTime) =>
      if !CanSchedule(w.aie, currentNetworkTime) then w
      else
        var wait := Wait(w.aie.rollover.value.networkTime, currentNetworkTime, Now(w));
        w.(aie := Schedule(w.aie, currentNetworkTime, Now(w)), announced := w.clock + wait, ahead := wait)
    case DoActivate =>
      if !IsDue(w.aie, Now(w)) then w.(aie := Activate(w.aie, Now(w)))
      else
        var time := w.aie.rollover.value.networkTime;
        w.(aie := Activate(w.aie, Now(w)), promotions := w.promotions + 1,
           last := Some(time), inOrder := w.inOrder && LaterThanLast(w, time))
    case Pass(slots) => w.(clock := w.clock + slots)
  }

  predicate Initial(w: World) {
    w.aie.enabled && w.aie.sc2.Some? && w.aie.sc2.value.vn < 0x1_0000 && w.aie.rollover.None?
      && w.promotions == w.stagings == 0 && w.last.None? && w.inOrder
  }

  ghost predicate IsRun(states: seq<World>, actions: seq<Action>) {
    && |states| == |actions| + 1 && Initial(states[0])
    && forall i | 0 <= i < |actions| :: states[i + 1] == Step(states[i], actions[i])
  }

  // A record is consistent with the active key and with what was announced.
  predicate RecordOk(r: Rollover, active: Sc2Key, w: World) {
    && (r.activated ==>
         active == r.future && r.retired.Some? && Follows(r.retired.value.key, r.future) && r.activation.Some?)
    && (!r.activated ==> r.retired.None? && Follows(active, r.future))
    && (r.activation.Some? && w.ahead <= HALF_WRAP ==>
         r.activation.value == FromInt(w.announced) && w.announced <= w.clock + w.ahead)
  }

  // `first` is the key the run started with; staged keys not yet promoted are still to be counted.
  predicate ChainOk(w: World, first: Sc2Key) {
    && w.aie.enabled && w.aie.sc2.Some?
    && w.aie.sc2.value.vn == (first.vn + w.promotions) % 0x1_0000
    && w.aie.sc2.value.algorithm == first.algorithm
    && (w.aie.rollover.Some? ==> RecordOk(w.aie.rollover.value, w.aie.sc2.value, w))
    && w.promotions + (if w.aie.rollover.Some? && !w.aie.rollover.value.activated then 1 else 0) <= w.stagings
  }

  lemma VersionCountsOn(vn: nat, n: nat)
    ensures ((vn + n) % 0x1_0000 + 1) % 0x1_0000 == (vn + (n + 1)) % 0x1_0000
  {
    Euclid(vn + n + 1, 0x1_0000, (vn + n) / 0x1_0000 + ((vn + n) % 0x1_0000 + 1) / 0x1_0000,
           ((vn + n) % 0x1_0000 + 1) % 0x1_0000);
  }

  lemma FromIntValid(i: nat)
    ensures FromInt(i).IsValid() && FromInt(i).ToInt() == i % TIME_INT_WRAP
  {
    ToIntInvertsFromInt(i);
  }

  lemma LaterSlot(i: nat, n: nat)
    requires n < 0x4000_0000
    ensures FromInt(i).AddTimeslots(n) == FromInt(i + n)
  {
    hide FromInt, WrapI32, TdmaTime.AddTimeslots;
    FromIntValid(i);
    FromIntValid(i + n);
    ToIntBounds(FromInt(i));
    AddTimeslotsToInt(FromInt(i), n);
    ModShift(i + n, -(i / TIME_INT_WRAP));
    SameSlotNumber(FromInt(i).AddTimeslots(n), FromInt(i + n));
  }

  lemma AgeOfSlots(a: nat, m: nat)
    ensures FromInt(a).Age(FromInt(m)) == IntDiff(m, a)
  {
    hide FromInt, IntDiff;
    FromIntValid(a);
    FromIntValid(m);
    IntDiffModular(m, a % TIME_INT_WRAP);
    IntDiffModular(m, a);
  }

  lemma NotDueYet(a: nat, m: nat)
    requires m < a <= m + HALF_WRAP
    ensures FromInt(a).Age(FromInt(m)) < 0
  {
    AgeOfSlots(a, m);
    Euclid(m - a + HALF_WRAP, TIME_INT_WRAP, 0, m - a + HALF_WRAP);
  }

  /**
   A rollover announced `wait` slots ahead is never found due before its slot exactly when
   that is at most half the hyperframe cycle.
   */
  lemma NeverEarly(start: nat, wait: nat)
    ensures (forall m: nat | start <= m < start + wait :: FromInt(start + wait).Age(FromInt(m)) < 0)
            <==> wait <= HALF_WRAP
  {
    hide FromInt, TdmaTime.Age;
    var a := start + wait;
    if wait <= HALF_WRAP {
      forall m: nat | start <= m < a
        ensures FromInt(a).Age(FromInt(m)) < 0
      {
        NotDueYet(a, m);
      }
    } else {
      var m := a - HALF_WRAP - 1;
      AgeOfSlots(a, m);
      assert FromInt(a).Age(FromInt(m)) == HALF_WRAP - 1;
    }
  }

  lemma ScheduleKeeps(w: World, currentNetworkTime: nat, first: Sc2Key)
    requires ChainOk(w, first)
    ensures ChainOk(Step(w, DoSchedule(currentNetworkTime)), first)
  {
    hide Units, FromInt, TdmaTime.AddTimeslots, SlotsUntil;
    if CanSchedule(w.aie, currentNetworkTime) {
      var r := w.aie.rollover.value;
      var wait := Wait(r.networkTime, currentNetworkTime, Now(w));
      if wait <= HALF_WRAP {
        var slots := SlotsUntil(Units(r.networkTime).value, Units(currentNetworkTime).value);
        FromIntValid(w.clock);
        AddMore(Now(w), slots, wait - slots);
        LaterSlot(w.clock, wait);
      }
    }
  }

  /** Every step keeps the chain, and says when it changes the active key. */
  lemma StepKeeps(w: World, a: Action, first: Sc2Key)
    requires ChainOk(w, first)
    ensures ChainOk(Step(w, a), first)
    ensures Step(w, a).aie.sc2 != w.aie.sc2 ==> ProperPromotion(w, a)
  {
    hide Units, FromInt, TdmaTime.AddTimeslots, SlotsUntil, SlotsToSysinfo;
    match a
    case DoStage(id, active, future, networkTime) => hide LaterThan;
    case DoCancel(id) =>
    case DoSchedule(currentNetworkTime) => ScheduleKeeps(w, currentNetworkTime, first);
    case DoActivate =>
      VersionCountsOn(first.vn, w.promotions);
      if IsDue(w.aie, Now(w)) {
        DueIsOnTime(w, first);
      }
    case Pass(slots) =>
  }

  // This step promotes the staged key: it follows the active one, its slot was announced, and
  // that slot has come, provided it was announced no more than half the cycle ahead.
  predicate ProperPromotion(w: World, a: Action) {
    && a.DoActivate? && IsDue(w.aie, Now(w)) && w.aie.sc2.Some?
    && Follows(w.aie.sc2.value, w.aie.rollover.value.future)
    && Step(w, a).aie.sc2 == Some(w.aie.rollover.value.future)
    && (w.ahead <= HALF_WRAP ==> w.announced <= w.clock)
  }

  lemma DueIsOnTime(w: World, first: Sc2Key)
    requires ChainOk(w, first) && IsDue(w.aie, Now(w))
    ensures w.ahead <= HALF_WRAP ==> w.announced <= w.clock
  {
    if w.ahead <= HALF_WRAP && w.clock < w.announced {
      NotDueYet(w.announced, w.clock);
    }
  }

  /**
   Key chain. In every run of stagings, replays, cancels, schedulings and promotions: the
   active key changes only by promoting the staged record that follows it (next SCK-VN,
   another SCKN, the same algorithm) and not before its announced slot; the SCK-VN counts the
   promotions; each promotion used up a staging of its own; and an activated record still
   holds the key it replaced.
   */
  lemma {:induction false} KeyChain(states: seq<World>, actions: seq<Action>, n: nat)
    requires IsRun(states, actions) && n < |states|
    ensures ChainOk(states[n], states[0].aie.sc2.value)
    ensures forall i | 0 <= i < n ::
              states[i + 1].aie.sc2 != states[i].aie.sc2 ==> ProperPromotion(states[i], actions[i])
  {
    hide Step, ProperPromotion;
    var first := states[0].aie.sc2.value;
    if n > 0 {
      KeyChain(states, actions, n - 1);
      hide ChainOk;
      StepKeeps(states[n - 1], actions[n - 1], first);
    }
  }

  // ----- When promotions are in the order of their Network Times

  /**
   What whoever stages can look at: the new Network Time is later than that of the last
   promotion, or the record in place is that promotion and the program compares them itself.
   */
  predicate Careful(w: World, a: Action) {
    a.DoStage? ==> (w.aie.rollover.Some? && w.aie.rollover.value.activated) || LaterThanLast(w, a.networkTime)
  }

  // The activated record is the last promotion; a record that waits comes after it.
  predicate OrderOk(w: World) {
    && w.inOrder
    && (w.aie.rollover.Some? ==>
          if w.aie.rollover.value.activated then w.last == Some(w.aie.rollover.value.networkTime)
          else LaterThanLast(w, w.aie.rollover.value.networkTime))
  }

  lemma CarefulKeepsOrder(w: World, a: Action)
    requires OrderOk(w) && Careful(w, a) && w.aie.sc2.Some?
    ensures OrderOk(Step(w, a))
  {
    hide Units, FromInt, TdmaTime.AddTimeslots, SlotsUntil, SlotsToSysinfo, TdmaTime.Age;
  }

  /** While every staging is careful, promotions are in the order of their Network Times. */
  lemma {:induction false} PromotionsInOrder(states: seq<World>, actions: seq<Action>, n: nat)
    requires IsRun(states, actions) && n < |states| && forall i | 0 <= i < n :: Careful(states[i], actions[i])
    ensures OrderOk(states[n])
  {
    hide Step, OrderOk, Careful;
    if n == 0 {
      StartsInOrder(states[0]);
    } else {
      PromotionsInOrder(states, actions, n - 1);
      KeyChain(states, actions, n - 1);
      CarefulKeepsOrder(states[n - 1], actions[n - 1]);
    }
  }

  lemma StartsInOrder(w: World)
    requires Initial(w)
    ensures OrderOk(w)
  {
  }

  // A record staged by `a` is announced, `slots` pass, and software looks whether it is due.
  function ThenPromoted(w: World, a: Action, currentNetworkTime: nat, slots: nat): World {
    Step(Step(Step(Step(w, a), DoSchedule(currentNetworkTime)), Pass(slots)), DoActivate)
  }

  /**
   One careless staging is enough: if a staging that takes effect is careful, promoting it
   next keeps the order whatever happens, and otherwise it can be promoted out of order.
   */
  lemma CarelessStaging(w: World, a: Action, first: Sc2Key)
    requires ChainOk(w, first) && OrderOk(w) && a.DoStage? && Step(w, a).aie != w.aie
    ensures Careful(w, a) <==> forall c, slots :: ThenPromoted(w, a, c, slots).inOrder
  {
    var staged := Step(w, a);
    if Careful(w, a) {
      forall c, slots
        ensures ThenPromoted(w, a, c, slots).inOrder
      {
        KeptInOrder(w, a, c, slots, first);
      }
    } else {
      StagedWaits(w, a);
      var slots := PromoteNow(staged);
      assert !ThenPromoted(w, a, a.networkTime, slots).inOrder;
    }
  }

  lemma KeptInOrder(w: World, a: Action, c: nat, slots: nat, first: Sc2Key)
    requires ChainOk(w, first) && OrderOk(w) && Careful(w, a)
    ensures ThenPromoted(w, a, c, slots).inOrder
  {
    hide Step, ChainOk, OrderOk, Careful;
    var s1 := Step(w, a);
    var s2 := Step(s1, DoSchedule(c));
    var s3 := Step(s2, Pass(slots));
    ChainFacts(w, first);
    CarefulKeepsOrder(w, a);
    StepKeeps(w, a, first);
    ChainFacts(s1, first);
    NotStaging(s1, DoSchedule(c));
    CarefulKeepsOrder(s1, DoSchedule(c));
    StepKeeps(s1, DoSchedule(c), first);
    ChainFacts(s2, first);
    NotStaging(s2, Pass(slots));
    CarefulKeepsOrder(s2, Pass(slots));
    StepKeeps(s2, Pass(slots), first);
    ChainFacts(s3, first);
    NotStaging(s3, DoActivate);
    CarefulKeepsOrder(s3, DoActivate);
    InOrder(Step(s3, DoActivate));
  }

  lemma ChainFacts(w: World, first: Sc2Key)
    requires ChainOk(w, first)
    ensures w.aie.sc2.Some? && w.aie.enabled
  {
  }

  lemma NotStaging(w: World, a: Action)
    requires !a.DoStage?
    ensures Careful(w, a)
  {
  }

  lemma InOrder(w: World)
    requires OrderOk(w)
    ensures w.inOrder
  {
  }

  // A staging that takes effect leaves its record waiting, with a Network Time.
  lemma StagedWaits(w: World, a: Action)
    requires a.DoStage? && Step(w, a).aie != w.aie
    ensures var s := Step(w, a);
            && Waits(s) && s.aie.rollover.value.networkTime == a.networkTime && Units(a.networkTime).Some?
            && s.last == w.last && s.inOrder == w.inOrder && s.clock == w.clock
  {
    hide DaysBefore;
  }

  predicate Waits(w: World) {
    && w.aie.enabled && w.aie.sc2.Some?
    && w.aie.rollover.Some? && !w.aie.rollover.value.activated && w.aie.rollover.value.activation.None?
  }

  /** A waiting record can be announced for now and is due once its slot has come. */
  lemma PromoteNow(w: World) returns (slots: nat)
    requires Waits(w) && Units(w.aie.rollover.value.networkTime).Some?
    ensures var time, r := w.aie.rollover.value.networkTime, w.aie.rollover.value;
            var s := Step(Step(Step(w, DoSchedule(time)), Pass(slots)), DoActivate);
            && s.last == Some(time) && s.inOrder == (w.inOrder && LaterThanLast(w, time)) && s.aie.enabled
            && s.aie.sc2 == Some(r.future) && s.aie.rollover.Some? && s.aie.rollover.value.activated
            && s.aie.rollover.value.id == r.id && s.aie.rollover.value.networkTime == time
            && s.aie.rollover.value.future == r.future
            && s.promotions == w.promotions + 1
  {
    hide AnnouncedSlot, Units, FromInt, SlotsToSysinfo, TdmaTime.AddTimeslots, TdmaTime.Age, LaterThan, Step,
         SlotsUntil;
    var time := w.aie.rollover.value.networkTime;
    slots := SlotsToSysinfo(Now(w));
    AnnouncedForNow(w, time);
    ScheduledNow(w, time);
    PassIs(Step(w, DoSchedule(time)), slots);
    DueIsPromoted(Step(Step(w, DoSchedule(time)), Pass(slots)));
  }

  lemma ScheduledNow(w: World, time: nat)
    requires Waits(w) && w.aie.rollover.value.networkTime == time && Units(time).Some?
    requires SlotsUntil(Units(time).value, Units(time).value) == 0
    ensures var s := Step(w, DoSchedule(time));
            && s.aie == w.aie.(rollover :=
                               Some(w.aie.rollover.value.(activation := Some(AnnouncedSlot(time, time, Now(w))))))
            && s.clock == w.clock && s.last == w.last && s.inOrder == w.inOrder && s.promotions == w.promotions
  {
    hide AnnouncedSlot, Units, FromInt, SlotsToSysinfo, TdmaTime.AddTimeslots;
  }

  lemma PassIs(w: World, slots: nat)
    ensures Step(w, Pass(slots)) == w.(clock := w.clock + slots)
  {
  }

  lemma DueIsPromoted(w: World)
    requires w.aie.rollover.Some? && !w.aie.rollover.value.activated && w.aie.rollover.value.activation.Some?
             && w.aie.sc2.Some?
    requires w.aie.rollover.value.activation.value.Age(Now(w)) >= 0
    ensures var s, r := Step(w, DoActivate), w.aie.rollover.value;
            && s.last == Some(r.networkTime) && s.inOrder == (w.inOrder && LaterThanLast(w, r.networkTime))
            && s.promotions == w.promotions + 1 && s.aie.enabled == w.aie.enabled && s.aie.sc2 == Some(r.future)
            && s.aie.rollover.Some?
            && s.aie.rollover.value.(retired := None) == r.(activated := true, retired := None)
  {
    hide FromInt, TdmaTime.Age, TdmaTime.AddTimeslots, LaterThanLast;
  }

  lemma AnnouncedForNow(w: World, time: nat)
    requires Units(time).Some?
    ensures var slots, slot := SlotsToSysinfo(Now(w)), AnnouncedSlot(time, time, Now(w));
            SlotsUntil(Units(time).value, Units(time).value) == 0 && slot.Age(FromInt(w.clock + slots)) >= 0
  {
    hide Units, FromInt, TdmaTime.AddTimeslots, SlotsToSysinfo, IntDiff;
    FromIntValid(w.clock);
    AddNothing(Now(w));
    NextSysinfo(Now(w));
    LaterSlot(w.clock, SlotsToSysinfo(Now(w)));
    IntDiffOfSelf(FromInt(w.clock + SlotsToSysinfo(Now(w))).ToInt());
  }

  /**
   The program's own comparison does not make promotions chronological. In this run a first
   key is promoted for `middle`; the next is staged for `late`, replaced by one for `early`,
   and that one is promoted.
   */
  lemma PromotionsCanGoBackInTime(start: World, next: Sc2Key, other: Sc2Key, third: Sc2Key, early: nat, middle: nat,
                                  late: nat)
      returns (states: seq<World>, actions: seq<Action>)
    requires Initial(start) && Follows(start.aie.sc2.value, next) && Follows(next, other) && Follows(next, third)
    requires LaterThan(late, middle) && LaterThan(middle, early)
    ensures IsRun(states, actions) && states[0] == start
    ensures var end := states[|actions|];
            end.promotions == 2 && end.last == Some(early) && end.aie.sc2 == Some(third) && !end.inOrder
  {
    hide Units, FromInt, TdmaTime.AddTimeslots, SlotsToSysinfo, TdmaTime.Age, Step;
    UnitsNeedLimit(early);
    UnitsNeedLimit(middle);
    UnitsNeedLimit(late);
    var key := start.aie.sc2.value;
    states, actions := Longer([start], [], DoStage(0, BindingOf(key), next, middle));
    FirstStaging(start, 0, next, middle);
    states, actions := LongerByPromotion(states, actions);
    var w := states[|actions|];
    states, actions := Longer(states, actions, DoStage(1, BindingOf(next), other, late));
    FirstStaging(w, 1, other, late);
    w := states[|actions|];
    states, actions := Longer(states, actions, DoStage(2, BindingOf(next), third, early));
    Restaging(w, 2, third, early);
    states, actions := LongerByPromotion(states, actions);
  }

  lemma Longer(states: seq<World>, actions: seq<Action>, a: Action) returns (states': seq<World>, actions': seq<Action>)
    requires IsRun(states, actions)
    ensures IsRun(states', actions') && states'[0] == states[0]
    ensures states'[|actions'|] == Step(states[|actions|], a)
  {
    hide Step, Initial;
    states', actions' := states + [Step(states[|actions|], a)], actions + [a];
  }

  lemma LongerByPromotion(states: seq<World>, actions: seq<Action>) returns (states': seq<World>, actions': seq<Action>)
    requires IsRun(states, actions)
    requires var w := states[|actions|]; Waits(w) && Units(w.aie.rollover.value.networkTime).Some?
    ensures IsRun(states', actions') && states'[0] == states[0]
    ensures var w, s := states[|actions|], states'[|actions'|]; var r := w.aie.rollover.value;
            && s.last == Some(r.networkTime) && s.inOrder == (w.inOrder && LaterThanLast(w, r.networkTime))
            && s.aie.enabled
            && s.aie.sc2 == Some(r.future) && s.aie.rollover.Some? && s.aie.rollover.value.activated
            && s.aie.rollover.value.id == r.id && s.aie.rollover.value.networkTime == r.networkTime
            && s.promotions == w.promotions + 1
  {
    var time := states[|actions|].aie.rollover.value.networkTime;
    hide Step, IsRun, Waits, Units, LaterThanLast;
    var slots := PromoteNow(states[|actions|]);
    states', actions' := Longer(states, actions, DoSchedule(time));
    states', actions' := Longer(states', actions', Pass(slots));
    states', actions' := Longer(states', actions', DoActivate);
  }

  // Staging where nothing waits, later than the record in place if there is one.
  lemma FirstStaging(w: World, id: nat, future: Sc2Key, time: nat)
    requires w.aie.enabled && w.aie.sc2.Some? && Follows(w.aie.sc2.value, future) && time < LIMIT && Units(time).Some?
    requires w.aie.rollover.Some? ==> w.aie.rollover.value.id != id && LaterThan(time, w.aie.rollover.value.networkTime)
    ensures var s := Step(w, DoStage(id, BindingOf(w.aie.sc2.value), future, time));
            Waits(s) && s.aie == w.aie.(rollover := Some(Rollover(id, time, None, false, future, None)))
            && s.last == w.last && s.inOrder == w.inOrder && s.promotions == w.promotions && s.clock == w.clock
  {
    hide Units;
  }

  // Staging over a record that waits: its Network Time is not looked at.
  lemma Restaging(w: World, id: nat, future: Sc2Key, time: nat)
    requires Waits(w) && Follows(w.aie.sc2.value, future) && time < LIMIT && w.aie.rollover.value.id != id
    ensures var s := Step(w, DoStage(id, BindingOf(w.aie.sc2.value), future, time));
            Waits(s) && s.aie == w.aie.(rollover := Some(Rollover(id, time, None, false, future, None)))
            && s.last == w.last && s.inOrder == w.inOrder && s.promotions == w.promotions
  {
    hide Units;
  }

  // ----- Promotion before the announced slot

  // The slots from `w` to the slot announced for its waiting record.
  function WaitOf(w: World, currentNetworkTime: nat): nat
    requires CanSchedule(w.aie, currentNetworkTime)
  {
    Wait(w.aie.rollover.value.networkTime, currentNetworkTime, Now(w))
  }

  // Scheduled in `w`, the waiting record is promoted when software looks `slots` later.
  predicate PromotedAfter(w: World, currentNetworkTime: nat, slots: nat) {
    Step(Step(Step(w, DoSchedule(currentNetworkTime)), Pass(slots)), DoActivate).promotions == w.promotions + 1
  }

  /** A waiting record can be promoted before its announced slot exactly when that is more than half the cycle ahead. */
  lemma PromotedEarly(w: World, currentNetworkTime: nat)
    requires Waits(w) && CanSchedule(w.aie, currentNetworkTime) && WaitOf(w, currentNetworkTime) < 0x4000_0000
    ensures (exists slots: nat :: slots < WaitOf(w, currentNetworkTime) && PromotedAfter(w, currentNetworkTime, slots))
            <==> WaitOf(w, currentNetworkTime) > HALF_WRAP
  {
    hide Step, PromotedAfter, WaitOf, CanSchedule, FromInt, TdmaTime.Age;
    var wait := WaitOf(w, currentNetworkTime);
    forall slots: nat
      ensures PromotedAfter(w, currentNetworkTime, slots)
              <==> FromInt(w.clock + wait).Age(FromInt(w.clock + slots)) >= 0
    {
      PromotedWhenDue(w, currentNetworkTime, slots);
    }
    NeverEarly(w.clock, wait);
    if wait > HALF_WRAP {
      var m: nat :| w.clock <= m < w.clock + wait && FromInt(w.clock + wait).Age(FromInt(m)) >= 0;
      assert PromotedAfter(w, currentNetworkTime, m - w.clock);
    }
  }

  lemma PromotedWhenDue(w: World, currentNetworkTime: nat, slots: nat)
    requires Waits(w) && CanSchedule(w.aie, currentNetworkTime) && WaitOf(w, currentNetworkTime) < 0x4000_0000
    ensures PromotedAfter(w, currentNetworkTime, slots) <==>
            FromInt(w.clock + WaitOf(w, currentNetworkTime)).Age(FromInt(w.clock + slots)) >= 0
  {
    hide FromInt, TdmaTime.Age, Step, CanSchedule, WaitOf;
    Scheduled(w, currentNetworkTime);
    var s := Step(w, DoSchedule(currentNetworkTime));
    PassIs(s, slots);
    PromotesWhenDue(s.(clock := s.clock + slots));
  }

  lemma Scheduled(w: World, currentNetworkTime: nat)
    requires Waits(w) && CanSchedule(w.aie, currentNetworkTime) && WaitOf(w, currentNetworkTime) < 0x4000_0000
    ensures var s, wait := Step(w, DoSchedule(currentNetworkTime)), WaitOf(w, currentNetworkTime);
            s == w.(aie := w.aie.(rollover := Some(w.aie.rollover.value.(activation := Some(FromInt(w.clock + wait))))),
                    announced := w.clock + wait, ahead := wait)
  {
    hide FromInt, TdmaTime.AddTimeslots, Units, SlotsUntil, SlotsToSysinfo;
    var time := w.aie.rollover.value.networkTime;
    var slots := SlotsUntil(Units(time).value, Units(currentNetworkTime).value);
    FromIntValid(w.clock);
    AddMore(Now(w), slots, WaitOf(w, currentNetworkTime) - slots);
    LaterSlot(w.clock, WaitOf(w, currentNetworkTime));
  }

  lemma PromotesWhenDue(w: World)
    requires w.aie.sc2.Some? && w.aie.rollover.Some? && !w.aie.rollover.value.activated
             && w.aie.rollover.value.activation.Some?
    ensures Step(w, DoActivate).promotions == w.promotions + 1
            <==> w.aie.rollover.value.activation.value.Age(FromInt(w.clock)) >= 0
    ensures Step(w, DoActivate).clock == w.clock && Step(w, DoActivate).announced == w.announced
  {
    hide FromInt, TdmaTime.Age, TdmaTime.AddTimeslots, LaterThanLast;
  }

  // The start of 2000, and a Network Time some 25 days later.
  const TODAY: nat := 0
  const FAR_AHEAD: nat := 1_100_000 * 0x100_0000

  lemma FarAheadIsTooFar(clock: nat)
    ensures Units(TODAY) == Some(0) && Units(FAR_AHEAD) == Some(1_100_000) && FAR_AHEAD < LIMIT
    ensures SlotsUntil(1_100_000, 0) == 155294118 && HALF_WRAP < Wait(FAR_AHEAD, TODAY, FromInt(clock)) < 0x4000_0000
  {
    hide TdmaTime.AddTimeslots, FromInt, SlotsToSysinfo;
    FarAheadUnits();
    FromIntValid(clock);
    LaterSlot(clock, 155294118);
    FromIntValid(clock + 155294118);
    NextSysinfo(FromInt(clock + 155294118));
  }

  lemma FarAheadUnits()
    ensures Units(TODAY) == Some(0) && Units(FAR_AHEAD) == Some(1_100_000) && FAR_AHEAD < LIMIT
  {
    assert Year(FAR_AHEAD) == 2000 && OfYear(FAR_AHEAD) == 1_100_000;
    assert Year(TODAY) == 2000 && OfYear(TODAY) == 0;
    assert DaysBefore(2000) == 0;
  }

  /**
   A key promoted before its announced slot: staged 25 days ahead and announced, it is found due
   half a hyperframe cycle and one slot before the slot announced.
   */
  lemma PromotedBeforeItsSlot(start: World, next: Sc2Key) returns (states: seq<World>, actions: seq<Action>)
    requires Initial(start) && Follows(start.aie.sc2.value, next)
    ensures IsRun(states, actions) && states[0] == start
    ensures var end := states[|actions|];
            end.promotions == 1 && end.aie.sc2 == Some(next) && end.clock < end.announced
  {
    hide Units, FromInt, TdmaTime.AddTimeslots, TdmaTime.Age, Step, Wait, SlotsUntil, FAR_AHEAD, TODAY;
    var key := start.aie.sc2.value;
    FarAheadIsTooFar(start.clock);
    states, actions := Longer([start], [], DoStage(0, BindingOf(key), next, FAR_AHEAD));
    FirstStaging(start, 0, next, FAR_AHEAD);
    var w := states[|actions|];
    var wait := WaitOf(w, TODAY);
    Scheduled(w, TODAY);
    states, actions := Longer(states, actions, DoSchedule(TODAY));
    var slots := wait - HALF_WRAP - 1;
    PassIs(states[|actions|], slots);
    states, actions := Longer(states, actions, Pass(slots));
    var s := states[|actions|];
    AgeJustPastHalf(s.clock, s.announced);
    PromotesWhenDue(s);
    DueIsPromoted(s);
    states, actions := Longer(states, actions, DoActivate);
  }

  lemma AgeJustPastHalf(clock: nat, announced: nat)
    requires announced == clock + HALF_WRAP + 1
    ensures FromInt(announced).Age(FromInt(clock)) >= 0
  {
    hide FromInt, TdmaTime.Age;
    AgeOfSlots(announced, clock);
  }

  // ----- Replays, and the slot once announced

  /**
   A staging with the identity of the record in place is a replay: it changes nothing at all, and
   it succeeds exactly when it names the active key and agrees with the record on time and key.
   */
  lemma ReplayChangesNothing(aie: Aie, id: nat, active: Binding, future: Sc2Key, networkTime: nat)
    requires aie.rollover.Some? && aie.rollover.value.id == id
    ensures var r, record := Stage(aie, id, active, future, networkTime), aie.rollover.value;
            && r.aie == aie
            && (r.error.None? <==> NamesActiveKey(aie, active) && networkTime < LIMIT
                                   && record.networkTime == networkTime && record.future == future)
  {
    hide Units;
  }

  predicate NamesActiveKey(aie: Aie, active: Binding) {
    aie.enabled && aie.sc2.Some? && active == Binding(aie.sc2.value.algorithm, aie.sc2.value.sckn, aie.sc2.value.vn)
  }

  /**
   Any other staging is accepted exactly when it names the active key, its key may follow that one,
   and it is later than a promotion whose record is still in place; then its record waits without a
   slot, replacing the one in place. One that is not accepted changes nothing.
   */
  lemma StagingIsAccepted(aie: Aie, id: nat, active: Binding, future: Sc2Key, networkTime: nat)
    requires aie.rollover.Some? ==> aie.rollover.value.id != id
    ensures var r := Stage(aie, id, active, future, networkTime);
            && (r.error.None? <==>
                  && NamesActiveKey(aie, active) && networkTime < LIMIT && Follows(aie.sc2.value, future)
                  && (aie.rollover.Some? && aie.rollover.value.activated ==>
                        LaterThan(networkTime, aie.rollover.value.networkTime)))
            && (r.error.None?
                ==> r.aie == Aie(true, aie.sc2, Some(Rollover(id, networkTime, None, false, future, None))))
            && (r.error.Some? ==> r.aie == aie)
  {
    hide LaterThan;
  }

  /** Later means later on the calendar. */
  lemma LaterIsChronological(a: nat, b: nat)
    requires IsCalendar(a) && IsCalendar(b)
    ensures LaterThan(a, b) <==> Earlier(b, a)
  {
    UnitsAreChronological(b, a);
    UnitsNeedLimit(a);
    UnitsNeedLimit(b);
    hide Units, Earlier, OfYear, DaysIn;
  }

  /** A cancel drops the record it names unless that is promoted, and nothing else. */
  lemma CancelDrops(aie: Aie, id: nat)
    ensures var after := Cancel(aie, id);
            if aie.rollover.Some? && aie.rollover.value.id == id && !aie.rollover.value.activated
            then after == Aie(aie.enabled, aie.sc2, None) else after == aie
  {
  }

  /** Without an announced slot the active key is the key of every slot; without an active key there is none. */
  lemma KeyWithoutSlot(aie: Aie, direction: Direction, time: TdmaTime)
    ensures !aie.enabled || aie.sc2.None? ==> KeyAt(aie, direction, time) == Err(Sc2Disabled)
    ensures aie.enabled && aie.sc2.Some? && (aie.rollover.None? || aie.rollover.value.activation.None?) ==>
              KeyAt(aie, direction, time) == Ok(aie.sc2.value)
  {
    hide TdmaTime.Age;
  }

  /** Scheduling a waiting record announces the first security SYSINFO not before its time, under 24 slots late. */
  lemma ScheduleAnnounces(aie: Aie, currentNetworkTime: nat, now: TdmaTime)
    requires CanSchedule(aie, currentNetworkTime) && now.IsValid()
    requires SlotsUntil(Units(aie.rollover.value.networkTime).value, Units(currentNetworkTime).value) + 24 < 0x4000_0000
    ensures var time, after := aie.rollover.value.networkTime, Schedule(aie, currentNetworkTime, now);
            var n := Wait(time, currentNetworkTime, now);
            && after == aie.(rollover := Some(aie.rollover.value.(activation := Some(now.AddTimeslots(n)))))
            && now.AddTimeslots(n).IsSc2SecuritySysinfoOpportunity()
            && 17 * n >= 2400 * Ahead(time, currentNetworkTime) > 17 * (n - 24)
            && forall k: nat | 17 * k >= 2400 * Ahead(time, currentNetworkTime) && k < n ::
                 !now.AddTimeslots(k).IsSc2SecuritySysinfoOpportunity()
  {
    SchedulingBound(aie.rollover.value.networkTime, currentNetworkTime, now);
    hide AnnouncedSlot, Units, TdmaTime.AddTimeslots, Wait, Ahead, SlotsUntil, TdmaTime.IsSc2SecuritySysinfoOpportunity;
  }

  // A record with an announced slot.
  predicate Announced(w: World) {
    w.aie.rollover.Some? && w.aie.rollover.value.activation.Some?
  }

  // The commands that take a record out of its place: a cancel of it before it is promoted, and a
  // staging with another identity.
  predicate Displaces(r: Rollover, a: Action) {
    (a.DoCancel? && a.id == r.id && !r.activated) || (a.DoStage? && a.id != r.id)
  }

  // The same record in the same slot, promoted at most.
  predicate SameRecord(before: Rollover, after: Rollover) {
    && after.id == before.id && after.networkTime == before.networkTime && after.future == before.future
    && after.activation == before.activation && (before.activated ==> after.activated)
  }

  lemma SlotStaysOneStep(w: World, a: Action)
    requires Announced(w) && !Displaces(w.aie.rollover.value, a)
    ensures Announced(Step(w, a)) && SameRecord(w.aie.rollover.value, Step(w, a).aie.rollover.value)
  {
    hide Units, TdmaTime.Age, TdmaTime.AddTimeslots, FromInt, Wait, LaterThan, SlotsUntil, AnnouncedSlot;
  }

  /**
   Once announced, a slot stays: whatever is replayed, scheduled again or promoted, the record keeps
   its slot, its key and its time until it is cancelled or replaced by a staging of another identity.
   */
  lemma {:induction false} SlotStays(states: seq<World>, actions: seq<Action>, m: nat, n: nat)
    requires IsRun(states, actions) && m <= n < |states| && Announced(states[m])
    requires forall i | m <= i < n :: !Displaces(states[m].aie.rollover.value, actions[i])
    ensures Announced(states[n]) && SameRecord(states[m].aie.rollover.value, states[n].aie.rollover.value)
    decreases n
  {
    hide Step, Initial;
    if m < n {
      SlotStays(states, actions, m, n - 1);
      StillNotDisplaced(states[m].aie.rollover.value, states[n - 1].aie.rollover.value, actions[n - 1]);
      SlotStaysOneStep(states[n - 1], actions[n - 1]);
    }
  }

  lemma StillNotDisplaced(before: Rollover, after: Rollover, a: Action)
    requires SameRecord(before, after) && !Displaces(before, a)
    ensures !Displaces(after, a)
  {
  }

  lemma UnitsNeedLimit(value: nat)
    ensures Units(value).Some? <==> value < LIMIT
  {
  }
}
