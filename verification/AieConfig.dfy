/** The encryption state of a base station, updated in place by the network and by the air clock. */
module AieConfig {
  import opened Wrappers
  import opened Tdma
  import opened NetworkTime
  import opened Sc2Rollover

  // Every key of `m` is kept and bound to `binding`.
  predicate ReboundTo(before: map<nat, Binding>, m: map<nat, Binding>, binding: Binding) {
    m.Keys == before.Keys && forall k <- m :: m[k] == binding
  }

  class RuntimeAieSessions {
    var terminals: map<nat, Binding>
    // By call, then by protected subject of the call.
    var calls: map<nat, map<nat, Binding>>

    constructor ()
      ensures terminals == map[] && calls == map[]
    {
      terminals, calls := map[], map[];
    }

    method Rebind(bindings0: map<nat, Binding>, binding: Binding) returns (bindings: map<nat, Binding>)
      ensures ReboundTo(bindings0, bindings, binding)
    {
      bindings := bindings0;
      var todo := bindings0.Keys;
      while todo != {}
        invariant bindings.Keys == bindings0.Keys && todo <= bindings0.Keys
        invariant forall k <- bindings | k !in todo :: bindings[k] == binding
        decreases |todo|
      {
        var k :| k in todo;
        bindings, todo := bindings[k := binding], todo - {k};
      }
    }

    /** Every terminal and every leg of every call moves to the new key; none is dropped. */
    method RebindAllTo(key: Sc2Key)
      modifies this
      ensures ReboundTo(old(terminals), terminals, BindingOf(key))
      ensures calls.Keys == old(calls).Keys && forall c <- calls :: ReboundTo(old(calls)[c], calls[c], BindingOf(key))
    {
      terminals := Rebind(terminals, BindingOf(key));
      var todo := calls.Keys;
      while todo != {}
        invariant calls.Keys == old(calls).Keys && todo <= calls.Keys
        invariant ReboundTo(old(terminals), terminals, BindingOf(key))
        invariant forall c <- calls ::
                    if c in todo then calls[c] == old(calls)[c] else ReboundTo(old(calls)[c], calls[c], BindingOf(key))
        decreases |todo|
      {
        var c :| c in todo;
        var legs := Rebind(calls[c], BindingOf(key));
        calls, todo := calls[c := legs], todo - {c};
      }
    }
  }

  class RuntimeAieConfig {
    var enabled: bool
    var sc2: Option<Sc2Key>
    var rollover: Option<Rollover>

    function State(): Aie
      reads this
    {
      Aie(enabled, sc2, rollover)
    }

    constructor ()
      ensures State() == Aie(false, None, None)
    {
      enabled, sc2, rollover := false, None, None;
    }

    method StageRollover(id: nat, active: Binding, future: Sc2Key, networkTime: nat) returns (error: Option<StageError>)
      modifies this
      ensures Staged(State(), error) == Stage(old(State()), id, active, future, networkTime)
    {
      hide Units;
      if networkTime >= LIMIT {
        return Some(NetworkTimeTooLarge);
      }
      if !enabled || sc2.None? {
        return Some(NotEnabled);
      }
      var current := sc2.value;
      if BindingOf(current) != active {
        return Some(OtherActiveKey);
      }
      if rollover.Some? {
        var existing := rollover.value;
        if existing.id == id {
          if existing.networkTime != networkTime || existing.future != future {
            return Some(RepeatDiffers);
          }
          // A replayed command never takes an activated record back to staged.
          return None;
        }
        var next := ComputeUnits(networkTime);
        var previous := ComputeUnits(existing.networkTime);
        if existing.activated && !(next.Some? && previous.Some? && next.value > previous.value) {
          return Some(Overlaps);
        }
      }
      if current.algorithm != future.algorithm {
        return Some(OtherAlgorithm);
      }
      if current.sckn == future.sckn {
        return Some(SameSckn);
      }
      if future.vn != (current.vn + 1) % 0x1_0000 {
        return Some(WrongVersion);
      }
      rollover := Some(Rollover(id, networkTime, None, false, future, None));
      error := None;
    }

    method CancelStagedRollover(id: nat) returns (cancelled: bool)
      modifies this
      ensures State() == Cancel(old(State()), id)
      ensures cancelled <==> old(rollover).Some? && old(rollover).value.id == id && !old(rollover).value.activated
    {
      cancelled := rollover.Some? && rollover.value.id == id && !rollover.value.activated;
      if cancelled {
        rollover := None;
      }
    }

    /** Fix the air slot of a staged rollover, once. */
    method ScheduleRolloverAbsoluteIv(currentNetworkTime: nat, now: TdmaTime) returns (announced: Option<TdmaTime>)
      modifies this
      ensures State() == Schedule(old(State()), currentNetworkTime, now)
      ensures announced == if CanSchedule(old(State()), currentNetworkTime)
              then State().rollover.value.activation else None
    {
      hide Units, TdmaTime.AddTimeslots;
      if rollover.None? || rollover.value.activated || rollover.value.activation.Some? {
        return None;
      }
      var current := ComputeUnits(currentNetworkTime);
      if current.None? {
        return None;
      }
      var target := ComputeUnits(rollover.value.networkTime);
      if target.None? {
        return None;
      }
      var ahead := if target.value > current.value then target.value - current.value else 0;
      var slots := (ahead * 2400 + 16) / 17;
      if slots >= 0x8000_0000 {
        return None;
      }
      SlotsAreValid(now, slots);
      var time := ForwardToSc2SecuritySysinfo(now.AddTimeslots(slots));
      rollover := Some(rollover.value.(activation := Some(time)));
      announced := Some(time);
    }

    /** Promote the staged key when its slot has come; sessions follow it. */
    method ActivateRolloverIfDue(now: TdmaTime, sessions: RuntimeAieSessions) returns (promoted: Option<nat>)
      modifies this, sessions
      ensures State() == Activate(old(State()), now)
      ensures promoted == if IsDue(old(State()), now) && old(sc2).Some? then Some(old(rollover).value.id) else None
      ensures promoted.Some? ==>
                && sc2.Some? && ReboundTo(old(sessions.terminals), sessions.terminals, BindingOf(sc2.value))
                && sessions.calls.Keys == old(sessions.calls).Keys
                && forall c <- sessions.calls :: ReboundTo(old(sessions.calls)[c], sessions.calls[c],
                                                           BindingOf(sc2.value))
      ensures promoted.None? ==> unchanged(sessions)
    {
      hide TdmaTime.Age, TdmaTime.AddTimeslots;
      if rollover.None? || rollover.value.activated || rollover.value.activation.None?
         || rollover.value.activation.value.Age(now) < 0 {
        return None;
      }
      var future := rollover.value.future;
      var previous := sc2;
      sc2 := Some(future);
      if previous.None? {
        return None;
      }
      sessions.RebindAllTo(future);
      rollover := Some(rollover.value.(activated := true,
                                       retired := Some(Retired(previous.value, now.AddTimeslots(2)))));
      promoted := Some(rollover.value.id);
    }

    /** The key for an air slot. */
    method Sc2ForAirTime(direction: Direction, time: TdmaTime) returns (key: Result<Sc2Key, KeyError>)
      ensures key == KeyAt(State(), direction, time)
    {
      hide TdmaTime.Age;
      if !enabled || sc2.None? {
        return Err(Sc2Disabled);
      }
      var active := Ok(sc2.value);
      if rollover.None? || rollover.value.activation.None? {
        return active;
      }
      var r := rollover.value;
      var before := if r.retired.Some? then Ok(r.retired.value.key) else Err(StaleKeyIdentity);
      var age := r.activation.value.Age(time);
      if age < 0 && r.activated {
        return before;
      }
      match direction
      case Downlink =>
        key := if age >= 0 then Ok(r.future) else active;
      case Uplink =>
        if 0 <= age < 2 {
          key := if r.activated then before else active;
        } else if age >= 2 && !r.activated {
          key := Ok(r.future);
        } else {
          key := active;
        }
    }
  }

  lemma SlotsAreValid(now: TdmaTime, slots: int)
    ensures now.AddTimeslots(slots).IsValid()
  {
    ToIntInvertsFromInt(WrapI32(now.ToInt() + slots));
  }
}
