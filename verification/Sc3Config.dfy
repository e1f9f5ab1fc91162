/** The group-key state of a base station, updated in place. */
module Sc3Config {
  import opened Wrappers
  import opened Tdma
  import opened Sc3gRollover

  /** File keys of one generation by GCKN; another generation or a repeated GCKN is an error. */
  method FileKeys(keys: seq<Gck>, vn: nat) returns (filed: Option<map<nat, Gck>>)
    ensures filed == if KeysValid(keys, vn) then Some(KeyMap(keys)) else None
  {
    var m: map<nat, Gck> := map[];
    for i := 0 to |keys|
      invariant m == KeyMap(keys[..i])
      invariant forall n :: n in m <==> exists j :: 0 <= j < i && keys[j].gckn == n
      invariant forall j | 0 <= j < i :: keys[j].vn == vn
      invariant forall j, k | 0 <= j < k < i :: keys[j].gckn != keys[k].gckn
    {
      if keys[i].vn != vn || keys[i].gckn in m {
        return None;
      }
      assert keys[..i + 1][..i] == keys[..i];
      m := m[keys[i].gckn := keys[i]];
    }
    assert keys[..|keys|] == keys;
    filed := Some(m);
  }

  lemma {:induction false} AssociationKeys(pairs: seq<(nat, nat)>, n: nat)
    ensures n in AssociationMap(pairs) <==> exists j :: 0 <= j < |pairs| && pairs[j].0 == n
  {
    if pairs != [] {
      var last := |pairs| - 1;
      AssociationKeys(pairs[..last], n);
      assert forall j | 0 <= j < last :: pairs[..last][j] == pairs[j];
    }
  }

  lemma NoAssociations(keys: map<nat, Gck>)
    ensures AssociationsValid([], keys) && AssociationMap([]) == map[]
  {
  }

  // What one more association needs, and what it adds.
  lemma NextAssociation(pairs: seq<(nat, nat)>, i: nat, keys: map<nat, Gck>)
    requires i < |pairs| && AssociationsValid(pairs[..i], keys)
    ensures AssociationsValid(pairs[..i + 1], keys) <==>
            1 <= pairs[i].0 <= 0xff_ffff && pairs[i].1 in keys && pairs[i].0 !in AssociationMap(pairs[..i])
    ensures AssociationMap(pairs[..i + 1]) == AssociationMap(pairs[..i])[pairs[i].0 := pairs[i].1]
    ensures AssociationsValid(pairs, keys) ==> AssociationsValid(pairs[..i + 1], keys)
  {
    AssociationKeys(pairs[..i], pairs[i].0);
    assert pairs[..i + 1][..i] == pairs[..i];
    hide AssociationMap;
    assert forall j | 0 <= j < i :: pairs[..i][j] == pairs[j];
    assert forall j | 0 <= j < i + 1 :: pairs[..i + 1][j] == pairs[j];
  }

  method FileAssociations(pairs: seq<(nat, nat)>, keys: map<nat, Gck>) returns (filed: Option<map<nat, nat>>)
    ensures filed == if AssociationsValid(pairs, keys) then Some(AssociationMap(pairs)) else None
  {
    hide AssociationsValid, AssociationMap;
    var m: map<nat, nat> := map[];
    NoAssociations(keys);
    for i := 0 to |pairs|
      invariant m == AssociationMap(pairs[..i]) && AssociationsValid(pairs[..i], keys)
    {
      NextAssociation(pairs, i, keys);
      if pairs[i].0 == 0 || pairs[i].0 > 0xff_ffff || pairs[i].1 !in keys || pairs[i].0 in m {
        return None;
      }
      m := m[pairs[i].0 := pairs[i].1];
    }
    assert pairs[..|pairs|] == pairs;
    filed := Some(m);
  }

  method FileFuture(keys: seq<Gck>, vn: nat, current: map<nat, Gck>) returns (filed: Option<map<nat, Gck>>)
    ensures filed == if FutureValid(keys, vn, current) then Some(KeyMap(keys)) else None
  {
    for i := 0 to |keys|
      invariant forall j | 0 <= j < i :: keys[j].gckn in current
    {
      if keys[i].gckn !in current {
        return None;
      }
    }
    filed := FileKeys(keys, vn);
  }

  class RuntimeSc3 {
    var revision: nat
    var linked: bool
    var vn: nat
    var gcks: map<nat, Gck>
    var retired: map<GckId, Gck>
    var futureVn: Option<nat>
    var future: map<nat, Gck>
    var rollover: Option<Rollover>
    var associations: map<nat, nat>

    function State(): Sc3
      reads this
    {
      Sc3(revision, linked, vn, gcks, retired, futureVn, future, rollover, associations)
    }

    constructor ()
      ensures State() == EMPTY
    {
      revision, linked, vn, gcks, retired := 0, false, 0, map[], map[];
      futureVn, future, rollover, associations := None, map[], None, map[];
    }

    method RetireCurrent()
      modifies this`retired
      ensures retired == Retire(old(retired), gcks)
    {
      retired := retired + map n | n in gcks :: GckId(n, gcks[n].vn) := gcks[n];
    }

    /** Apply a snapshot: an older one is ignored, a malformed one rejected, both without effect. */
    method ApplySnapshot(snap: Snapshot) returns (changed: bool, error: Option<SnapshotError>)
      modifies this
      ensures State() == Apply(old(State()), snap)
      ensures error == if snap.revision < old(revision) then None else Verdict(snap)
      ensures error.Some? || snap.revision < old(revision) ==> State() == old(State())
      ensures changed <==> State() != old(State())
    {
      hide KeysValid, AssociationsValid, FutureValid, KeyMap, AssociationMap, Retire;
      if snap.revision < revision {
        return false, None;
      }
      if !snap.linked && (snap.keys != [] || snap.associations != []) {
        return false, Some(NotLinked);
      }
      var nextKeys := FileKeys(snap.keys, snap.vn);
      if nextKeys.None? {
        return false, Some(BadKey);
      }
      var nextAssociations := FileAssociations(snap.associations, nextKeys.value);
      if nextAssociations.None? {
        return false, Some(BadAssociation);
      }
      var nextFuture := Some(map[]);
      NoKeys();
      if snap.futureVn.None? && snap.plan.None? && snap.futureKeys == [] {
      } else if snap.futureVn.Some? && snap.plan.Some? && snap.plan.value.activationUnix > 0 && snap.futureKeys != [] {
        nextFuture := FileFuture(snap.futureKeys, snap.futureVn.value, nextKeys.value);
        if nextFuture.None? {
          return false, Some(BadFutureKey);
        }
      } else {
        return false, Some(BadPlan);
      }
      changed := Adopt(snap, nextKeys.value, nextFuture.value, nextAssociations.value);
      error := None;
    }

    method Adopt(snap: Snapshot, nextKeys: map<nat, Gck>, nextFuture: map<nat, Gck>, nextAssociations: map<nat, nat>)
        returns (changed: bool)
      requires nextKeys == KeyMap(snap.keys) && nextFuture == KeyMap(snap.futureKeys)
               && nextAssociations == AssociationMap(snap.associations)
      modifies this
      ensures State() == Effective(old(State()), snap) && (changed <==> State() != old(State()))
    {
      hide KeyMap, AssociationMap, Retire, Carried;
      var waits := snap.plan.None? && rollover.Some? && !rollover.value.activated && rollover.value.activation.Some?
                   && futureVn == Some(snap.vn) && future == nextKeys;
      assert waits == WaitsForItsSlot(State(), snap);
      hide WaitsForItsSlot;
      if waits {
        changed := revision != snap.revision || linked != snap.linked || associations != nextAssociations;
        revision, linked, associations := snap.revision, snap.linked, nextAssociations;
      } else {
        changed := Replace(snap, nextKeys, nextFuture, nextAssociations);
      }
    }

    // Everything of the snapshot takes effect.
    method Replace(snap: Snapshot, nextKeys: map<nat, Gck>, nextFuture: map<nat, Gck>, nextAssociations: map<nat, nat>)
        returns (changed: bool)
      modifies this
      ensures State() == Sc3(snap.revision, snap.linked, snap.vn, nextKeys,
                             if old(vn) != snap.vn then Retire(old(retired), old(gcks)) else old(retired),
                             snap.futureVn, nextFuture, Carried(old(State()), snap.plan), nextAssociations)
      ensures changed <==> State() != old(State())
    {
      hide Retire, Carried;
      var nextRollover := Carried(State(), snap.plan);
      var same := Sc3(snap.revision, snap.linked, snap.vn, nextKeys, retired, snap.futureVn, nextFuture, nextRollover,
                      nextAssociations);
      changed := State() != same;
      if vn != snap.vn {
        RetireCurrent();
      }
      revision, linked, vn, gcks := snap.revision, snap.linked, snap.vn, nextKeys;
      futureVn, future, rollover, associations := snap.futureVn, nextFuture, nextRollover, nextAssociations;
    }

    method ScheduleGckRollover(unixNow: nat, current: TdmaTime) returns (announced: Option<TdmaTime>)
      modifies this`rollover
      ensures State() == Schedule(old(State()), unixNow, current)
      ensures announced == if CanSchedule(old(State()), unixNow) then State().rollover.value.activation else None
    {
      hide TdmaTime.AddTimeslots;
      if rollover.None? || rollover.value.activated || rollover.value.activation.Some? {
        return None;
      }
      var target := rollover.value.activationUnix;
      var slots := ((if target > unixNow then target - unixNow else 0) * 1200 + 16) / 17;
      if slots >= 0x8000_0000 {
        return None;
      }
      DueIsValid(current, slots);
      var start := ForwardToMultiframeStart(current.AddTimeslots(slots));
      rollover := Some(rollover.value.(activation := Some(start)));
      announced := Some(start);
    }

    method ActivateGckRolloverIfDue(current: TdmaTime) returns (promoted: Option<nat>)
      modifies this
      ensures State() == Activate(old(State()), current)
      ensures promoted == if IsDue(old(State()), current) then Some(old(rollover).value.id) else None
    {
      hide TdmaTime.Age, Retire;
      if rollover.None? || rollover.value.activation.None? || rollover.value.activated
         || rollover.value.activation.value.Age(current) < 0 || futureVn.None? || future == map[] {
        return None;
      }
      RetireCurrent();
      vn, gcks := futureVn.value, future;
      rollover := Some(rollover.value.(activated := true));
      promoted := Some(rollover.value.id);
    }
  }

  lemma NoKeys()
    ensures KeyMap([]) == map[]
  {
  }

  lemma DueIsValid(current: TdmaTime, slots: int)
    ensures current.AddTimeslots(slots).IsValid()
  {
    ToIntInvertsFromInt(WrapI32(current.ToInt() + slots));
  }
}
