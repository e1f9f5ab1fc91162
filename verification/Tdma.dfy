/**
 TDMA time of a cell: timeslot, frame, multiframe and hyperframe counters, and
 the modular slot arithmetic on which every timer and key rollover rests.
 */
module Tdma {
  import opened Arithmetic

  // Slots in one complete cycle of the 16-bit hyperframe counter: 4 * 18 * 60 * 65536.
  const TIME_INT_WRAP: int := 283115520
  const HALF_WRAP: int := 141557760

  datatype TdmaTime = TdmaTime(t: int, f: int, m: int, h: int) {
    predicate IsValid() {
      1 <= t <= 4 && 1 <= f <= 18 && 1 <= m <= 60 && 0 <= h <= 65535
    }

    function ToInt(): int {
      (t - 1) + (f - 1) * 4 + (m - 1) * 72 + h * 4320
    }

    // The slot `n` slots later; the i32 sum wraps as it does in a release build.
    function AddTimeslots(n: int): TdmaTime {
      FromInt(WrapI32(ToInt() + n))
    }

    function Diff(b: TdmaTime): int {
      IntDiff(ToInt(), b.ToInt())
    }

    function Age(now: TdmaTime): int {
      now.Diff(this)
    }

    function ForwardToTimeslot(ts: int): TdmaTime {
      AddTimeslots((ts + 4 - t) % 4)
    }

    predicate IsSc2SecuritySysinfoOpportunity() {
      t == 1 && (f == 4 || f == 8 || f == 12 || f == 16)
    }

    predicate IsMultiframeStart() {
      t == 1 && f == 1
    }
  }

  function FromInt(time: int): TdmaTime {
    TdmaTime(time % 4 + 1, time / 4 % 18 + 1, time / 72 % 60 + 1, time / 4320 % 65536)
  }

  predicate IsI32(x: int) {
    -0x8000_0000 <= x < 0x8000_0000
  }

  function WrapI32(x: int): int {
    (x + 0x8000_0000) % 0x1_0000_0000 - 0x8000_0000
  }

  /** `a - b` reduced to the representative nearest zero. */
  function IntDiff(a: int, b: int): int {
    (a - b + HALF_WRAP) % TIME_INT_WRAP - HALF_WRAP
  }

  /** The loop the program runs instead of a division. */
  method TimeIntDiff(a: int, b: int) returns (diff: int)
    requires IsI32(a - b)
    ensures diff == IntDiff(a, b)
  {
    diff := a - b;
    while diff < -HALF_WRAP
      invariant IsI32(diff)
      invariant (diff + HALF_WRAP) % TIME_INT_WRAP == (a - b + HALF_WRAP) % TIME_INT_WRAP
      decreases -diff
    {
      diff := diff + TIME_INT_WRAP;
    }
    while diff >= HALF_WRAP
      invariant -HALF_WRAP <= diff && IsI32(diff)
      invariant (diff + HALF_WRAP) % TIME_INT_WRAP == (a - b + HALF_WRAP) % TIME_INT_WRAP
      decreases diff
    {
      diff := diff - TIME_INT_WRAP;
    }
  }

  /** `IntDiff` is the one value of the half-open cycle around zero congruent to `a - b`. */
  lemma IntDiffIsTheUniqueRepresentative(a: int, b: int, d: int)
    ensures -HALF_WRAP <= d < HALF_WRAP && (a - b - d) % TIME_INT_WRAP == 0 <==> d == IntDiff(a, b)
  {
    var w := TIME_INT_WRAP;
    var x := a - b + HALF_WRAP;
    if -HALF_WRAP <= d < HALF_WRAP && (a - b - d) % w == 0 {
      Euclid(x, w, (a - b - d) / w, d + HALF_WRAP);
    }
    if d == IntDiff(a, b) {
      Euclid(a - b - d, w, x / w, 0);
    }
  }

  lemma ToIntBounds(time: TdmaTime)
    requires time.IsValid()
    ensures 0 <= time.ToInt() < TIME_INT_WRAP
  {
  }

  /** Converting to an integer and back is the identity on valid times. */
  lemma FromIntInvertsToInt(time: TdmaTime)
    requires time.IsValid()
    ensures FromInt(time.ToInt()) == time
  {
    var i := time.ToInt();
    Euclid(i, 4, (time.f - 1) + 18 * (time.m - 1) + 1080 * time.h, time.t - 1);
    Euclid(i / 4, 18, (time.m - 1) + 60 * time.h, time.f - 1);
    Euclid(i, 72, (time.m - 1) + 60 * time.h, time.t - 1 + 4 * (time.f - 1));
    Euclid(i / 72, 60, time.h, time.m - 1);
    Euclid(i, 4320, time.h, time.t - 1 + 4 * (time.f - 1) + 72 * (time.m - 1));
    Euclid(time.h, 65536, 0, time.h);
  }

  lemma NestedQuotients(i: int)
    ensures i / 72 == i / 4 / 18 && i / 4320 == i / 72 / 60
    ensures i == i % 4 + 4 * (i / 4 % 18) + 72 * (i / 72 % 60) + 4320 * (i / 4320)
  {
    var q4, q72 := i / 4, i / 4 / 18;
    Euclid(i, 72, q72, 4 * (q4 % 18) + i % 4);
    Euclid(i, 4320, q72 / 60, 72 * (q72 % 60) + 4 * (q4 % 18) + i % 4);
  }

  /** Converting from an integer and back reduces it modulo one hyperframe cycle. */
  lemma ToIntInvertsFromInt(i: int)
    ensures FromInt(i).IsValid()
    ensures FromInt(i).ToInt() == i % TIME_INT_WRAP
  {
    NestedQuotients(i);
    var q := i / 4320;
    Euclid(i, TIME_INT_WRAP, q / 65536, FromInt(i).ToInt());
  }

  /** The wrapped sum is the one i32 that agrees with it modulo 2^32. */
  lemma WrapIsTheI32(x: int, y: int)
    ensures y == WrapI32(x) <==> IsI32(y) && (x - y) % 0x1_0000_0000 == 0
  {
    var w, z := 0x1_0000_0000, x + 0x8000_0000;
    if IsI32(y) && (x - y) % w == 0 {
      Euclid(z, w, (x - y) / w, y + 0x8000_0000);
    }
    if y == WrapI32(x) {
      Euclid(x - y, w, z / w, 0);
    }
  }

  lemma WrapIsIdentityOnI32(x: int)
    requires IsI32(x)
    ensures WrapI32(x) == x
  {
  }

  /** Adding slots without i32 overflow moves the slot number by that many slots, modulo the cycle. */
  lemma AddTimeslotsToInt(time: TdmaTime, n: int)
    requires time.IsValid() && IsI32(time.ToInt() + n)
    ensures time.AddTimeslots(n).IsValid()
    ensures time.AddTimeslots(n).ToInt() == (time.ToInt() + n) % TIME_INT_WRAP
  {
    WrapIsIdentityOnI32(time.ToInt() + n);
    ToIntInvertsFromInt(time.ToInt() + n);
  }

  lemma ModShift(x: int, k: int)
    ensures (x + k * TIME_INT_WRAP) % TIME_INT_WRAP == x % TIME_INT_WRAP
  {
    Euclid(x + k * TIME_INT_WRAP, TIME_INT_WRAP, x / TIME_INT_WRAP + k, x % TIME_INT_WRAP);
  }

  /** The difference only sees its arguments modulo the cycle. */
  lemma IntDiffModular(a: int, b: int)
    ensures IntDiff(a % TIME_INT_WRAP, b) == IntDiff(a, b) == IntDiff(a, b % TIME_INT_WRAP)
  {
    ModShift(a - b + HALF_WRAP, -(a / TIME_INT_WRAP));
    ModShift(a - b + HALF_WRAP, b / TIME_INT_WRAP);
  }

  lemma IntDiffOfShift(a: int, b: int, n: int)
    requires -HALF_WRAP <= IntDiff(a, b) + n < HALF_WRAP
    ensures IntDiff(a + n, b) == IntDiff(a, b) + n
  {
    var x := a - b + HALF_WRAP;
    Euclid(x + n, TIME_INT_WRAP, x / TIME_INT_WRAP, x % TIME_INT_WRAP + n);
  }

  lemma DiffInRange(a: TdmaTime, b: TdmaTime)
    ensures -HALF_WRAP <= a.Diff(b) < HALF_WRAP
  {
    IntDiffInRange(a.ToInt(), b.ToInt());
  }

  lemma AddThenDiffInside(time: TdmaTime, n: int)
    requires time.IsValid() && -HALF_WRAP <= n < HALF_WRAP
    ensures time.AddTimeslots(n).Diff(time) == n
  {
    hide FromInt, IntDiff, WrapI32;
    ToIntBounds(time);
    AddTimeslotsToInt(time, n);
    var i := time.ToInt();
    IntDiffModular(i + n, i);
    IntDiffOfSelf(i);
    IntDiffOfShift(i, i, n);
  }

  /**
   Adding `n` slots and taking the difference gives `n` back exactly for `n` in the
   half-open half cycle around zero, for every i32 `n`, overflow of the sum included.
   */
  lemma AddThenDiff(time: TdmaTime, n: int)
    requires time.IsValid() && IsI32(n)
    ensures time.AddTimeslots(n).Diff(time) == n <==> -HALF_WRAP <= n < HALF_WRAP
  {
    DiffInRange(time.AddTimeslots(n), time);
    if -HALF_WRAP <= n < HALF_WRAP {
      AddThenDiffInside(time, n);
    }
  }

  lemma IntDiffInRange(a: int, b: int)
    ensures -HALF_WRAP <= IntDiff(a, b) < HALF_WRAP
  {
  }

  lemma IntDiffOfSelf(a: int)
    ensures IntDiff(a, a) == 0
  {
  }

  lemma NoTimePasses(t: TdmaTime)
    ensures t.Diff(t) == 0
  {
    IntDiffOfSelf(t.ToInt());
  }

  lemma PhaseAfter(time: TdmaTime, k: nat)
    requires time.IsValid() && k < 0x4000_0000
    ensures time.AddTimeslots(k).IsValid()
    ensures (time.AddTimeslots(k).t - 1) + 4 * (time.AddTimeslots(k).f - 1) == (time.ToInt() + k) % 72
  {
    ToIntBounds(time);
    AddTimeslotsToInt(time, k);
    var later, sum := time.AddTimeslots(k), time.ToInt() + k;
    var cycles, phase := sum / TIME_INT_WRAP, (later.t - 1) + 4 * (later.f - 1);
    assert sum == cycles * TIME_INT_WRAP + later.ToInt();
    Euclid(sum, 72, 3932160 * cycles + (later.m - 1) + 60 * later.h, phase);
  }

  lemma SameSlotNumber(a: TdmaTime, b: TdmaTime)
    requires a.IsValid() && b.IsValid() && a.ToInt() == b.ToInt()
    ensures a == b
  {
    FromIntInvertsToInt(a);
    FromIntInvertsToInt(b);
  }

  lemma ModOneMore(x: int)
    ensures (x % TIME_INT_WRAP + 1) % TIME_INT_WRAP == (x + 1) % TIME_INT_WRAP
  {
    ModShift(x + 1, -(x / TIME_INT_WRAP));
  }

  /** Adding one slot repeatedly is adding the number of slots. */
  lemma AddOneMore(time: TdmaTime, k: nat)
    requires time.IsValid() && k < 0x4000_0000
    ensures time.AddTimeslots(k).IsValid()
    ensures time.AddTimeslots(k).AddTimeslots(1) == time.AddTimeslots(k + 1)
  {
    hide FromInt, WrapI32, TdmaTime.AddTimeslots;
    ToIntBounds(time);
    var x, earlier, later := time.ToInt() + k, time.AddTimeslots(k), time.AddTimeslots(k + 1);
    AddTimeslotsToInt(time, k);
    AddTimeslotsToInt(time, k + 1);
    ToIntBounds(earlier);
    AddTimeslotsToInt(earlier, 1);
    ModOneMore(x);
    SameSlotNumber(earlier.AddTimeslots(1), later);
  }

  /** Adding slots in two steps is adding them at once. */
  lemma AddMore(time: TdmaTime, j: nat, k: nat)
    requires time.IsValid() && j + k < 0x4000_0000
    ensures time.AddTimeslots(j).IsValid() && time.AddTimeslots(j + k).IsValid()
    ensures time.AddTimeslots(j).AddTimeslots(k) == time.AddTimeslots(j + k)
  {
    hide FromInt, WrapI32, TdmaTime.AddTimeslots;
    ToIntBounds(time);
    var x, earlier, later := time.ToInt() + j, time.AddTimeslots(j), time.AddTimeslots(j + k);
    AddTimeslotsToInt(time, j);
    AddTimeslotsToInt(time, j + k);
    ToIntBounds(earlier);
    AddTimeslotsToInt(earlier, k);
    ModShift(x + k, -(x / TIME_INT_WRAP));
    SameSlotNumber(earlier.AddTimeslots(k), later);
  }

  lemma AddNothing(time: TdmaTime)
    requires time.IsValid()
    ensures time.AddTimeslots(0) == time
  {
    ToIntBounds(time);
    WrapIsIdentityOnI32(time.ToInt());
    FromIntInvertsToInt(time);
  }

  /** `r` is the first slot at or after `from` that satisfies `goal`; it comes `late` slots later. */
  ghost predicate FirstFrom(from: TdmaTime, goal: TdmaTime -> bool, r: TdmaTime, late: nat) {
    && r == from.AddTimeslots(late)
    && goal(r)
    && forall k: nat :: k < late ==> !goal(from.AddTimeslots(k))
  }

  const SC2_OPPORTUNITY: TdmaTime -> bool := (time: TdmaTime) => time.IsSc2SecuritySysinfoOpportunity()
  const MULTIFRAME_START: TdmaTime -> bool := (time: TdmaTime) => time.IsMultiframeStart()

  // Slots until the next frame 4, 8, 12 or 16 begins, as seen from slot `phase` of a multiframe.
  function SlotsToSysinfo(from: TdmaTime): nat {
    var phase := from.ToInt() % 72;
    if phase <= 12 then 12 - phase else if phase <= 28 then 28 - phase else if phase <= 44 then 44 - phase
    else if phase <= 60 then 60 - phase else 84 - phase
  }

  function SlotsToMultiframe(from: TdmaTime): nat {
    if from.ToInt() % 72 == 0 then 0 else 72 - from.ToInt() % 72
  }

  lemma PhaseLater(x: int, k: nat)
    requires k < 72
    ensures (x + k) % 72 == if x % 72 + k < 72 then x % 72 + k else x % 72 + k - 72
  {
    Euclid(x + k, 72, x / 72 + (if x % 72 + k < 72 then 0 else 1), if x % 72 + k < 72 then x % 72 + k
           else x % 72 + k - 72);
  }

  lemma OpportunityByPhase(from: TdmaTime, k: nat)
    requires from.IsValid() && k < 72
    ensures var phase := (from.ToInt() + k) % 72; var later := from.AddTimeslots(k);
            && (later.IsSc2SecuritySysinfoOpportunity() <==> phase == 12 || phase == 28 || phase == 44 || phase == 60)
            && (later.IsMultiframeStart() <==> phase == 0)
  {
    hide FromInt, WrapI32, TdmaTime.AddTimeslots;
    PhaseAfter(from, k);
  }

  /** The next slot with a given number, now or within the next three slots. */
  lemma NextTimeslot(from: TdmaTime, ts: int)
    requires from.IsValid() && 1 <= ts <= 4
    ensures exists n: nat :: n < 4 && from.ForwardToTimeslot(ts) == from.AddTimeslots(n) && from.AddTimeslots(n).t == ts
                             && forall k: nat | k < n :: from.AddTimeslots(k).t != ts
  {
    hide FromInt, WrapI32, TdmaTime.AddTimeslots;
    var n: nat := if ts >= from.t then ts - from.t else ts + 4 - from.t;
    assert (ts + 4 - from.t) % 4 == n;
    forall k: nat | k < 4
      ensures from.AddTimeslots(k).t == ts <==> k == n
    {
      TimeslotLater(from, k);
    }
    assert from.ForwardToTimeslot(ts) == from.AddTimeslots(n);
  }

  lemma TimeslotLater(from: TdmaTime, k: nat)
    requires from.IsValid() && k < 4
    ensures from.AddTimeslots(k).t == if from.t + k <= 4 then from.t + k else from.t + k - 4
  {
    WrapIsIdentityOnI32(from.ToInt() + k);
    var rest := (from.f - 1) + 18 * (from.m - 1) + 1080 * from.h;
    assert from.ToInt() == from.t - 1 + 4 * rest;
    if from.t - 1 + k < 4 {
      Euclid(from.ToInt() + k, 4, rest, from.t - 1 + k);
    } else {
      Euclid(from.ToInt() + k, 4, rest + 1, from.t - 5 + k);
    }
  }

  /** Security SYSINFO comes at least every 24 slots; `SlotsToSysinfo` is the wait for the next. */
  lemma NextSysinfo(from: TdmaTime)
    requires from.IsValid()
    ensures var n := SlotsToSysinfo(from); n < 24 && FirstFrom(from, SC2_OPPORTUNITY, from.AddTimeslots(n), n)
  {
    var n := SlotsToSysinfo(from);
    hide FromInt, WrapI32, TdmaTime.AddTimeslots, TdmaTime.IsSc2SecuritySysinfoOpportunity, TdmaTime.IsMultiframeStart;
    forall k: nat | k <= n
      ensures from.AddTimeslots(k).IsSc2SecuritySysinfoOpportunity() <==> k == n
    {
      PhaseLater(from.ToInt(), k);
      OpportunityByPhase(from, k);
    }
  }

  lemma NextMultiframe(from: TdmaTime)
    requires from.IsValid()
    ensures var n := SlotsToMultiframe(from); n < 72 && FirstFrom(from, MULTIFRAME_START, from.AddTimeslots(n), n)
  {
    var n := SlotsToMultiframe(from);
    hide FromInt, WrapI32, TdmaTime.AddTimeslots, TdmaTime.IsSc2SecuritySysinfoOpportunity, TdmaTime.IsMultiframeStart;
    forall k: nat | k <= n
      ensures from.AddTimeslots(k).IsMultiframeStart() <==> k == n
    {
      PhaseLater(from.ToInt(), k);
      OpportunityByPhase(from, k);
    }
  }

  /** The search for the next BNCH that airs SCKN and SCK-VN always ends, within 23 slots. */
  method ForwardToSc2SecuritySysinfo(from: TdmaTime) returns (time: TdmaTime)
    requires from.IsValid()
    ensures time == from.AddTimeslots(SlotsToSysinfo(from)) && time.IsValid()
    ensures SlotsToSysinfo(from) < 24 && FirstFrom(from, SC2_OPPORTUNITY, time, SlotsToSysinfo(from))
  {
    hide FromInt, WrapI32, TdmaTime.AddTimeslots, SlotsToSysinfo;
    time := from;
    AddNothing(from);
    NextSysinfo(from);
    ghost var found := SlotsToSysinfo(from);
    for i := 0 to 72
      invariant i <= found
      invariant time.IsValid() && time == from.AddTimeslots(i)
    {
      if time.IsSc2SecuritySysinfoOpportunity() {
        return;
      }
      AddOneMore(from, i);
      AddOneMore(from, i + 1);
      time := time.AddTimeslots(1);
    }
    assert false;
  }

  /** The search for the next multiframe start always ends, within 71 slots. */
  method ForwardToMultiframeStart(from: TdmaTime) returns (time: TdmaTime)
    requires from.IsValid()
    ensures time == from.AddTimeslots(SlotsToMultiframe(from)) && time.IsValid()
    ensures SlotsToMultiframe(from) < 72 && FirstFrom(from, MULTIFRAME_START, time, SlotsToMultiframe(from))
  {
    hide FromInt, WrapI32, TdmaTime.AddTimeslots, SlotsToMultiframe;
    time := from;
    AddNothing(from);
    NextMultiframe(from);
    ghost var found := SlotsToMultiframe(from);
    for i := 0 to 72
      invariant i <= found
      invariant time.IsValid() && time == from.AddTimeslots(i)
    {
      if time.IsMultiframeStart() {
        return;
      }
      AddOneMore(from, i);
      AddOneMore(from, i + 1);
      time := time.AddTimeslots(1);
    }
    assert false;
  }
}
