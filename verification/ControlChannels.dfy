/** Spreading terminals over the common control channels of a cell. */
module ControlChannels {
  import opened Arithmetic
  import opened Wrappers

  const VALUES: nat := 12

  /** The common control slot of an MS_SCCH value when `count` secondary channels are advertised. */
  function Slot(msScch: Option<nat>, count: nat): (slot: nat)
    ensures 1 <= slot <= Channels(count)
  {
    1 + (if msScch.Some? && msScch.value < VALUES then msScch.value else 0) % Channels(count)
  }

  function Channels(count: nat): (n: nat)
    ensures 1 <= n <= 4
  {
    (if count < 3 then count else 3) + 1
  }

  /**
   Values go round the main channel and the secondary ones, of which at most three count; no value
   is the main one.
   */
  lemma ChannelOfValue(value: nat, count: nat)
    requires value < 12
    ensures Slot(None, count) == 1 && Slot(Some(value), 0) == 1
    ensures Slot(Some(value), 1) == value % 2 + 1 && Slot(Some(value), 2) == value % 3 + 1
    ensures count >= 3 ==> Slot(Some(value), count) == value % 4 + 1
  {
  }

  // Uses of the values below `n` that map to `slot`.
  function SlotSum(uses: seq<nat>, count: nat, slot: nat, n: nat): nat
    requires n <= |uses|
  {
    if n == 0 then 0
    else SlotSum(uses, count, slot, n - 1) + if Slot(Some(n - 1), count) == slot then uses[n - 1] else 0
  }

  function SlotLoad(uses: seq<nat>, count: nat, slot: nat): nat
    requires |uses| == VALUES
  {
    SlotSum(uses, count, slot, VALUES)
  }

  function Size(count: nat, slot: nat, n: nat): nat {
    if n == 0 then 0 else Size(count, slot, n - 1) + if Slot(Some(n - 1), count) == slot then 1 else 0
  }

  // How many of the numbers 1 + v % c with v below n are `slot`.
  function Share(n: nat, c: nat, slot: nat): nat
    requires c > 0
  {
    n / c + if slot <= n % c then 1 else 0
  }

  lemma ShareOneMore(n: nat, c: nat, slot: nat)
    requires 1 <= slot <= c
    ensures Share(n + 1, c, slot) == Share(n, c, slot) + if 1 + n % c == slot then 1 else 0
  {
    if n % c + 1 < c {
      Euclid(n + 1, c, n / c, n % c + 1);
    } else {
      Euclid(n + 1, c, n / c + 1, 0);
    }
  }

  lemma {:induction false} SizeSoFar(count: nat, slot: nat, n: nat)
    requires 1 <= slot <= Channels(count) && n <= VALUES
    ensures Size(count, slot, n) == Share(n, Channels(count), slot)
  {
    hide Share;
    if n > 0 {
      SizeSoFar(count, slot, n - 1);
      ShareOneMore(n - 1, Channels(count), slot);
    } else {
      NoShare(Channels(count), slot);
    }
  }

  lemma NoShare(c: nat, slot: nat)
    requires 1 <= slot <= c
    ensures Share(0, c, slot) == 0
  {
    Euclid(0, c, 0, 0);
  }

  /** Every channel has the same share of the twelve values. */
  lemma EqualShares(count: nat, slot: nat)
    requires 1 <= slot <= Channels(count)
    ensures Size(count, slot, VALUES) == VALUES / Channels(count)
  {
    hide Size, Slot, Share;
    SizeSoFar(count, slot, VALUES);
    ShareOfAll(Channels(count), slot);
  }

  lemma ShareOfAll(c: nat, slot: nat)
    requires 1 <= slot <= c <= 4
    ensures Share(VALUES, c, slot) == VALUES / c
  {
    assert c == 1 || c == 2 || c == 3 || c == 4;
  }

  // Each value is used `q` or `q + 1` times.
  predicate Level(uses: seq<nat>, q: nat) {
    |uses| == VALUES && forall v | 0 <= v < VALUES :: q <= uses[v] <= q + 1
  }

  // How far the uses of a channel's values exceed `q` each.
  function Excess(uses: seq<nat>, q: nat, count: nat, slot: nat, n: nat): nat
    requires Level(uses, q) && n <= VALUES
  {
    if n == 0 then 0
    else Excess(uses, q, count, slot, n - 1) + if Slot(Some(n - 1), count) == slot then uses[n - 1] - q else 0
  }

  lemma {:induction false} ExcessBounds(uses: seq<nat>, q: nat, count: nat, slot: nat, n: nat)
    requires Level(uses, q) && n <= VALUES
    ensures Excess(uses, q, count, slot, n) <= Size(count, slot, n)
    ensures Excess(uses, q, count, slot, n) == Size(count, slot, n)
            <==> forall v | 0 <= v < n && Slot(Some(v), count) == slot :: uses[v] == q + 1
  {
    hide Slot;
    if n > 0 {
      ExcessBounds(uses, q, count, slot, n - 1);
      assert q <= uses[n - 1] <= q + 1;
    }
  }

  lemma {:induction false} SumIsBasePlusExcess(uses: seq<nat>, q: nat, count: nat, slot: nat, n: nat)
    requires Level(uses, q) && n <= VALUES
    ensures SlotSum(uses, count, slot, n) == q * Size(count, slot, n) + Excess(uses, q, count, slot, n)
  {
    hide Slot;
    if n > 0 {
      SumIsBasePlusExcess(uses, q, count, slot, n - 1);
      TimesOneMore(q, Size(count, slot, n - 1));
    }
  }

  lemma TimesOneMore(q: nat, n: nat)
    ensures q * (n + 1) == q * n + q
  {
  }

  // A channel's load is the same base for all plus an excess between 0 and the channel's share.
  lemma SumBounds(uses: seq<nat>, q: nat, count: nat, slot: nat)
    requires Level(uses, q) && 1 <= slot <= Channels(count)
    ensures var share := VALUES / Channels(count); var excess := Excess(uses, q, count, slot, VALUES);
            && SlotLoad(uses, count, slot) == q * share + excess && excess <= share
            && (excess == share <==> forall v | 0 <= v < VALUES && Slot(Some(v), count) == slot :: uses[v] == q + 1)
  {
    hide SlotSum, Excess, Size, Slot, Level;
    EqualShares(count, slot);
    ExcessBounds(uses, q, count, slot, VALUES);
    SumIsBasePlusExcess(uses, q, count, slot, VALUES);
  }

  /** Level uses give loads that differ by at most the share of one channel, whatever the count. */
  lemma LevelLoads(uses: seq<nat>, q: nat, count: nat, s: nat, t: nat)
    requires Level(uses, q) && 1 <= s <= Channels(count) && 1 <= t <= Channels(count)
    ensures SlotLoad(uses, count, s) <= SlotLoad(uses, count, t) + VALUES / Channels(count)
  {
    SumBounds(uses, q, count, s);
    SumBounds(uses, q, count, t);
    hide SlotLoad, Excess;
  }

  // Level uses, and channel loads that differ by at most one.
  ghost predicate Even(uses: seq<nat>, count: nat) {
    && |uses| == VALUES && (exists q: nat :: Level(uses, q))
    && forall s, t | 1 <= s <= Channels(count) && 1 <= t <= Channels(count) ::
         SlotLoad(uses, count, s) <= SlotLoad(uses, count, t) + 1
  }

  // The loads of the channels, the first one at index 0.
  function Loads(uses: seq<nat>, count: nat): (loads: seq<nat>)
    requires |uses| == VALUES
    ensures |loads| == Channels(count)
  {
    seq(Channels(count), i requires 0 <= i => SlotLoad(uses, count, i + 1))
  }

  // The channel with the fewest terminals; the terminal's own one, then the first, among equals.
  ghost predicate IsLightest(loads: seq<nat>, own: nat, slot: nat) {
    && 1 <= slot <= |loads|
    && forall i | 0 <= i < |loads| ::
         loads[slot - 1] < loads[i] || (loads[slot - 1] == loads[i] && (slot == own || (i + 1 != own && slot <= i + 1)))
  }

  // The least used value of a channel; the first among equals.
  ghost predicate IsLeastUsed(uses: seq<nat>, count: nat, slot: nat, v: nat)
    requires |uses| == VALUES
  {
    && v < VALUES && Slot(Some(v), count) == slot
    && forall w | 0 <= w < VALUES && Slot(Some(w), count) == slot :: uses[v] < uses[w] || (uses[v] == uses[w] && v <= w)
  }

  function Plus(uses: seq<nat>, v: nat): seq<nat>
    requires v < |uses|
  {
    uses[v := uses[v] + 1]
  }

  lemma {:induction false} PlusSum(uses: seq<nat>, v: nat, count: nat, slot: nat, n: nat)
    requires v < |uses| && n <= |uses|
    ensures SlotSum(Plus(uses, v), count, slot, n) == SlotSum(uses, count, slot, n) + if v < n
            && Slot(Some(v), count) == slot then 1 else 0
  {
    if n > 0 {
      PlusSum(uses, v, count, slot, n - 1);
    }
  }

  /** A newcomer on the least used value of the lightest channel keeps everything even. */
  lemma NewcomerKeepsEven(uses: seq<nat>, count: nat, own: nat, slot: nat, v: nat)
    requires Even(uses, count) && IsLightest(Loads(uses, count), own, slot) && IsLeastUsed(uses, count, slot, v)
    ensures Even(Plus(uses, v), count)
  {
    var q: nat :| Level(uses, q);
    assert forall s | 1 <= s <= Channels(count) :: Loads(uses, count)[s - 1] == SlotLoad(uses, count, s);
    forall s | 1 <= s <= Channels(count)
      ensures SlotLoad(Plus(uses, v), count, s) == SlotLoad(uses, count, s) + if s == slot then 1 else 0
    {
      PlusSum(uses, v, count, s, VALUES);
    }
    if uses[v] == q {
      assert Level(Plus(uses, v), q);
    } else {
      AllAreFull(uses, q, count, slot, v, own);
      assert Level(Plus(uses, v), q + 1);
    }
  }

  // If even the least used value of the lightest channel is at the higher level, all are.
  lemma AllAreFull(uses: seq<nat>, q: nat, count: nat, slot: nat, v: nat, own: nat)
    requires Level(uses, q) && IsLightest(Loads(uses, count), own, slot) && IsLeastUsed(uses, count, slot, v)
             && uses[v] == q + 1
    ensures forall w | 0 <= w < VALUES :: uses[w] == q + 1
  {
    SumBounds(uses, q, count, slot);
    assert forall w | 0 <= w < VALUES && Slot(Some(w), count) == slot :: q + 1 <= uses[w] <= q + 1;
    forall w | 0 <= w < VALUES
      ensures uses[w] == q + 1
    {
      var t := Slot(Some(w), count);
      SumBounds(uses, q, count, t);
      assert Loads(uses, count)[slot - 1] <= Loads(uses, count)[t - 1];
    }
  }

  /** A terminal that selects again stays on its channel, and everything stays even. */
  lemma ReturnKeepsEven(uses: seq<nat>, count: nat, was: nat, slot: nat, v: nat)
    requires |uses| == VALUES && was < VALUES && Even(Plus(uses, was), count)
    requires IsLightest(Loads(uses, count), Slot(Some(was), count), slot) && IsLeastUsed(uses, count, slot, v)
    ensures slot == Slot(Some(was), count) && Even(Plus(uses, v), count)
  {
    var own := Slot(Some(was), count);
    assert forall s | 1 <= s <= Channels(count) :: Loads(uses, count)[s - 1] == SlotLoad(uses, count, s);
    forall s | 1 <= s <= Channels(count)
      ensures SlotLoad(Plus(uses, was), count, s) == SlotLoad(uses, count, s) + if s == own then 1 else 0
      ensures SlotLoad(Plus(uses, v), count, s) == SlotLoad(uses, count, s) + if s == slot then 1 else 0
    {
      PlusSum(uses, was, count, s, VALUES);
      PlusSum(uses, v, count, s, VALUES);
    }
    assert SlotLoad(Plus(uses, was), count, own) <= SlotLoad(Plus(uses, was), count, slot) + 1;
    assert slot == own;
    var q: nat :| Level(Plus(uses, was), q);
    assert uses[v] <= uses[was];
    assert Level(Plus(uses, v), q) by {
      forall w | 0 <= w < VALUES
        ensures q <= Plus(uses, v)[w] <= q + 1
      {
        assert q <= Plus(uses, was)[w] <= q + 1 && q <= Plus(uses, was)[v] <= q + 1
               && q <= Plus(uses, was)[was] <= q + 1;
      }
    }
  }

  /** The search for the lightest channel. */
  method FindLightest(loads: seq<nat>, own: nat) returns (slot: nat)
    requires loads != []
    ensures IsLightest(loads, own, slot)
  {
    slot := 1;
    for t := 2 to |loads| + 1
      invariant 1 <= slot < t && slot <= |loads|
      invariant forall i | 0 <= i < t - 1 ::
                  loads[slot - 1] < loads[i] || (loads[slot - 1] == loads[i]
                                                 && (slot == own || (i + 1 != own && slot <= i + 1)))
    {
      if loads[t - 1] < loads[slot - 1] || (loads[t - 1] == loads[slot - 1] && t == own && slot != own) {
        slot := t;
      }
    }
  }

  /** The search for the least used value of a channel; every channel has one. */
  method FindLeastUsed(uses: seq<nat>, count: nat, slot: nat) returns (value: nat)
    requires |uses| == VALUES && 1 <= slot <= Channels(count)
    ensures IsLeastUsed(uses, count, slot, value)
  {
    value := slot - 1;
    for w := slot to VALUES
      invariant value < w && Slot(Some(value), count) == slot
      invariant forall u | 0 <= u < w && Slot(Some(u), count) == slot ::
                  uses[value] < uses[u] || (uses[value] == uses[u] && value <= u)
    {
      if Slot(Some(w), count) == slot && uses[w] < uses[value] {
        value := w;
      }
    }
  }
}
