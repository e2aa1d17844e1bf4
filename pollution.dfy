/**
 * The pollution meter (`PollutionSystem.cs`): an integer written only through a setter that
 * clamps to [0, 100], announces the stored value, and asks for the loss scene whenever the
 * stored value is 100. Spawns add one, deliveries take one away.
 */
module Pollution {
  import opened GameEvents

  const MinPollution: int := 0
  const MaxPollution: int := 100
  const LossScene: string := "LossScene"

  /** `Mathf.Clamp` on integers. */
  function Clamp(value: int, lo: int, hi: int): (r: int)
    requires lo <= hi
    ensures lo <= r <= hi
    ensures lo <= value <= hi ==> r == value
    ensures value < lo ==> r == lo
    ensures hi < value ==> r == hi
  {
    if value < lo then lo else if value > hi then hi else value
  }

  /** The value the setter stores for a requested value. */
  function Stored(value: int): (r: int)
    ensures MinPollution <= r <= MaxPollution
    ensures MinPollution <= value <= MaxPollution ==> r == value
  {
    Clamp(value, MinPollution, MaxPollution)
  }

  /** What one write raises, in order: the notification, then the loss request at 100. */
  function WriteEffects(stored: int): (r: seq<Event>)
    ensures 1 <= |r| <= 2 && r[0] == OnPollutionSet(stored)
    ensures LoadScene(LossScene) in r <==> stored == MaxPollution
  {
    [OnPollutionSet(stored)] + if stored == MaxPollution then [LoadScene(LossScene)] else []
  }

  /**
   * The values announced by a run of `+=`/`-=` adjustments starting from `start`: each one
   * is the previous stored value plus its delta, clamped.
   */
  function Levels(start: int, deltas: seq<int>): (r: seq<int>)
    ensures |r| == |deltas|
    ensures forall i :: 0 <= i < |r| ==> MinPollution <= r[i] <= MaxPollution
    ensures |r| > 0 ==> r[0] == Stored(start + deltas[0])
    ensures forall i :: 0 < i < |r| ==> r[i] == Stored(r[i - 1] + deltas[i])
    decreases |deltas|
  {
    if deltas == [] then []
    else
      var first := Stored(start + deltas[0]);
      [first] + Levels(first, deltas[1..])
  }

  /** How many times a run of adjustments asks for the loss scene. */
  function LossRequests(levels: seq<int>): (n: nat)
    ensures n <= |levels|
    ensures n == 0 <==> MaxPollution !in levels
    decreases |levels|
  {
    if levels == [] then 0
    else (if levels[0] == MaxPollution then 1 else 0) + LossRequests(levels[1..])
  }

  /** Once full, every further increment lands on 100 again and asks for the loss scene again. */
  lemma {:induction false} SaturatedRequestsLossEveryTime(n: nat)
    ensures Levels(MaxPollution, seq(n, _ => 1)) == seq(n, _ => MaxPollution)
    ensures LossRequests(Levels(MaxPollution, seq(n, _ => 1))) == n
  {
    if n > 0 {
      SaturatedRequestsLossEveryTime(n - 1);
      assert seq(n, _ => 1)[1..] == seq(n - 1, _ => 1);
      assert seq(n, _ => MaxPollution) == [MaxPollution] + seq(n - 1, _ => MaxPollution);
    }
  }

  /** Two increments from 99 reach 100 twice, so the loss scene is asked for twice. */
  lemma {:induction false} LossRequestedTwiceFrom99()
    ensures Levels(99, [1, 1]) == [100, 100]
    ensures LossRequests(Levels(99, [1, 1])) == 2
  {
    assert [1, 1][1..] == [1];
  }

  /**
   * Clamping each write is not clamping the sum: from 0, a delivery then a spawn leave the
   * meter at 1 although the deltas add up to 0.
   */
  lemma {:induction false} ClampedRunIsNotClampedSum()
    ensures Levels(0, [-1, 1]) == [0, 1]
    ensures Stored(0 + -1 + 1) == 0
  {
    assert [-1, 1][1..] == [1];
  }

  class PollutionSystem {
    /** `_pollution`. */
    var pollution: int

    constructor ()
      ensures pollution == 0
    {
      pollution := 0;
    }

    /** The `Pollution` setter; `raised` lists what it announces and requests, in order. */
    method SetPollution(value: int) returns (raised: seq<Event>)
      modifies this
      ensures MinPollution <= pollution <= MaxPollution
      ensures pollution == Stored(value)
      ensures raised == WriteEffects(pollution)
      ensures raised[0] == OnPollutionSet(pollution)
      ensures LoadScene(LossScene) in raised <==> pollution == MaxPollution
    {
      pollution := Clamp(value, MinPollution, MaxPollution);
      raised := [OnPollutionSet(pollution)];
      if pollution == MaxPollution {
        raised := raised + [LoadScene(LossScene)];
      }
    }

    /** `Start`: writes 0 whatever the meter holds. */
    method Start() returns (raised: seq<Event>)
      modifies this
      ensures pollution == 0
      ensures raised == [OnPollutionSet(0)]
    {
      raised := SetPollution(0);
    }

    /** A delivery: one less, never below zero. */
    method OnTrashHitBoatTop() returns (raised: seq<Event>)
      modifies this
      ensures pollution == Stored(old(pollution) - 1)
      ensures MinPollution <= old(pollution) <= MaxPollution ==>
                pollution == if old(pollution) == 0 then 0 else old(pollution) - 1
      ensures raised == WriteEffects(pollution)
    {
      raised := SetPollution(pollution - 1);
    }

    /** A spawn: one more, never above 100. */
    method OnTrashSpawned() returns (raised: seq<Event>)
      modifies this
      ensures pollution == Stored(old(pollution) + 1)
      ensures MinPollution <= old(pollution) <= MaxPollution ==>
                pollution == if old(pollution) == MaxPollution then MaxPollution else old(pollution) + 1
      ensures raised == WriteEffects(pollution)
    {
      raised := SetPollution(pollution + 1);
    }
  }
}
