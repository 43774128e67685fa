/**
 * The top-down player that fires a ring of rockets on a timer: a rocket count kept
 * between 1 and a maximum by its two adjusters, a volley spread evenly around the full
 * circle, and a countdown that resets to the fire interval whenever it fires.
 */
module RocketPlayer {

  /** The rocket headings of a volley of `count` rockets, in degrees: i * (360 / count). */
  function Volley(count: int): seq<real> {
    if count <= 0 then [] else seq(count, i => i as real * AngleStep(count))
  }

  /** The angle between neighbouring rockets of a volley of `count`. */
  function AngleStep(count: int): real
    requires count > 0
  {
    360.0 / count as real
  }

  /** A volley of n >= 1 rockets starts at 0, climbs in equal steps and stops one step short of 360. */
  lemma VolleySpread(count: int)
    requires count >= 1
    ensures |Volley(count)| == count && Volley(count)[0] == 0.0
    ensures forall i | 0 <= i < count - 1 :: Volley(count)[i + 1] == Volley(count)[i] + AngleStep(count)
    ensures forall i | 0 <= i < count :: 0.0 <= Volley(count)[i] < 360.0
    ensures Volley(count)[count - 1] + AngleStep(count) == 360.0
  {
    VolleySteps(count);
    VolleyInCircle(count);
    VolleyCloses(count);
  }

  /** Neighbouring headings are one step apart. */
  lemma VolleySteps(count: int)
    requires count >= 1
    ensures forall i | 0 <= i < count - 1 :: Volley(count)[i + 1] == Volley(count)[i] + AngleStep(count)
  {
    forall i | 0 <= i < count - 1
      ensures Volley(count)[i + 1] == Volley(count)[i] + AngleStep(count)
    {
      NextMultiple(i, AngleStep(count));
    }
  }

  /** Every heading lies in [0, 360). */
  lemma VolleyInCircle(count: int)
    requires count >= 1
    ensures forall i | 0 <= i < count :: 0.0 <= Volley(count)[i] < 360.0
  {
    StepFillsCircle(count);
    forall i | 0 <= i < count
      ensures 0.0 <= Volley(count)[i] < 360.0
    {
      assert Volley(count)[i] == i as real * AngleStep(count);
      MultipleBelow(i, count, AngleStep(count));
    }
  }

  /** One step past the last heading is the full turn. */
  lemma VolleyCloses(count: int)
    requires count >= 1
    ensures Volley(count)[count - 1] + AngleStep(count) == 360.0
  {
    StepFillsCircle(count);
    NextMultiple(count - 1, AngleStep(count));
  }

  /** count steps make exactly one full turn, and each step is positive. */
  lemma StepFillsCircle(count: int)
    requires count >= 1
    ensures AngleStep(count) > 0.0
    ensures count as real * AngleStep(count) == 360.0
  {
  }

  /** With a positive step, the multiples below n stay between 0 and n steps. */
  lemma MultipleBelow(i: int, n: int, step: real)
    requires 0 <= i < n && step > 0.0
    ensures 0.0 <= i as real * step < n as real * step
  {
  }

  /** An adjuster call: true raises the count, false lowers it. */
  function Adjusted(count: int, maxRockets: int, raises: seq<bool>): int {
    if |raises| == 0 then count
    else
      var c := Adjusted(count, maxRockets, raises[..|raises| - 1]);
      if raises[|raises| - 1] then (if c < maxRockets then c + 1 else c)
      else (if c > 1 then c - 1 else c)
  }

  /** Any sequence of adjuster calls keeps the count in [1, maxRockets]. */
  lemma {:induction false} AdjustedInRange(count: int, maxRockets: int, raises: seq<bool>)
    requires 1 <= count <= maxRockets
    ensures 1 <= Adjusted(count, maxRockets, raises) <= maxRockets
  {
    if |raises| > 0 {
      AdjustedInRange(count, maxRockets, raises[..|raises| - 1]);
    }
  }

  /** Adding the step once more gives the next multiple of it. */
  lemma NextMultiple(i: int, step: real)
    ensures (i + 1) as real * step == i as real * step + step
  {
  }

  class Player {
    var fireInterval: real
    var fireTimer: real
    var rocketCount: int
    var maxRockets: int

    /** The count is at least one rocket and at most the maximum. */
    ghost predicate Valid()
      reads this
    {
      1 <= rocketCount <= maxRockets
    }

    /** The inspector defaults, with Start's fireTimer = fireInterval. */
    constructor ()
      ensures Valid()
      ensures fireInterval == 2.0 && fireTimer == fireInterval && rocketCount == 4 && maxRockets == 8
    {
      fireInterval := 2.0;
      rocketCount := 4;
      maxRockets := 8;
      fireTimer := fireInterval;
    }

    method IncreaseRocketCount()
      modifies this
      ensures rocketCount == Adjusted(old(rocketCount), old(maxRockets), [true])
      ensures old(Valid()) ==> Valid()
      ensures maxRockets == old(maxRockets) && fireInterval == old(fireInterval) && fireTimer == old(fireTimer)
    {
      if rocketCount < maxRockets {
        rocketCount := rocketCount + 1;
      }
    }

    method DecreaseRocketCount()
      modifies this
      ensures rocketCount == Adjusted(old(rocketCount), old(maxRockets), [false])
      ensures old(Valid()) ==> Valid()
      ensures maxRockets == old(maxRockets) && fireInterval == old(fireInterval) && fireTimer == old(fireTimer)
    {
      if rocketCount > 1 {
        rocketCount := rocketCount - 1;
      }
    }

    /**
     * One rocket per count, the heading advancing by 360 / rocketCount after each. A count
     * of zero or less fires nothing (the step is then never used).
     */
    method FireRockets() returns (headings: seq<real>)
      ensures headings == Volley(rocketCount)
      ensures Valid() ==> rocketCount >= 1 && |headings| == rocketCount
    {
      headings := [];
      var angleStep := if rocketCount > 0 then 360.0 / rocketCount as real else 0.0;
      assert rocketCount > 0 ==> angleStep == AngleStep(rocketCount);
      var angle := 0.0;
      var i := 0;
      while i < rocketCount
        invariant 0 <= i <= if rocketCount > 0 then rocketCount else 0
        invariant angle == i as real * angleStep
        invariant |headings| == i
        invariant forall k | 0 <= k < i :: headings[k] == k as real * angleStep
      {
        headings := headings + [angle];
        NextMultiple(i, angleStep);
        angle := angle + angleStep;
        i := i + 1;
      }
      if rocketCount > 0 {
        assert forall k | 0 <= k < rocketCount :: headings[k] == Volley(rocketCount)[k];
      }
    }

    /**
     * The timer part of one frame: count down by dt and, on reaching zero or below, fire a
     * volley and restart from the interval.
     */
    method UpdateFireTimer(dt: real) returns (headings: seq<real>)
      modifies this
      ensures old(fireTimer) - dt <= 0.0 ==> fireTimer == fireInterval && headings == Volley(rocketCount)
      ensures old(fireTimer) - dt > 0.0 ==> fireTimer == old(fireTimer) - dt && headings == []
      ensures old(0.0 < fireTimer <= fireInterval) && dt >= 0.0 ==> 0.0 < fireTimer <= fireInterval || fireInterval <= 0.0
      ensures rocketCount == old(rocketCount) && maxRockets == old(maxRockets) && fireInterval == old(fireInterval)
    {
      headings := [];
      fireTimer := fireTimer - dt;
      if fireTimer <= 0.0 {
        headings := FireRockets();
        fireTimer := fireInterval;
      }
    }
  }
}
