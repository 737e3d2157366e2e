/**
 * Levels (src/app/page.tsx): the cumulative XP table `LEVEL_XP_THRESHOLDS`
 * and the level-up effect, which raises the level by one whenever the XP has
 * reached the threshold of the next level. React re-runs the effect after each
 * change, so repeated single steps settle on the number of thresholds the XP
 * has reached.
 */
module Leveling {

  /** `LEVEL_XP_THRESHOLDS`: level N needs at least `LevelXpThresholds[N - 1]` XP. */
  const LevelXpThresholds: seq<int> := [0, 100, 250, 500, 800, 1200, 1700, 2300, 3000, 4000, 5000, 7500, 10000]

  /** `LEVEL_XP_THRESHOLDS.length`, the highest level. */
  const MaxLevel: int := 13

  predicate StrictlyIncreasing(ts: seq<int>) {
    forall i, j :: 0 <= i < j < |ts| ==> ts[i] < ts[j]
  }

  /** The number of thresholds at most `xp`. */
  function CountReached(ts: seq<int>, xp: int): (n: nat)
    ensures n <= |ts|
  {
    if ts == [] then 0
    else (if ts[0] <= xp then 1 else 0) + CountReached(ts[1..], xp)
  }

  /** The level a given XP total deserves. */
  function LevelFor(xp: int): nat {
    CountReached(LevelXpThresholds, xp)
  }

  /**
   * One run of the level-up effect: with `0 < level < 13` and the XP at
   * `LEVEL_XP_THRESHOLDS[level]` or above, the level goes up by exactly one;
   * otherwise it stays.
   */
  function LevelStep(level: int, xp: int): (r: int)
    ensures r == level || r == level + 1
    ensures r == level + 1 <==> 0 < level < MaxLevel && xp >= LevelXpThresholds[level]
  {
    if 0 < level < |LevelXpThresholds| && xp >= LevelXpThresholds[level] then level + 1
    else level
  }

  /** `n` successive runs of the level-up effect with unchanged XP. */
  function StepLevels(level: int, xp: int, n: nat): int
    decreases n
  {
    if n == 0 then level else StepLevels(LevelStep(level, xp), xp, n - 1)
  }

  lemma ThresholdsIncrease()
    ensures StrictlyIncreasing(LevelXpThresholds)
  {
  }

  /**
   * In a strictly increasing table the thresholds reached are exactly a
   * prefix: those below index `CountReached` and no other.
   */
  lemma {:induction false} ReachedArePrefix(ts: seq<int>, xp: int)
    requires StrictlyIncreasing(ts)
    ensures forall i :: 0 <= i < |ts| ==> (ts[i] <= xp <==> i < CountReached(ts, xp))
  {
    if ts != [] {
      ReachedArePrefix(ts[1..], xp);
      var n := CountReached(ts[1..], xp);
      if ts[0] > xp && |ts| > 1 {
        assert ts[1..][0] > xp;
      }
      forall i | 0 <= i < |ts|
        ensures ts[i] <= xp <==> i < CountReached(ts, xp)
      {
        if i > 0 { assert ts[i] == ts[1..][i - 1]; }
      }
    }
  }

  /** The deserved level is between 1 and 13 for any XP that is not negative, and is pinned by the table. */
  lemma LevelForBounds(xp: int)
    requires xp >= 0
    ensures 1 <= LevelFor(xp) <= MaxLevel
    ensures LevelXpThresholds[LevelFor(xp) - 1] <= xp
    ensures LevelFor(xp) < MaxLevel ==> xp < LevelXpThresholds[LevelFor(xp)]
  {
    ReachedArePrefix(LevelXpThresholds, xp);
  }

  /** More XP never deserves a lower level. */
  lemma LevelForMonotone(xp: int, xp': int)
    requires xp <= xp'
    ensures LevelFor(xp) <= LevelFor(xp')
  {
    ReachedArePrefix(LevelXpThresholds, xp);
    ReachedArePrefix(LevelXpThresholds, xp');
    if LevelFor(xp) > 0 {
      var i := LevelFor(xp) - 1;
      assert LevelXpThresholds[i] <= xp';
    }
  }

  /**
   * A level that has not overtaken the XP stays so after one step, and the step
   * moves it exactly when it is below the deserved level.
   */
  lemma LevelStepTowardsLevelFor(level: int, xp: int)
    requires 1 <= level <= LevelFor(xp)
    ensures LevelStep(level, xp) <= LevelFor(xp)
    ensures LevelStep(level, xp) == level + 1 <==> level < LevelFor(xp)
  {
    ReachedArePrefix(LevelXpThresholds, xp);
    var n := LevelFor(xp);
    if level < MaxLevel {
      assert LevelXpThresholds[level] <= xp <==> level < n;
    }
  }

  /** The XP has reached the threshold of `level`, a level of the table. */
  predicate LevelEarned(level: int, xp: int) {
    1 <= level <= MaxLevel && LevelXpThresholds[level - 1] <= xp
  }

  /** A level is earned exactly when it lies between 1 and the deserved level. */
  lemma LevelEarnedIffAtMostLevelFor(level: int, xp: int)
    requires xp >= 0
    ensures LevelEarned(level, xp) <==> 1 <= level <= LevelFor(xp)
  {
    ReachedArePrefix(LevelXpThresholds, xp);
    LevelForBounds(xp);
  }

  /** A step never takes the level past 13. */
  lemma LevelStepBounded(level: int, xp: int)
    requires level <= MaxLevel
    ensures LevelStep(level, xp) <= MaxLevel
  {
  }

  /**
   * Repeating the level-up effect from any level between 1 and the deserved one
   * reaches the deserved level (the count of thresholds at most `xp`) and stays there.
   */
  lemma {:induction false} StepLevelsSettles(level: int, xp: int, n: nat)
    requires 1 <= level <= LevelFor(xp)
    requires n >= LevelFor(xp) - level
    ensures StepLevels(level, xp, n) == LevelFor(xp)
    decreases n
  {
    LevelStepTowardsLevelFor(level, xp);
    if n > 0 {
      StepLevelsSettles(LevelStep(level, xp), xp, n - 1);
    }
  }

  /** Starting from level 1, twelve runs of the effect always suffice. */
  lemma SettlesFromLevelOne(xp: int)
    requires xp >= 0
    ensures StepLevels(1, xp, 12) == LevelFor(xp)
  {
    LevelForBounds(xp);
    StepLevelsSettles(1, xp, 12);
  }

  /** 250 XP deserves level 3: the threshold of level 3 is reached and that of level 4 is not. */
  lemma LevelForExample()
    ensures LevelFor(250) == 3
  {
    LevelEarnedIffAtMostLevelFor(3, 250);
    LevelEarnedIffAtMostLevelFor(4, 250);
  }
}
