/**
 * The progress panel (src/components/zenwrite/progress-vis.tsx): goal
 * progress for words and writing time, and progress through the current
 * level's XP span. Percentages are reals; JavaScript's `undefined`, `NaN` and
 * `Infinity` appear as `Option` values where the computation can produce them.
 */
module ProgressVis {
  import opened Wrappers
  import opened Types
  import opened Leveling

  function MinReal(a: real, b: real): real {
    if a <= b then a else b
  }

  /**
   * `goal > 0 ? Math.min((done / goal) * 100, 100) : 0`: the share of the goal
   * reached, capped at 100, and 0 without a goal.
   */
  function GoalProgress(done: nat, goal: int): (r: real)
    ensures 0.0 <= r <= 100.0
    ensures goal <= 0 ==> r == 0.0
    ensures goal > 0 ==> (r == 100.0 <==> done >= goal)
    ensures goal > 0 && done < goal ==> r * goal as real == done as real * 100.0
  {
    if goal > 0 then MinReal(done as real / goal as real * 100.0, 100.0) else 0.0
  }

  /** `wordProgress`: the word count against the word goal. */
  function WordProgress(stats: AppStats, wordGoal: int): real {
    GoalProgress(stats.wordCount, wordGoal)
  }

  /** `timeProgress`: seconds written today against the time goal, which is in minutes. */
  function TimeProgress(stats: AppStats, timeGoal: int): real {
    GoalProgress(stats.writingTimeToday, timeGoal * 60)
  }

  /** Writing more never moves a goal bar back. */
  lemma GoalProgressMonotone(done: nat, done': nat, goal: int)
    requires done <= done'
    ensures GoalProgress(done, goal) <= GoalProgress(done', goal)
  {
    if goal > 0 {
      var g := goal as real;
      assert done as real / g <= done' as real / g by {
        assert done as real <= done' as real;
      }
    }
  }

  /** A time goal of N minutes is met after N·60 seconds of writing and not before. */
  lemma TimeGoalMet(stats: AppStats, timeGoal: int)
    requires timeGoal > 0
    ensures TimeProgress(stats, timeGoal) == 100.0 <==> stats.writingTimeToday >= timeGoal * 60
  {
  }

  /** The time readout: `Math.floor(writingTimeToday / 60)` whole minutes. */
  function WrittenMinutes(stats: AppStats): (minutes: nat)
    ensures minutes * 60 <= stats.writingTimeToday < minutes * 60 + 60
  {
    stats.writingTimeToday / 60
  }

  /**
   * `xpForCurrentLevelStart`: 0 up to level 1, else `LEVEL_XP_THRESHOLDS[level - 1]`,
   * which is `undefined` (here `None`) past the table.
   */
  function LevelStart(level: int): (start: Option<int>)
    ensures start.None? <==> level > MaxLevel
    ensures 1 <= level <= MaxLevel ==> start == Some(LevelXpThresholds[level - 1])
  {
    if level > 1 then
      if level - 1 < |LevelXpThresholds| then Some(LevelXpThresholds[level - 1]) else None
    else Some(0)
  }

  /** `xpForNextLevel`: `LEVEL_XP_THRESHOLDS[level] ?? Infinity`, with `None` for infinity. */
  function LevelNext(level: int): (next: Option<int>)
    ensures next.Some? <==> 0 <= level < MaxLevel
    ensures next.Some? ==> next.value == LevelXpThresholds[level]
  {
    if 0 <= level < |LevelXpThresholds| then Some(LevelXpThresholds[level]) else None
  }

  /**
   * `levelXpProgress`: how far the XP is through the span from the current
   * level's threshold to the next, capped at 100. A span that is `NaN`, not
   * positive, or infinite gives 0: the first two by the guard, the last
   * because a finite amount over an infinite span is 0.
   */
  function LevelXpProgress(stats: AppStats): (r: real)
    ensures r <= 100.0
    ensures LevelNext(stats.level).None? ==> r == 0.0
  {
    match (LevelStart(stats.level), LevelNext(stats.level))
    case (Some(start), Some(next)) =>
      var span := next - start;
      if span > 0 then MinReal((stats.xp - start) as real / span as real * 100.0, 100.0) else 0.0
    case _ => 0.0
  }

  /** `level < LEVEL_XP_THRESHOLDS.length && xpForNextLevel !== Infinity`. */
  predicate ShowsNextLevelBar(level: int) {
    level < MaxLevel && LevelNext(level).Some?
  }

  /** The next-level bar shows exactly for the levels below 13 that are not negative. */
  lemma NextLevelBarLevels(level: int)
    ensures ShowsNextLevelBar(level) <==> 0 <= level < MaxLevel
  {
  }

  /**
   * For any level the page can reach (its XP has reached the level's
   * threshold) the level bar is never negative, and it is full exactly when
   * the level-up effect would raise the level.
   */
  lemma LevelXpProgressOfEarnedLevel(stats: AppStats)
    requires LevelEarned(stats.level, stats.xp)
    ensures 0.0 <= LevelXpProgress(stats)
    ensures LevelXpProgress(stats) == 100.0 <==> LevelStep(stats.level, stats.xp) == stats.level + 1
  {
    var level := stats.level;
    if level < MaxLevel {
      ThresholdsIncrease();
      var start := LevelXpThresholds[level - 1];
      var next := LevelXpThresholds[level];
      assert LevelStart(level) == Some(start);
      assert LevelNext(level) == Some(next);
      assert next - start > 0;
      var q := (stats.xp - start) as real / (next - start) as real;
      assert 0.0 <= q;
      assert q * 100.0 >= 100.0 <==> stats.xp >= next by {
        assert q * (next - start) as real == (stats.xp - start) as real;
      }
    }
  }

  /** The panel's placeholder line: no goals set and no next-level bar. */
  predicate ShowsPlaceholder(stats: AppStats, wordGoal: int, timeGoal: int) {
    wordGoal == 0 && timeGoal == 0 && !ShowsNextLevelBar(stats.level)
  }

  /** On a reachable level the placeholder needs the top level. */
  lemma PlaceholderOnlyAtTopLevel(stats: AppStats)
    requires LevelEarned(stats.level, stats.xp)
    ensures ShowsPlaceholder(stats, 0, 0) <==> stats.level == MaxLevel
  {
  }
}
