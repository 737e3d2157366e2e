/**
 * The page's state and handlers (src/app/page.tsx): the Write-odoro interval
 * machine, the XP, level and badge bookkeeping, and the goals. Each handler
 * and each effect is one method; an effect that React re-runs after a change
 * is a method the caller invokes again.
 */
module Session {
  import opened Wrappers
  import opened Types
  import opened Text
  import opened Leveling
  import opened BadgeConfig
  import opened CustomFocus
  import opened Writeodoro
  import opened AiPaceTool
  import opened SuggestBreakPoint
  import opened ImproveWriting

  /** `DEFAULT_POMODORO_CONFIG`: 25, 5 and 15 minutes, a long break every 4 work intervals. */
  const DefaultConfig: PomodoroConfig := PomodoroConfig(25 * 60, 5 * 60, 15 * 60, 4)

  const XpForPomodoroCompletion: nat := 50
  const XpForAiToolUse: nat := 20

  const InitialPomodoro: PomodoroState := PomodoroState(false, DefaultConfig.workDuration, Work, 0)
  const InitialStats: AppStats := AppStats(0, 0, 0, 0, 0, 0, 0, 1)

  /** The page's initial badges: `BADGES_CONFIG.map(b => ({...b, achieved: false}))`. */
  function InitialBadges(): (badges: seq<Badge>)
    ensures Skeleton(badges) == Skeleton(Config)
    ensures Ids(badges) == ConfigIds
    ensures forall i :: 0 <= i < |badges| ==> !badges[i].achieved
  {
    var badges := Skeleton(Config);
    assert Skeleton(badges) == badges;
    SkeletonKeepsIds(badges, Config);
    ConfigIdsInOrder();
    badges
  }

  // ---------------------------------------------------------------------------
  // The interval machine as a function of the state

  /** The timer state and the statistics after `handleNextInterval`. */
  datatype Completion = Completion(pomodoro: PomodoroState, stats: AppStats)

  /**
   * `handleNextInterval` as one step: finishing a work interval counts a
   * pomodoro, awards 50 XP and starts a break, a long one when the new cycle
   * count is a multiple of 4; finishing a break starts work and changes no
   * statistic. The new interval starts full and running.
   */
  function CompleteInterval(p: PomodoroState, s: AppStats): (c: Completion)
    ensures c.pomodoro.isRunning
    ensures c.pomodoro.timeLeft == IntervalDuration(DefaultConfig, c.pomodoro.currentInterval)
    ensures p.currentInterval == Work ==>
      && c.pomodoro.cycleCount == p.cycleCount + 1
      && (c.pomodoro.currentInterval == LongBreak <==> c.pomodoro.cycleCount % 4 == 0)
      && c.pomodoro.currentInterval != Work
      && c.stats == s.(pomodorosCompletedThisSession := s.pomodorosCompletedThisSession + 1,
                       totalPomodorosCompleted := s.totalPomodorosCompleted + 1,
                       xp := s.xp + 50)
    ensures p.currentInterval != Work ==>
      c.pomodoro.currentInterval == Work && c.pomodoro.cycleCount == p.cycleCount && c.stats == s
  {
    if p.currentInterval == Work then
      var cycles := p.cycleCount + 1;
      var next := if cycles % DefaultConfig.cyclesPerLongBreak == 0 then LongBreak else ShortBreak;
      Completion(
        PomodoroState(true, IntervalDuration(DefaultConfig, next), next, cycles),
        s.(pomodorosCompletedThisSession := s.pomodorosCompletedThisSession + 1,
           totalPomodorosCompleted := s.totalPomodorosCompleted + 1,
           xp := s.xp + XpForPomodoroCompletion))
    else
      Completion(PomodoroState(true, DefaultConfig.workDuration, Work, p.cycleCount), s)
  }

  /** `n` interval completions in a row. */
  function Completions(p: PomodoroState, s: AppStats, n: nat): Completion
    decreases n
  {
    if n == 0 then Completion(p, s)
    else
      var c := CompleteInterval(p, s);
      Completions(c.pomodoro, c.stats, n - 1)
  }

  /**
   * From a work interval, every two completions are one work interval and one
   * break: one more cycle, one more pomodoro on both counters and 50 more XP.
   */
  lemma {:induction false} CompletionPairs(p: PomodoroState, s: AppStats, n: nat)
    requires p.currentInterval == Work
    ensures var c := Completions(p, s, 2 * n);
      && c.pomodoro.currentInterval == Work
      && c.pomodoro.cycleCount == p.cycleCount + n
      && c.stats.pomodorosCompletedThisSession == s.pomodorosCompletedThisSession + n
      && c.stats.totalPomodorosCompleted == s.totalPomodorosCompleted + n
      && c.stats.xp == s.xp + 50 * n
    decreases n
  {
    if n > 0 {
      var c1 := CompleteInterval(p, s);
      var c2 := CompleteInterval(c1.pomodoro, c1.stats);
      assert Completions(p, s, 2 * n) == Completions(c2.pomodoro, c2.stats, 2 * (n - 1));
      CompletionPairs(c2.pomodoro, c2.stats, n - 1);
    }
  }

  /**
   * Starting from a reset timer, the break after the k-th work interval is
   * long exactly when k is a multiple of 4.
   */
  lemma EveryFourthBreakIsLong(s: AppStats, k: nat)
    requires k >= 1
    ensures Completions(InitialPomodoro, s, 2 * k - 1).pomodoro.currentInterval ==
      if k % 4 == 0 then LongBreak else ShortBreak
  {
    CompletionPairs(InitialPomodoro, s, k - 1);
    var c := Completions(InitialPomodoro, s, 2 * (k - 1));
    CompletionsSplit(InitialPomodoro, s, 2 * (k - 1), 1);
    assert 2 * (k - 1) + 1 == 2 * k - 1;
    assert Completions(c.pomodoro, c.stats, 1) == CompleteInterval(c.pomodoro, c.stats);
  }

  lemma {:induction false} CompletionsSplit(p: PomodoroState, s: AppStats, m: nat, n: nat)
    ensures var c := Completions(p, s, m);
      Completions(p, s, m + n) == Completions(c.pomodoro, c.stats, n)
    decreases m
  {
    if m > 0 {
      var c := CompleteInterval(p, s);
      CompletionsSplit(c.pomodoro, c.stats, m - 1, n);
    }
  }

  // ---------------------------------------------------------------------------
  // Word-count XP

  /**
   * `Math.floor(wordsWritten * 0.1)` when words were added, else 0: one XP per
   * whole ten words gained since the last count.
   */
  function WordXp(previous: nat, current: nat): (xp: nat)
    ensures current <= previous ==> xp == 0
    ensures current > previous ==> xp * 10 <= current - previous < xp * 10 + 10
  {
    if current > previous then (current - previous) / 10 else 0
  }

  /**
   * Counting in steps never earns more than counting at once: going from
   * `a` to `c` words through `b` earns at most what going straight earns.
   */
  lemma WordXpSteps(a: nat, b: nat, c: nat)
    requires a <= b <= c
    ensures WordXp(a, b) + WordXp(b, c) <= WordXp(a, c)
  {
    var x := WordXp(a, b);
    var y := WordXp(b, c);
    assert (x + y) * 10 <= c - a;
    if c > a {
      var z := WordXp(a, c);
      assert c - a < z * 10 + 10;
    }
  }

  /** Deleting words never costs XP, and retyping them after a deletion earns XP again. */
  lemma WordXpAfterDeletion(before: nat, after: nat)
    requires after <= before
    ensures WordXp(before, after) == 0
    ensures WordXp(after, before) == (before - after) / 10
  {
  }

  // ---------------------------------------------------------------------------
  // The page

  /** Badges the page can award: three have constantly false criteria and no handler changes the streak. */
  predicate Attainable(id: BadgeId) {
    id != WordSprint500 && id != NightOwl && id != GoalGetterWords && id != Streak3Days
  }

  lemma CriteriaWithoutStreakAttainable(id: BadgeId, stats: AppStats)
    requires stats.currentStreak == 0 && Criteria(id, stats)
    ensures Attainable(id)
  {
  }

  /** A snapshot of every field of the page, to say what a handler leaves alone. */
  datatype Page = Page(
    pomodoro: PomodoroState,
    stats: AppStats,
    badges: seq<Badge>,
    previousWordCount: nat,
    text: string,
    wordGoal: int,
    timeGoal: int,
    isFullScreen: bool)

  /** XP and level never go down, and achieved badges stay achieved. */
  predicate Progressed(before: Page, after: Page) {
    && before.stats.xp <= after.stats.xp
    && before.stats.level <= after.stats.level
    && |before.badges| == |after.badges|
    && forall i :: 0 <= i < |before.badges| && before.badges[i].achieved ==> after.badges[i].achieved
  }

  class FlowStatePage {
    var pomodoro: PomodoroState
    var stats: AppStats
    var badges: seq<Badge>
    var previousWordCount: nat
    var text: string
    var wordGoal: int
    var timeGoal: int
    var isFullScreen: bool

    function Snapshot(): Page
      reads this
    {
      Page(pomodoro, stats, badges, previousWordCount, text, wordGoal, timeGoal, isFullScreen)
    }

    /**
     * The time left lies within the interval; the XP has reached the
     * threshold of the level; the badge ids are the configured ones in order,
     * and only attainable ones are achieved; the word count is that of the
     * text; both pomodoro counters agree; no handler sets the streak; goals
     * are never negative.
     */
    predicate Valid()
      reads this
    {
      && 0 <= pomodoro.timeLeft <= IntervalDuration(DefaultConfig, pomodoro.currentInterval)
      && LevelEarned(stats.level, stats.xp)
      && Ids(badges) == ConfigIds
      && (forall i :: 0 <= i < |badges| && badges[i].achieved ==> Attainable(badges[i].id))
      && previousWordCount == stats.wordCount == WordStarts(text, true)
      && stats.totalPomodorosCompleted == stats.pomodorosCompletedThisSession
      && pomodoro.cycleCount <= stats.pomodorosCompletedThisSession
      && stats.currentStreak == 0
      && wordGoal >= 0 && timeGoal >= 0
    }

    constructor()
      ensures Valid()
      ensures Snapshot() == Page(InitialPomodoro, InitialStats, InitialBadges(), 0, "", 0, 0, false)
    {
      pomodoro := InitialPomodoro;
      stats := InitialStats;
      badges := InitialBadges();
      previousWordCount := 0;
      text := "";
      wordGoal := 0;
      timeGoal := 0;
      isFullScreen := false;
    }

    /** `handlePomodoroStart`: only `isRunning` changes. */
    method Start()
      requires Valid()
      modifies this
      ensures Valid() && Progressed(old(Snapshot()), Snapshot())
      ensures Snapshot() == old(Snapshot()).(pomodoro := old(pomodoro).(isRunning := true))
    {
      pomodoro := pomodoro.(isRunning := true);
    }

    /** `handlePomodoroPause`: only `isRunning` changes. */
    method Pause()
      requires Valid()
      modifies this
      ensures Valid() && Progressed(old(Snapshot()), Snapshot())
      ensures Snapshot() == old(Snapshot()).(pomodoro := old(pomodoro).(isRunning := false))
    {
      pomodoro := pomodoro.(isRunning := false);
    }

    /** `handlePomodoroReset`: the initial timer state, whatever the state was; statistics untouched. */
    method Reset()
      requires Valid()
      modifies this
      ensures Valid() && Progressed(old(Snapshot()), Snapshot())
      ensures Snapshot() == old(Snapshot()).(pomodoro := InitialPomodoro)
    {
      pomodoro := PomodoroState(false, DefaultConfig.workDuration, Work, 0);
    }

    /** `handleNextInterval`, also bound to the Skip button. */
    method NextInterval()
      requires Valid()
      modifies this
      ensures Valid() && Progressed(old(Snapshot()), Snapshot())
      ensures var c := CompleteInterval(old(pomodoro), old(stats));
        Snapshot() == old(Snapshot()).(pomodoro := c.pomodoro, stats := c.stats)
    {
      var nextInterval := Work;
      var nextTimeLeft := DefaultConfig.workDuration;
      var newCycleCount := pomodoro.cycleCount;
      var completedThisSession := stats.pomodorosCompletedThisSession;
      var totalCompleted := stats.totalPomodorosCompleted;
      var xp := stats.xp;
      if pomodoro.currentInterval == Work {
        newCycleCount := newCycleCount + 1;
        completedThisSession := completedThisSession + 1;
        totalCompleted := totalCompleted + 1;
        xp := xp + XpForPomodoroCompletion;
        if newCycleCount % DefaultConfig.cyclesPerLongBreak == 0 {
          nextInterval := LongBreak;
          nextTimeLeft := DefaultConfig.longBreakDuration;
        } else {
          nextInterval := ShortBreak;
          nextTimeLeft := DefaultConfig.shortBreakDuration;
        }
      } else {
        nextInterval := Work;
        nextTimeLeft := DefaultConfig.workDuration;
      }
      stats := stats.(pomodorosCompletedThisSession := completedThisSession,
                      totalPomodorosCompleted := totalCompleted,
                      xp := xp);
      pomodoro := pomodoro.(isRunning := true, timeLeft := nextTimeLeft,
                            currentInterval := nextInterval, cycleCount := newCycleCount);
    }

    /** `handlePomodoroSkip`: ends the current interval at once. */
    method Skip()
      requires Valid()
      modifies this
      ensures Valid() && Progressed(old(Snapshot()), Snapshot())
      ensures var c := CompleteInterval(old(pomodoro), old(stats));
        Snapshot() == old(Snapshot()).(pomodoro := c.pomodoro, stats := c.stats)
    {
      NextInterval();
    }

    /**
     * One second of the two timers: the countdown takes a second off while
     * running with time left, and the writing-time counter adds one while
     * running in a work interval.
     */
    method Tick()
      requires Valid()
      modifies this
      ensures Valid() && Progressed(old(Snapshot()), Snapshot())
      ensures pomodoro == if old(pomodoro.isRunning && pomodoro.timeLeft > 0)
        then old(pomodoro).(timeLeft := old(pomodoro.timeLeft) - 1) else old(pomodoro)
      ensures stats == if old(pomodoro.isRunning && pomodoro.currentInterval == Work)
        then old(stats).(writingTimeToday := old(stats.writingTimeToday) + 1) else old(stats)
      ensures Snapshot() == old(Snapshot()).(pomodoro := pomodoro, stats := stats)
    {
      var countingDown := pomodoro.isRunning && pomodoro.timeLeft > 0;
      var writing := pomodoro.isRunning && pomodoro.currentInterval == Work;
      if countingDown {
        pomodoro := pomodoro.(timeLeft := pomodoro.timeLeft - 1);
      }
      if writing {
        stats := stats.(writingTimeToday := stats.writingTimeToday + 1);
      }
    }

    /** The timer effect: a running interval that has reached 0 is completed. */
    method TimerEffect()
      requires Valid()
      modifies this
      ensures Valid() && Progressed(old(Snapshot()), Snapshot())
      ensures old(pomodoro.isRunning && pomodoro.timeLeft == 0) ==>
        var c := CompleteInterval(old(pomodoro), old(stats));
        Snapshot() == old(Snapshot()).(pomodoro := c.pomodoro, stats := c.stats)
      ensures !old(pomodoro.isRunning && pomodoro.timeLeft == 0) ==> Snapshot() == old(Snapshot())
    {
      if pomodoro.isRunning && pomodoro.timeLeft == 0 {
        NextInterval();
      }
    }

    /**
     * A second of a running timer with the timer effect after it: the
     * countdown never shows 0 for long, since reaching 0 starts the next
     * interval at its full length.
     */
    method ElapseSecond()
      requires Valid()
      modifies this
      ensures Valid() && Progressed(old(Snapshot()), Snapshot())
      ensures old(pomodoro.isRunning) ==> pomodoro.isRunning && pomodoro.timeLeft > 0
      ensures !old(pomodoro.isRunning) ==> Snapshot() == old(Snapshot())
    {
      Tick();
      TimerEffect();
    }

    /**
     * A text change with the word-count effect after it: the word count
     * becomes that of the new text, and XP grows by one per whole ten words
     * gained since the last count.
     */
    method SetText(newText: string)
      requires Valid()
      modifies this
      ensures Valid() && Progressed(old(Snapshot()), Snapshot())
      ensures stats == old(stats).(wordCount := WordCount(newText),
                                   xp := old(stats.xp) + WordXp(old(stats.wordCount), WordCount(newText)))
      ensures Snapshot() == old(Snapshot()).(stats := stats, text := newText, previousWordCount := WordCount(newText))
    {
      var newWordCount := WordCount(newText);
      WordCountIsWordStarts(newText);
      RecordWordCount(newText, newWordCount);
    }

    /**
     * The rest of the word-count effect, once the words are counted: XP for
     * the words gained, then the new count in the statistics and in the ref.
     */
    method RecordWordCount(newText: string, newWordCount: nat)
      requires Valid() && newWordCount == WordStarts(newText, true)
      modifies this
      ensures Valid() && Progressed(old(Snapshot()), Snapshot())
      ensures stats == old(stats).(wordCount := newWordCount,
                                   xp := old(stats.xp) + WordXp(old(stats.wordCount), newWordCount))
      ensures Snapshot() == old(Snapshot()).(stats := stats, text := newText, previousWordCount := newWordCount)
    {
      var wordsWritten := newWordCount - previousWordCount;
      var xpEarned := 0;
      if wordsWritten > 0 {
        xpEarned := wordsWritten / 10;
      }
      text, stats, previousWordCount := newText, stats.(wordCount := newWordCount, xp := stats.xp + xpEarned), newWordCount;
    }

    /** The level-up effect: one level up when the XP has reached the next threshold. */
    method LevelUp()
      requires Valid()
      modifies this
      ensures Valid() && Progressed(old(Snapshot()), Snapshot())
      ensures stats == old(stats).(level := LevelStep(old(stats.level), old(stats.xp)))
      ensures stats.level == old(stats.level) + 1 <==> old(stats.level) < LevelFor(old(stats.xp))
      ensures Snapshot() == old(Snapshot()).(stats := stats)
    {
      LevelEarnedIffAtMostLevelFor(stats.level, stats.xp);
      LevelStepTowardsLevelFor(stats.level, stats.xp);
      var currentLevel := stats.level;
      if currentLevel > 0 && currentLevel < |LevelXpThresholds| {
        var xpNeededForNextLevel := LevelXpThresholds[currentLevel];
        if stats.xp >= xpNeededForNextLevel {
          stats := stats.(level := currentLevel + 1);
        }
      }
    }

    /** The badge effect: every unachieved badge whose criterion now holds becomes achieved. */
    method EvaluateBadges()
      requires Valid()
      modifies this
      ensures Valid() && Progressed(old(Snapshot()), Snapshot())
      ensures badges == Evaluate(old(badges), stats)
      ensures Snapshot() == old(Snapshot()).(badges := badges)
    {
      var newBadges := Evaluate(badges, stats);
      if newBadges != badges {
        SkeletonKeepsIds(newBadges, badges);
        forall i | 0 <= i < |newBadges| && newBadges[i].achieved
          ensures Attainable(newBadges[i].id)
        {
          assert Skeleton(newBadges)[i] == Skeleton(badges)[i];
          if !badges[i].achieved {
            CriteriaWithoutStreakAttainable(badges[i].id, stats);
          }
        }
        badges := newBadges;
      }
    }

    /** `awardXpForAiTool`: 20 XP. */
    method AwardXpForAiTool()
      requires Valid()
      modifies this
      ensures Valid() && Progressed(old(Snapshot()), Snapshot())
      ensures stats == old(stats).(xp := old(stats.xp) + 20)
      ensures Snapshot() == old(Snapshot()).(stats := stats)
    {
      stats := stats.(xp := stats.xp + XpForAiToolUse);
    }

    /** `toggleFullScreen`: entering full screen counts a Zen session, leaving it does not. */
    method ToggleFullScreen()
      requires Valid()
      modifies this
      ensures Valid() && Progressed(old(Snapshot()), Snapshot())
      ensures isFullScreen == !old(isFullScreen)
      ensures stats == if old(isFullScreen) then old(stats)
        else old(stats).(zenSessions := old(stats.zenSessions) + 1)
      ensures Snapshot() == old(Snapshot()).(isFullScreen := isFullScreen, stats := stats)
    {
      var wasFullScreen := isFullScreen;
      isFullScreen := !wasFullScreen;
      if !wasFullScreen {
        stats := stats.(zenSessions := stats.zenSessions + 1);
      }
    }

    /** Submitting the word-goal field: the goal changes only to an accepted, non-negative value. */
    method SubmitWordGoal(value: string)
      requires Valid()
      modifies this
      ensures Valid() && Progressed(old(Snapshot()), Snapshot())
      ensures wordGoal == match AcceptedGoal(value) case Some(g) => g case None => old(wordGoal)
      ensures Snapshot() == old(Snapshot()).(wordGoal := wordGoal)
    {
      match AcceptedGoal(value) {
        case Some(goal) => wordGoal := goal;
        case None =>
      }
    }

    /** Submitting the time-goal field (minutes), under the same rule. */
    method SubmitTimeGoal(value: string)
      requires Valid()
      modifies this
      ensures Valid() && Progressed(old(Snapshot()), Snapshot())
      ensures timeGoal == match AcceptedGoal(value) case Some(g) => g case None => old(timeGoal)
      ensures Snapshot() == old(Snapshot()).(timeGoal := timeGoal)
    {
      match AcceptedGoal(value) {
        case Some(goal) => timeGoal := goal;
        case None =>
      }
    }

    /**
     * One use of an AI tool on the current text: the card's handler, then
     * 20 XP exactly when it reports success.
     */
    method UseAiTool(card: PaceTool, tool: Tool, outcome: Settled<ToolOutput>)
      requires Valid()
      modifies this, card
      ensures Valid() && Progressed(old(Snapshot()), Snapshot())
      ensures stats == old(stats).(xp := old(stats.xp) + if !Refused(tool, old(text)) && outcome.Resolved? then 20 else 0)
      ensures Snapshot() == old(Snapshot()).(stats := stats)
      ensures !Refused(tool, text) && outcome.Resolved? ==>
        card.modalContent == Some(ModalContent(tool, outcome.value))
    {
      var succeeded := HandleAiAction(card, tool, text, outcome);
      if succeeded {
        AwardXpForAiTool();
      }
    }

    /**
     * "Improve My Writing" on text that is not blank: the flow never throws,
     * so XP is awarded whatever the model did, even when it failed and the
     * dialog shows a fallback; the dialog always shows the page's own text
     * as the original.
     */
    method ImproveMyWriting(card: PaceTool, reply: ModelReply<ImproveWritingOutput>)
      requires Valid()
      modifies this, card
      ensures Valid() && Progressed(old(Snapshot()), Snapshot())
      ensures stats == old(stats).(xp := old(stats.xp) + if Trim(old(text)) == "" then 0 else 20)
      ensures Snapshot() == old(Snapshot()).(stats := stats)
      ensures Trim(old(text)) != "" ==> (card.modalContent.Some? && card.modalContent.value.data.ImproveData?
        && card.modalContent.value.data.improved.originalText == old(text))
    {
      var result := ImproveWritingFlow(text, reply);
      UseAiTool(card, AiPaceTool.ImproveWriting, Resolved(ImproveData(result)));
    }

    /**
     * "Suggest Break Point": the flow's rejection reaches the card, so XP is
     * awarded unless the text is blank or the model was consulted and threw.
     */
    method SuggestBreak(card: PaceTool, reply: ModelReply<SuggestBreakPointOutput>)
      requires Valid()
      modifies this, card
      ensures Valid() && Progressed(old(Snapshot()), Snapshot())
      ensures stats == old(stats).(xp := old(stats.xp) +
        if Trim(old(text)) == "" || (WordCount(old(text)) >= 20 && reply.Throws?) then 0 else 20)
      ensures Snapshot() == old(Snapshot()).(stats := stats)
      ensures Trim(old(text)) != "" && SuggestBreakPointFlow(old(text), reply).Resolved? ==>
        card.modalContent == Some(ModalContent(BreakSuggestion, BreakData(SuggestBreakPointFlow(old(text), reply).value)))
    {
      ConsultsModelIffTwentyWords(text);
      var outcome := match SuggestBreakPointFlow(text, reply)
        case Resolved(v) => Resolved(BreakData(v))
        case Rejected(t) => Rejected(t);
      UseAiTool(card, BreakSuggestion, outcome);
    }
  }

  // ---------------------------------------------------------------------------
  // Properties of the page's steps

  /**
   * Repeating the level-up effect settles on the level the XP deserves; the
   * level never passes 13.
   */
  lemma LevelUpsSettle(stats: AppStats)
    requires LevelEarned(stats.level, stats.xp)
    ensures StepLevels(stats.level, stats.xp, 12) == LevelFor(stats.xp) <= MaxLevel
  {
    LevelEarnedIffAtMostLevelFor(stats.level, stats.xp);
    LevelForBounds(stats.xp);
    StepLevelsSettles(stats.level, stats.xp, 12);
  }

  /** With the page's configuration, work lasts 25 minutes, a short break 5 and a long break 15. */
  lemma DefaultIntervalDurations()
    ensures IntervalDuration(DefaultConfig, Work) == 25 * 60
    ensures IntervalDuration(DefaultConfig, ShortBreak) == 5 * 60
    ensures IntervalDuration(DefaultConfig, LongBreak) == 15 * 60
  {
  }

  /** A freshly started interval shows an empty progress bar. */
  lemma NewIntervalProgressZero(p: PomodoroState, s: AppStats)
    ensures ProgressPercentage(DefaultConfig, CompleteInterval(p, s).pomodoro) == Some(0.0)
  {
  }
}
