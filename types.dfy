/**
 * The shapes of the records the app passes around (src/lib/types.ts), with the
 * `xp` and `level` fields that page.tsx keeps in its statistics record.
 */
module Types {
  import opened Wrappers

  /** The three phases of the Write-odoro timer. */
  datatype Interval = Work | ShortBreak | LongBreak

  /** The timer state held by the page. `cycleCount` is never wrapped. */
  datatype PomodoroState = PomodoroState(
    isRunning: bool,
    timeLeft: int,
    currentInterval: Interval,
    cycleCount: nat)

  /** Durations in seconds. */
  datatype PomodoroConfig = PomodoroConfig(
    workDuration: int,
    shortBreakDuration: int,
    longBreakDuration: int,
    cyclesPerLongBreak: int)

  /** The statistics record of the page; every counter starts at 0 and `level` at 1. */
  datatype AppStats = AppStats(
    wordCount: nat,
    pomodorosCompletedThisSession: nat,
    totalPomodorosCompleted: nat,
    writingTimeToday: nat,   // seconds
    zenSessions: nat,
    currentStreak: nat,      // days
    xp: nat,
    level: int)

  datatype FocusSettings = FocusSettings(
    enableParagraphFocus: bool,
    enableDynamicLighting: bool,
    enableDeepWorkMode: bool,
    enableContentAwareBreaks: bool,
    enableAiWritingExercises: bool)

  // Inputs and outputs of the language-model flows.

  datatype SuggestBreakPointOutput = SuggestBreakPointOutput(
    isGoodBreakPoint: bool,
    reason: string,
    suggestedAction: Option<string>)

  datatype ImproveWritingOutput = ImproveWritingOutput(
    originalText: string,
    improvedText: string,
    suggestions: Option<seq<string>>)

  datatype AnalyzeWritingPaceOutput = AnalyzeWritingPaceOutput(
    paceAnalysis: string,
    styleAnalysis: string,
    writingBlocks: string,
    suggestedResources: string)

  datatype SuggestStuckActivityOutput = SuggestStuckActivityOutput(
    activitySuggestion: string,
    rationale: Option<string>,
    estimatedTime: Option<string>)

  datatype GenerateWritingExerciseInput = GenerateWritingExerciseInput(
    currentTopic: Option<string>,
    textLength: nat)

  datatype GenerateWritingExerciseOutput = GenerateWritingExerciseOutput(
    exercisePrompt: string,
    category: Option<string>)

  /**
   * What one call of a language-model prompt gives back: a structured output,
   * no output (the `!output` case), or an exception carrying a message.
   */
  datatype ModelReply<T> = Output(output: T) | NoOutput | Throws(message: string)

  /**
   * How an awaited promise settles: resolved with a value, or rejected with
   * a thrown value that is either an `Error` (with its message) or anything else.
   */
  datatype Thrown = ErrorObject(message: string) | OtherValue
  datatype Settled<T> = Resolved(value: T) | Rejected(thrown: Thrown)
}
