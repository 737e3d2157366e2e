# FlowState core, in Dafny

FlowState is a browser writing app. It has a distraction-free editor, a
Pomodoro-style "Write-odoro" timer, XP, levels and achievement badges, goal
tracking, and a handful of AI writing tools. This project models the small
deterministic core under the React rendering and the language-model prompts,
and proves properties of it:

- **The page** (`Session.FlowStatePage`, from `src/app/page.tsx`). A class holding
  the timer state, the statistics, the badges, the text and the goals.
  - Every handler and effect is a method: start, pause, reset, skip, the
    one-second tick, `handleNextInterval`, the word-count XP effect, the level-up
    effect, the badge effect, `awardXpForAiTool`, full-screen and the goal setters.
  - Every method keeps one invariant (`Valid`). Every method also keeps
    `Progressed`: XP and level never go down, and achieved badges stay achieved.
  - Every method states the page's whole new state with respect to the old one,
    except `ElapseSecond`, which composes `Tick` and `TimerEffect` and states
    only that a running timer keeps time left.
- **Levels** (`Leveling`): the XP table and the one-step level-up rule. Repeated
  steps settle on the number of thresholds reached and never pass level 13.
- **Badges** (`BadgeConfig`, from `src/lib/badge-config.ts`): the twelve badges,
  their criteria, and the evaluation that marks achieved badges.
- **Display arithmetic**. `Writeodoro` covers the `MM:SS` readout with its
  round trip, interval lengths, the progress bar and the break-exercise effect.
  `ProgressVis` covers the goal bars, the level bar and the placeholder.
- **Input handling**. `CustomFocus` is `parseInt(value, 10)` and the goal rule.
  `AiPaceTool` is the AI-tool card: the blank-text gate and the sequence of
  state updates around the awaited action.
- **Flow post-processing**. `SuggestBreakPoint` is the 20-token short circuit.
  `ImproveWriting` holds the fallbacks and the `originalText` override.
- **Helpers**: `Text` covers JavaScript's `trim`, `split(/\s+/)`,
  `filter(Boolean)` and `join(' ')`. `Decimal` covers `toString` and
  `padStart(2, '0')`. `Types` and `Wrappers` hold the record shapes and `Option`.

Language-model calls are parameters. A `ModelReply` stands for what a prompt
call gives back (an output, no output, or an exception). A `Settled` value
stands for how an awaited action ended. An async handler is split at its
`await` into two methods, one before and one after.

Behaviour worth knowing:

- **XP for AI tools.** XP is awarded after "Improve My Writing" even when the
  model failed, because the flow returns a fallback instead of throwing
  (`Session.FlowStatePage.ImproveMyWriting`).
- **`cycleCount`.** It is never wrapped to the "current set of 4" the type's
  comment mentions. It is an unbounded counter used modulo 4.
- **Level-up.** The effect raises the level by one step per run.
  `Leveling.StepLevelsSettles` shows that repeated runs reach the deserved level.
- **The streak.** No handler changes `currentStreak`, so the three-day streak
  badge can never be earned (`Session.Attainable`).
- **The exercise topic.** It is taken from the untrimmed text, so text made only
  of whitespace still yields a (blank) topic (`Writeodoro.ExerciseTopicFields`).

## Model

| member | source | states |
|---|---|---|
| Session.CompleteInterval | src/app/page.tsx:81-129 | The new interval is running and full length. After work: cycle count, both pomodoro counters +1, XP +50, and a long break exactly when the new cycle count is a multiple of 4. After a break: work, same cycle count, statistics unchanged |
| Session.CompletionPairs | src/app/page.tsx:93-112 | Every work+break pair of completions adds exactly one cycle, one pomodoro on each counter and 50 XP, and returns to work |
| Session.EveryFourthBreakIsLong | src/app/page.tsx:99-107 | From the reset timer, the break after the k-th work interval is long iff k is a multiple of 4 |
| Session.CompletionsSplit | src/app/page.tsx:81-129 | m completions followed by n completions are m+n completions |
| Session.WordXp | src/app/page.tsx:148-152 | No XP when the word count did not grow; otherwise the largest x with 10·x at most the words gained |
| Session.WordXpSteps | src/app/page.tsx:148-152 | Counting in several steps never earns more XP than counting at once |
| Session.WordXpAfterDeletion | src/app/page.tsx:148-152 | Deleting words costs no XP; retyping them earns XP again |
| Session.DefaultIntervalDurations | src/app/page.tsx:21-26 | With the page's configuration, work lasts 25 minutes, a short break 5 and a long break 15 |
| Session.InitialBadges | src/app/page.tsx:59 | The page starts with the configured badges, in order, none achieved |
| Session.CriteriaWithoutStreakAttainable | src/lib/badge-config.ts:56-92 | With the streak at 0 (no handler sets it), only the eight attainable badges can meet their criterion |
| Session.FlowStatePage.constructor | src/app/page.tsx:48-78 | Initial page state (25-minute work interval stopped, all statistics 0, level 1, no badge, empty text, no goals) satisfies the invariant |
| Session.FlowStatePage.Start | src/app/page.tsx:213 | Only `isRunning` changes, to true; invariant kept |
| Session.FlowStatePage.Pause | src/app/page.tsx:214 | Only `isRunning` changes, to false; invariant kept |
| Session.FlowStatePage.Reset | src/app/page.tsx:215-223 | From any state the timer becomes the initial one; statistics and everything else unchanged |
| Session.FlowStatePage.NextInterval | src/app/page.tsx:81-129 | The new state is exactly `CompleteInterval` of the old timer and statistics; nothing else changes; invariant and progress kept |
| Session.FlowStatePage.Skip | src/app/page.tsx:224 | Skip is `handleNextInterval` |
| Session.FlowStatePage.Tick | src/app/page.tsx:132-136 | The countdown drops by exactly 1 only while running with time left; writing time grows by 1 only while running in work; nothing else changes |
| Session.FlowStatePage.TimerEffect | src/app/page.tsx:137-139 | A running timer at 0 completes the interval; otherwise nothing changes |
| Session.FlowStatePage.ElapseSecond | src/app/page.tsx:132-143 | After a second of a running timer and its effect the timer still runs with time left, so the countdown never goes negative; a stopped timer changes nothing |
| Session.FlowStatePage.SetText | src/app/page.tsx:145-160 | The word count becomes the number of words of the new text; XP grows by `WordXp` of the old and new counts; nothing but text, count and XP changes |
| Session.FlowStatePage.RecordWordCount | src/app/page.tsx:148-159 | Given the new text's word count, the count is stored and XP grows by `WordXp` of the old and new counts; text and everything else unchanged; invariant and progress kept |
| Session.FlowStatePage.LevelUp | src/app/page.tsx:162-176 | Level becomes `LevelStep` of level and XP; it goes up iff it is below the level the XP deserves; nothing else changes |
| Session.FlowStatePage.EvaluateBadges | src/app/page.tsx:192-207 | Badges become `Evaluate` of the old badges on the current statistics; nothing else changes; only attainable badges are ever achieved |
| Session.FlowStatePage.AwardXpForAiTool | src/app/page.tsx:209-211 | XP grows by exactly 20; nothing else changes |
| Session.FlowStatePage.ToggleFullScreen | src/app/page.tsx:229-234 | Full screen flips; entering it counts one Zen session, leaving does not |
| Session.FlowStatePage.SubmitWordGoal | src/components/zenwrite/custom-focus.tsx:25-32 | The word goal becomes the accepted value, or stays when the entry is rejected; nothing else changes |
| Session.FlowStatePage.SubmitTimeGoal | src/components/zenwrite/custom-focus.tsx:34-41 | The time goal, under the same rule |
| Session.FlowStatePage.UseAiTool | src/components/zenwrite/ai-pace-tool.tsx:41-78 | The statistics change only in XP, which grows by 20 exactly when the text is not refused and the action resolved; nothing else of the page changes; the card then shows the result |
| Session.FlowStatePage.ImproveMyWriting | src/components/zenwrite/ai-pace-tool.tsx:104-110 | On non-blank text XP grows by 20 whatever the model did, and the dialog's original text is the page's text before the call; blank text earns nothing; nothing else of the page changes |
| Session.FlowStatePage.SuggestBreak | src/components/zenwrite/ai-pace-tool.tsx:88-94 | XP grows by 20 unless the text is blank or it has at least 20 words and the model call threw; nothing else of the page changes; a resolved flow on non-blank text is shown in the dialog |
| Session.LevelUpsSettle | src/app/page.tsx:162-176 | From any reachable level, 12 runs of the level-up effect reach the deserved level, which is at most 13 |
| Session.NewIntervalProgressZero | src/components/zenwrite/writeodoro.tsx:61 | A freshly started interval shows 0 % progress |
| Leveling.CountReached | src/app/page.tsx:44 | The number of thresholds reached is at most the table's length |
| Leveling.LevelFor | src/app/page.tsx:44 | The level the XP deserves: the number of thresholds reached; `LevelForBounds`, `LevelForMonotone` and `LevelEarnedIffAtMostLevelFor` state its properties |
| Leveling.LevelStep | src/app/page.tsx:164-168 | The level stays or rises by exactly one; it rises iff 0 < level < 13 and the XP has reached the next threshold |
| Leveling.ThresholdsIncrease | src/app/page.tsx:44 | The thresholds are strictly increasing |
| Leveling.ReachedArePrefix | src/app/page.tsx:44 | In an increasing table the thresholds reached are exactly those below the count reached |
| Leveling.LevelForBounds | src/app/page.tsx:44 | Non-negative XP deserves a level between 1 and 13 |
| Leveling.LevelForMonotone | src/app/page.tsx:44 | More XP never deserves a lower level |
| Leveling.LevelStepTowardsLevelFor | src/app/page.tsx:162-176 | One step from a reachable level rises iff the level is below the deserved level |
| Leveling.LevelEarnedIffAtMostLevelFor | src/app/page.tsx:44 | XP has reached a level's threshold iff the level is between 1 and the deserved level |
| Leveling.LevelStepBounded | src/app/page.tsx:164-168 | A step never goes past 13 or past the deserved level |
| Leveling.StepLevelsSettles | src/app/page.tsx:162-176 | Enough steps reach the deserved level and stay there |
| Leveling.SettlesFromLevelOne | src/app/page.tsx:61-70 | From the initial level 1, 12 steps reach the deserved level |
| Leveling.LevelForExample | src/app/page.tsx:44 | 250 XP deserves level 3 |
| BadgeConfig.Evaluate | src/app/page.tsx:193-203 | Same length, same badges apart from the flag; a badge is achieved afterwards iff it was achieved or its criterion holds |
| BadgeConfig.NewlyAchieved | src/app/page.tsx:194-200 | Exactly the unachieved badges whose criterion holds |
| BadgeConfig.Criteria | src/lib/badge-config.ts:11-110 | The `criteria` of each badge; `PlaceholdersNeverAchieved` and `CriteriaImplications` state what follows from them |
| BadgeConfig.ConfigIdsDistinct | src/lib/badge-config.ts:5-114 | Twelve badges with pairwise distinct ids, as constructors and as strings |
| BadgeConfig.ConfigIdsInOrder | src/lib/badge-config.ts:5-114 | The configuration lists the twelve ids in the order of the file |
| BadgeConfig.IdNamesDiffer | src/lib/badge-config.ts:7-106 | Different badges have different id strings |
| BadgeConfig.EvaluateMonotone | src/app/page.tsx:193-203 | An achieved badge stays achieved |
| BadgeConfig.EvaluateIdempotent | src/app/page.tsx:192-207 | A second evaluation on the same statistics changes nothing |
| BadgeConfig.EvaluateChangesIffNewlyAchieved | src/app/page.tsx:204-206 | The list changes (so the state is set) iff some badge is newly achieved |
| BadgeConfig.PlaceholdersNeverAchieved | src/lib/badge-config.ts:52-92 | Sprint Star, Night Owl and Target Acquired are never achieved |
| BadgeConfig.CriteriaImplications | src/lib/badge-config.ts:11-110 | 1,000 words implies 100 words; Pomodoro Pro implies Focus Initiate; level 10 implies level 5 |
| Writeodoro.JsRemainder | src/components/zenwrite/writeodoro.tsx:28 | `%` keeps the dividend's sign: in [0, 60) for non-negative seconds, in (-60, 0] for negative ones; the seconds minus it are a multiple of the divisor |
| Writeodoro.FormatTime | src/components/zenwrite/writeodoro.tsx:26-30 | The `MM:SS` readout; `FormatTimeRoundTrip`, `FormatTimeShape` and `FormatTimeNegative` state what it shows |
| Writeodoro.FormatTimeRoundTrip | src/components/zenwrite/writeodoro.tsx:26-30 | Reading the readout back gives the seconds, for every non-negative time |
| Writeodoro.FormatTimeShape | src/components/zenwrite/writeodoro.tsx:26-30 | Below 6,000 seconds the readout is five characters, two digits, a colon, two digits with seconds under 60 |
| Writeodoro.FormatTimeNegative | src/components/zenwrite/writeodoro.tsx:26-30 | Negative times print a sign in both fields |
| Writeodoro.IntervalDuration | src/components/zenwrite/writeodoro.tsx:48-59 | Work gives the work length, a short break the short-break length and a long break the long-break length; positive when all three are |
| Writeodoro.ProgressPercentage | src/components/zenwrite/writeodoro.tsx:48-61 | Defined iff the interval's length is not 0; within [0, 100] while the time left is within the interval; 0 at the start and 100 at the end |
| Writeodoro.ProgressGrowsAsTimeRunsDown | src/components/zenwrite/writeodoro.tsx:61 | Less time left never shows less progress |
| Writeodoro.ExerciseRequested | src/components/zenwrite/writeodoro.tsx:73 | An exercise is requested only in a break with both settings on; `BeginFetch` states what the request does |
| Writeodoro.ExerciseTopic | src/components/zenwrite/writeodoro.tsx:78 | The topic is the first 20 fields joined; `ExerciseTopicFields` states when it is missing and what it splits into |
| Writeodoro.ExerciseInput | src/components/zenwrite/writeodoro.tsx:79 | The request carries the topic and the length of the text |
| Writeodoro.ExerciseTopicFields | src/components/zenwrite/writeodoro.tsx:78-79 | The topic is missing iff the text is empty; otherwise it splits back into the first (at most 20) fields of the text |
| Writeodoro.BreakExercise.constructor | src/components/zenwrite/writeodoro.tsx:44-45 | No exercise and not loading |
| Writeodoro.BreakExercise.BeginFetch | src/components/zenwrite/writeodoro.tsx:71-98 | A request is made iff both settings are on and it is a break; it carries the topic and the text length and starts loading; the old exercise is always cleared |
| Writeodoro.BreakExercise.FinishFetch | src/components/zenwrite/writeodoro.tsx:80-91 | A result becomes the exercise, a failure keeps the old one; loading ends either way |
| Writeodoro.BreakExercise.ShowsExercise | src/components/zenwrite/writeodoro.tsx:121 | The exercise is shown only when there is one and the timer is in a break; `FetchDuringBreak` shows when it holds |
| Writeodoro.FetchDuringBreak | src/components/zenwrite/writeodoro.tsx:71-98 | A request and its answer during a break show that exercise, with loading over |
| ProgressVis.GoalProgress | src/components/zenwrite/progress-vis.tsx:23-25 | Within [0, 100]; 0 without a goal; 100 iff the goal is met; below the goal, exactly done/goal·100 |
| ProgressVis.WordProgress | src/components/zenwrite/progress-vis.tsx:23 | The word bar is `GoalProgress` of the word count against the word goal |
| ProgressVis.TimeProgress | src/components/zenwrite/progress-vis.tsx:24-25 | The time bar is `GoalProgress` of the seconds written against the goal's minutes × 60; `TimeGoalMet` says when it is full |
| ProgressVis.GoalProgressMonotone | src/components/zenwrite/progress-vis.tsx:23-25 | More done never shows less progress |
| ProgressVis.TimeGoalMet | src/components/zenwrite/progress-vis.tsx:24-25 | The time bar is full iff the seconds written reach the goal's minutes × 60 |
| ProgressVis.WrittenMinutes | src/components/zenwrite/progress-vis.tsx:95 | The whole minutes in the seconds written, rounded down |
| ProgressVis.LevelStart | src/components/zenwrite/progress-vis.tsx:28 | The current level's threshold; `undefined` iff the level is past 13 |
| ProgressVis.LevelNext | src/components/zenwrite/progress-vis.tsx:29 | The next threshold exists iff 0 ≤ level < 13, and then it is `LEVEL_XP_THRESHOLDS[level]` |
| ProgressVis.LevelXpProgress | src/components/zenwrite/progress-vis.tsx:31-33 | Never above 100; 0 when there is no next threshold |
| ProgressVis.NextLevelBarLevels | src/components/zenwrite/progress-vis.tsx:59 | The next-level bar shows iff 0 ≤ level < 13 |
| ProgressVis.ShowsNextLevelBar | src/components/zenwrite/progress-vis.tsx:59 | The guard of the next-level bar; `NextLevelBarLevels` reduces it to 0 ≤ level < 13 |
| ProgressVis.LevelXpProgressOfEarnedLevel | src/components/zenwrite/progress-vis.tsx:31-33 | On a reachable level the bar is never negative, and it is full iff the level-up effect would raise the level |
| ProgressVis.PlaceholderOnlyAtTopLevel | src/components/zenwrite/progress-vis.tsx:110 | Without goals, on a reachable level, the placeholder shows iff the level is 13 |
| ProgressVis.ShowsPlaceholder | src/components/zenwrite/progress-vis.tsx:110 | The guard of the placeholder; `PlaceholderOnlyAtTopLevel` reduces it to level 13 without goals |
| CustomFocus.LeadingDigits | src/components/zenwrite/custom-focus.tsx:28 | The longest run of digits at the start of the string |
| CustomFocus.ParseInt | src/components/zenwrite/custom-focus.tsx:28 | `parseInt(value, 10)`; `ParseIntReadsLeadingNumeral` and `ParseIntNaN` state what it reads |
| CustomFocus.AcceptedGoal | src/components/zenwrite/custom-focus.tsx:28-31 | A goal is passed on iff `parseInt` gives a number ≥ 0, and it is that number |
| CustomFocus.ParseIntReadsLeadingNumeral | src/components/zenwrite/custom-focus.tsx:28 | After whitespace and an optional sign, `parseInt` reads the digits up to the first non-digit, negated after '-' |
| CustomFocus.ParseIntNaN | src/components/zenwrite/custom-focus.tsx:28-29 | Without a digit right after the whitespace and the optional sign (a sign followed by whitespace included), the result is NaN and no goal is set |
| CustomFocus.ParseIntAtStart | src/components/zenwrite/custom-focus.tsx:28 | Without leading whitespace, `parseInt` is the signed-numeral reading |
| CustomFocus.AcceptsDigits | src/components/zenwrite/custom-focus.tsx:28-31 | A run of digits followed by anything but a digit is applied as its value |
| CustomFocus.RejectsMinusDigits | src/components/zenwrite/custom-focus.tsx:29-31 | '-' followed by digits is ignored unless their value is 0, which is applied as 0 |
| CustomFocus.AcceptsNumeral | src/components/zenwrite/custom-focus.tsx:28-31 | Any non-negative numeral, followed by anything but a digit, is applied as its value |
| CustomFocus.RejectsNegative | src/components/zenwrite/custom-focus.tsx:29-31 | A negative numeral is ignored; "-0" is applied as 0 |
| AiPaceTool.LowerAscii | src/components/zenwrite/ai-pace-tool.tsx:69 | `toLowerCase` on ASCII: same length, each letter lowered |
| AiPaceTool.Title | src/components/zenwrite/ai-pace-tool.tsx:83-107 | The title each of the four handlers passes |
| AiPaceTool.ErrorMessage | src/components/zenwrite/ai-pace-tool.tsx:69 | An `Error`'s own message, or the fixed sentence naming the tool in lower case |
| AiPaceTool.Refused | src/components/zenwrite/ai-pace-tool.tsx:46-55 | The early return; `RefusedIffBlank` states it in terms of words |
| AiPaceTool.PaceTool.constructor | src/components/zenwrite/ai-pace-tool.tsx:34-38 | Not loading, no content, no error, dialog closed, empty title |
| AiPaceTool.PaceTool.Begin | src/components/zenwrite/ai-pace-tool.tsx:46-61 | Proceeds iff the request is not refused; a refused request changes nothing; otherwise loading, no error, no content, the tool's title, dialog open |
| AiPaceTool.PaceTool.Resolve | src/components/zenwrite/ai-pace-tool.tsx:63-77 | Success iff resolved; resolved shows the data under the tool's tag; rejected sets the error message; loading ends either way |
| AiPaceTool.PaceTool.CloseDialog | src/components/zenwrite/ai-pace-tool.tsx:220 | Only the dialog closes |
| AiPaceTool.HandleAiAction | src/components/zenwrite/ai-pace-tool.tsx:41-78 | Success iff not refused and resolved; refused leaves the card as it was; otherwise the dialog is open under the title, loading is over, and it holds either the result and no error or the error and no result |
| AiPaceTool.RefusedIffBlank | src/components/zenwrite/ai-pace-tool.tsx:46-47 | A request is refused iff the tool is not the stuck-point activity and the text has no words |
| SuggestBreakPoint.SuggestBreakPointFlow | src/ai/flows/suggest-break-point.ts:55-73 | Under 20 fields: the fixed short-text answer; rejected iff the model is consulted and throws; no output gives the fixed no-output answer; a good break point only from the model's own output; an output is passed on unchanged |
| SuggestBreakPoint.FallbacksDiffer | src/ai/flows/suggest-break-point.ts:57-71 | The short-text answer and the no-output answer differ |
| SuggestBreakPoint.ConsultsModelIffTwentyWords | src/ai/flows/suggest-break-point.ts:57 | The 20-field test is "at least 20 words" |
| SuggestBreakPoint.ShortTextIgnoresModel | src/ai/flows/suggest-break-point.ts:57-62 | Below 20 words the reply plays no part; the answer is "not a good break point" with no suggested action |
| SuggestBreakPoint.BlankTextShortCircuits | src/ai/flows/suggest-break-point.ts:57-62 | Blank text always gets the short-text answer |
| ImproveWriting.ImproveWritingFlow | src/ai/flows/improve-writing-flow.ts:62-83 | The original text is always the caller's; the model's improved text and suggestions are kept; each fallback has one suggestion; the flow never fails |
| ImproveWriting.FallbacksDistinct | src/ai/flows/improve-writing-flow.ts:65-82 | The no-output and the exception fallbacks differ, and the exception's message plays no part |
| ImproveWriting.ModelOriginalIgnored | src/ai/flows/improve-writing-flow.ts:74 | The model's own `originalText` is discarded |
| Text.TrimStart | src/app/page.tsx:146 | The suffix left after the leading whitespace; it starts with a non-space |
| Text.TrimEnd | src/app/page.tsx:146 | The prefix left before the trailing whitespace; it ends with a non-space |
| Text.Trim | src/app/page.tsx:146 | Neither end is whitespace |
| Text.Split | src/app/page.tsx:146 | `split` never returns an empty array: there is at least one field |
| Text.SplitShape | src/app/page.tsx:146 | No field holds whitespace; only the first and last can be empty, and they are exactly when the text starts or ends with whitespace |
| Text.TrimStartDropsSpaces | src/app/page.tsx:146 | What `trimStart` removes is whitespace only |
| Text.TrimEndDropsSpaces | src/app/page.tsx:146 | What `trimEnd` removes is whitespace only |
| Text.NonEmpty | src/app/page.tsx:146 | Never more fields than the input; what is kept, and in which order, is stated by the lemmas below |
| Text.NonEmptyAppend | src/app/page.tsx:146 | Filtering a concatenation filters each part, so the kept fields keep their order |
| Text.NonEmptyCount | src/app/page.tsx:146 | The kept fields and the empty fields of the input add up to the input, so only empty fields are dropped |
| Text.NonEmptyFields | src/app/page.tsx:146 | Only non-empty fields of the input are kept |
| Text.WordCountIsWordStarts | src/app/page.tsx:146-147 | The page's word count equals the number of non-space characters that start the text or follow whitespace |
| Text.TrimmedFieldCount | src/ai/flows/suggest-break-point.ts:57 | The trimmed text splits into one field when blank, else into exactly its words |
| Text.BlankTextHasNoWords | src/app/page.tsx:146 | Blank text has no words |
| Text.BlankIffNoWords | src/components/zenwrite/ai-pace-tool.tsx:46-47 | Text is blank after trimming iff it has no words |
| Text.Words | src/app/page.tsx:146 | The words of the text, `text.trim().split(/\s+/).filter(Boolean)`; `WordCountIsWordStarts` counts them independently |
| Text.WordCount | src/app/page.tsx:147 | The number of words; equal to the number of word starts by `WordCountIsWordStarts` |
| Text.Join | src/components/zenwrite/writeodoro.tsx:78 | `join(' ')`; `SplitJoin` and `JoinSplit` relate it to `split` |
| Text.SplitJoin | src/components/zenwrite/writeodoro.tsx:78 | Splitting joined fields gives the fields back, for any fields `split` can produce |
| Text.JoinEmpty | src/components/zenwrite/writeodoro.tsx:78 | Fields join to "" only when they are the single empty field |
| Text.SplitEmptyOnly | src/components/zenwrite/writeodoro.tsx:78 | Only "" splits to the single empty field |
| Text.JoinSplit | src/app/page.tsx:146 | The fields joined with single spaces give the text with each whitespace run collapsed to one space |
| Text.SplitOfCollapsed | src/app/page.tsx:146 | Splitting depends only on the collapsed text: the fields are the maximal runs of non-space characters |
| Decimal.Digits | src/components/zenwrite/writeodoro.tsx:29 | At least one digit, and no leading zero |
| Decimal.PadStart2 | src/components/zenwrite/writeodoro.tsx:29 | A string of two or more characters comes back unchanged; a shorter one gets '0' on the left up to two characters |
| Decimal.ValueOfDigits | src/components/zenwrite/writeodoro.tsx:29 | The printed numeral reads back to the number |
| Decimal.PaddedDigits | src/components/zenwrite/writeodoro.tsx:29 | The padded numeral reads back to the number |

## Left out

- React scheduling is not modelled: `setInterval`/`clearInterval`, timer refs, effect dependencies, batching and strict-mode double calls. Each effect is a method the caller runs after the change that triggers it.
- The second-by-second timer is not modelled as time. `Tick` is one second of both timers, and `TimerEffect` is the transition at 0.
- Toasts, `console` logging, the dynamic lighting (it reads the wall clock and changes DOM classes) and all rendering are left out.
- The disabled state of buttons and of the editor, and the loading spinners, are left out: they are UI and change no modelled state.
- The settings and typography merges (src/app/page.tsx:236-242) are left out: object spreads with no logic.
- The prompts of the language-model flows are abstract replies. The pace-analysis, stuck-activity and exercise flows are not modelled beyond what the card does with their result, since they only add a fixed fallback to a prompt.
- Session.FlowStatePage.SetText: `Math.floor(delta * 0.1)` is modelled as `delta / 10`; the two agree for word deltas of any realistic size.
- Session.FlowStatePage.ElapseSecond: states only that a running timer never shows 0 after the second; the full new state is given by `Tick` and `TimerEffect`.
- Session.FlowStatePage.UseAiTool: the dialog content is stated only for a resolved, accepted request; the rest of the card's state is stated by `AiPaceTool.HandleAiAction`.
- Session.FlowStatePage.SuggestBreak: states the card's dialog content only for a resolved flow on non-blank text; the card's error and loading flags are stated by `AiPaceTool.HandleAiAction`.
- Text.NonEmpty: its own contract bounds the length only; which fields are kept and in which order is stated by `NonEmptyAppend`, `NonEmptyCount`, `NonEmptyFields` and `NonEmptyIdentity`.
- Writeodoro.ExerciseInput: `textLength` counts characters (code points), while JavaScript's `length` counts UTF-16 code units.
- Writeodoro.FormatTime: `toString` of very large numbers (exponent notation) is not modelled; integers print as plain digits.
- CustomFocus.AcceptedGoal: `parseInt` of a numeral too long for a double gives a rounded value in JavaScript, and `Infinity` above about 1.8e308, which passes the `goal >= 0` test and becomes the goal; here the value is always the exact finite number. "-0" is modelled as 0, not as negative zero.
- AiPaceTool.LowerAscii: `toLowerCase` is modelled for ASCII letters only, which covers the four titles.
- ProgressVis.GoalProgress and ProgressVis.LevelXpProgress: percentages are exact reals, not doubles; `toFixed` rounding in labels is left out.
- The writing-time timer counts a second only while the timer runs in work, as `Tick` states; it does not depend on the wall clock.
