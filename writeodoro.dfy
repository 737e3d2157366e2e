/**
 * The Write-odoro timer card (src/components/zenwrite/writeodoro.tsx): the
 * `MM:SS` readout, the length of the current interval, the progress bar, and
 * the effect that fetches a writing exercise when a break starts.
 */
module Writeodoro {
  import opened Wrappers
  import opened Types
  import opened Text
  import opened Decimal

  // ---------------------------------------------------------------------------
  // The clock readout

  /** A multiple of `b` leaves no remainder. */
  lemma MultipleHasNoRemainder(k: int, b: int)
    requires b > 0
    ensures (b * k) % b == 0
  {
    var m := b * k;
    var j := k - m / b;
    assert b * j == m % b;
  }

  /**
   * JavaScript's `a % b` for `b > 0`: the remainder takes the sign of `a`, and
   * `a` minus it is a multiple of `b`.
   */
  function JsRemainder(a: int, b: int): (r: int)
    requires b > 0
    ensures a >= 0 ==> 0 <= r < b
    ensures a < 0 ==> -b < r <= 0
    ensures (a - r) % b == 0
  {
    if a >= 0 then
      var q := a / b;
      assert a - a % b == b * q;
      MultipleHasNoRemainder(q, b);
      a % b
    else
      var q := (-a) / b;
      assert a + (-a) % b == b * -q;
      MultipleHasNoRemainder(-q, b);
      -((-a) % b)
  }

  /**
   * `formatTime`: whole minutes `Math.floor(seconds / 60)` (Dafny's `/` by a
   * positive divisor already rounds down) and the remainder `seconds % 60`,
   * each printed and padded on the left with '0' to two characters.
   */
  function FormatTime(seconds: int): string {
    PadStart2(IntToString(seconds / 60)) + ":" + PadStart2(IntToString(JsRemainder(seconds, 60)))
  }

  /** Reads a readout `M...M:SS` back to seconds; `None` for anything else. */
  function ReadClock(r: string): Option<int> {
    if |r| >= 3 && r[|r| - 3] == ':' && AllDigits(r[..|r| - 3]) && AllDigits(r[|r| - 2..]) then
      Some(Value(r[..|r| - 3]) * 60 + Value(r[|r| - 2..]))
    else None
  }

  /** For a time that is not negative both fields are plain numerals. */
  lemma FormatTimeOfNatural(seconds: nat)
    ensures FormatTime(seconds) == PadStart2(Digits(seconds / 60)) + ":" + PadStart2(Digits(seconds % 60))
  {
    assert JsRemainder(seconds, 60) == seconds % 60;
  }

  /** A readout made of a numeral, a colon and two digits reads back to minutes and seconds. */
  lemma ReadClockOfFields(m: string, s: string)
    requires AllDigits(m) && AllDigits(s) && |s| == 2
    ensures ReadClock(m + ":" + s) == Some(Value(m) * 60 + Value(s))
  {
    var r := m + ":" + s;
    assert r[..|r| - 3] == m;
    assert r[|r| - 2..] == s;
  }

  /** For every time that is not negative, the readout reads back to the same number of seconds. */
  lemma FormatTimeRoundTrip(seconds: nat)
    ensures ReadClock(FormatTime(seconds)) == Some(seconds)
  {
    PaddedDigits(seconds / 60);
    PaddedDigits(seconds % 60);
    FormatTimeOfNatural(seconds);
    ReadClockOfFields(PadStart2(Digits(seconds / 60)), PadStart2(Digits(seconds % 60)));
  }

  /** Below 100 minutes the readout is exactly five characters `MM:SS`, with seconds under 60. */
  lemma FormatTimeShape(seconds: nat)
    requires seconds < 6000
    ensures |FormatTime(seconds)| == 5 && FormatTime(seconds)[2] == ':'
    ensures AllDigits(FormatTime(seconds)[..2]) && AllDigits(FormatTime(seconds)[3..])
    ensures Value(FormatTime(seconds)[3..]) < 60
  {
    PaddedDigits(seconds / 60);
    PaddedDigits(seconds % 60);
    var r := FormatTime(seconds);
    FormatTimeOfNatural(seconds);
    assert r[..2] == PadStart2(Digits(seconds / 60));
    assert r[3..] == PadStart2(Digits(seconds % 60));
  }

  /** A negative time keeps its sign in both fields, because `%` truncates: -1 second reads "-1:-1". */
  lemma FormatTimeNegative()
    ensures FormatTime(-1) == "-1:-1"
    ensures FormatTime(-61) == "-2:-1"
  {
    assert JsRemainder(-1, 60) == -1 && JsRemainder(-61, 60) == -1;
    assert -1 / 60 == -1 && -61 / 60 == -2;
    assert IntToString(-1) == "-1" && IntToString(-2) == "-2";
  }

  // ---------------------------------------------------------------------------
  // The interval and the progress bar

  /**
   * `getIntervalDuration`: the configured length of the given interval, in
   * seconds, and positive when all three lengths are.
   */
  function IntervalDuration(config: PomodoroConfig, interval: Interval): (seconds: int)
    ensures interval == Work ==> seconds == config.workDuration
    ensures interval == ShortBreak ==> seconds == config.shortBreakDuration
    ensures interval == LongBreak ==> seconds == config.longBreakDuration
    ensures config.workDuration > 0 && config.shortBreakDuration > 0 && config.longBreakDuration > 0
      ==> seconds > 0
  {
    match interval
    case Work => config.workDuration
    case ShortBreak => config.shortBreakDuration
    case LongBreak => config.longBreakDuration
  }

  /**
   * `progressPercentage`: the share of the interval already elapsed, in percent.
   * A zero-length interval divides by zero (NaN or an infinity in the source),
   * which is `None` here.
   */
  function ProgressPercentage(config: PomodoroConfig, state: PomodoroState): (r: Option<real>)
    ensures r.Some? <==> IntervalDuration(config, state.currentInterval) != 0
    ensures var d := IntervalDuration(config, state.currentInterval);
      d > 0 && 0 <= state.timeLeft <= d ==> 0.0 <= r.value <= 100.0
    ensures var d := IntervalDuration(config, state.currentInterval);
      d != 0 ==> (state.timeLeft == d ==> r.value == 0.0) && (state.timeLeft == 0 ==> r.value == 100.0)
  {
    var d := IntervalDuration(config, state.currentInterval);
    if d == 0 then None
    else Some((d - state.timeLeft) as real / d as real * 100.0)
  }

  /** The bar only grows as the interval runs down. */
  lemma ProgressGrowsAsTimeRunsDown(config: PomodoroConfig, state: PomodoroState, later: int)
    requires IntervalDuration(config, state.currentInterval) > 0
    requires later <= state.timeLeft
    ensures ProgressPercentage(config, state).value <= ProgressPercentage(config, state.(timeLeft := later)).value
  {
    var d := IntervalDuration(config, state.currentInterval) as real;
    var a := (d - state.timeLeft as real) / d;
    var b := (d - later as real) / d;
    assert a <= b by {
      assert d - state.timeLeft as real <= d - later as real;
    }
  }

  // ---------------------------------------------------------------------------
  // Break exercises

  /** The effect asks for an exercise only in a break, and only with both settings on. */
  predicate ExerciseRequested(settings: FocusSettings, interval: Interval) {
    settings.enableContentAwareBreaks && settings.enableAiWritingExercises && interval != Work
  }

  function Min(a: int, b: int): int {
    if a <= b then a else b
  }

  /** The topic sent: the first 20 fields of `text.split(/\s+/)` joined by single spaces; `undefined` when empty. */
  function ExerciseTopic(text: string): Option<string> {
    var fields := Split(text);
    var topic := Join(fields[..Min(20, |fields|)]);
    if topic == "" then None else Some(topic)
  }

  /** The request the effect builds; the length is counted in characters. */
  function ExerciseInput(text: string): GenerateWritingExerciseInput {
    GenerateWritingExerciseInput(ExerciseTopic(text), |text|)
  }

  /**
   * The topic is left out exactly for the empty text (whitespace alone still
   * gives a topic), and otherwise splits back into the first 20 fields of the text.
   */
  lemma ExerciseTopicFields(text: string)
    ensures ExerciseTopic(text).None? <==> text == ""
    ensures ExerciseTopic(text).Some? ==>
      Split(ExerciseTopic(text).value) == Split(text)[..Min(20, |Split(text)|)]
    ensures ExerciseTopic(text).Some? ==> |Split(ExerciseTopic(text).value)| <= 20
  {
    var fields := Split(text);
    var prefix := fields[..Min(20, |fields|)];
    SplitShape(text);
    PrefixWellFormed(fields, Min(20, |fields|));
    SplitJoin(prefix);
    if Join(prefix) == "" {
      JoinEmpty(prefix);
      assert fields == [""];
      SplitEmptyOnly(text);
    }
  }

  /**
   * The exercise part of the card: the loading flag and the last exercise
   * received, updated in sequence around the awaited request.
   */
  class BreakExercise {
    var isLoadingExercise: bool
    var exercise: Option<GenerateWritingExerciseOutput>

    constructor()
      ensures !isLoadingExercise && exercise == None
    {
      isLoadingExercise := false;
      exercise := None;
    }

    /**
     * The effect up to the await. When an exercise is requested it turns on
     * loading, clears the old exercise and returns the request to send;
     * otherwise it only clears the exercise.
     */
    method BeginFetch(settings: FocusSettings, interval: Interval, text: string)
      returns (request: Option<GenerateWritingExerciseInput>)
      modifies this
      ensures request.Some? <==> ExerciseRequested(settings, interval)
      ensures request.Some? ==> request.value == ExerciseInput(text) && isLoadingExercise
      ensures request.None? ==> isLoadingExercise == old(isLoadingExercise)
      ensures exercise == None
    {
      if ExerciseRequested(settings, interval) {
        isLoadingExercise := true;
        exercise := None;
        var topic := ExerciseTopic(text);
        request := Some(GenerateWritingExerciseInput(topic, |text|));
      } else {
        exercise := None;
        request := None;
      }
    }

    /**
     * The effect after the await: a result becomes the exercise, a failure
     * leaves it as it was; loading ends either way.
     */
    method FinishFetch(outcome: Settled<GenerateWritingExerciseOutput>)
      modifies this
      ensures !isLoadingExercise
      ensures outcome.Resolved? ==> exercise == Some(outcome.value)
      ensures outcome.Rejected? ==> exercise == old(exercise)
    {
      if outcome.Resolved? {
        exercise := Some(outcome.value);
      }
      isLoadingExercise := false;
    }

    /** The card shows the exercise only during a break. */
    predicate ShowsExercise(interval: Interval)
      reads this
    {
      exercise.Some? && interval != Work
    }
  }

  /** A request followed by its answer shows that exercise for the rest of the break, with loading over. */
  method FetchDuringBreak(card: BreakExercise, settings: FocusSettings, interval: Interval, text: string,
                          answer: GenerateWritingExerciseOutput)
    returns (sent: Option<GenerateWritingExerciseInput>)
    requires ExerciseRequested(settings, interval)
    modifies card
    ensures sent == Some(ExerciseInput(text))
    ensures card.ShowsExercise(interval) && card.exercise == Some(answer) && !card.isLoadingExercise
  {
    sent := card.BeginFetch(settings, interval, text);
    card.FinishFetch(Resolved(answer));
  }
}
