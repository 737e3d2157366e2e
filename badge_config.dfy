/**
 * Achievements (src/lib/badge-config.ts): twelve badges, each with a fixed
 * criterion over the statistics, and the evaluation page.tsx runs after every
 * statistics change, which marks achieved every not-yet-achieved badge whose
 * criterion now holds and never un-marks one.
 */
module BadgeConfig {
  import opened Types

  /** The badge ids of `BADGES_CONFIG`, in its order. */
  datatype BadgeId =
    | FirstWords | NovelistStart | FirstPomodoro | PomodoroPro | ZenSeeker | WordSprint500
    | DailyWriter | Streak3Days | NightOwl | GoalGetterWords | Level5Adept | Level10Veteran

  /** A badge as the page holds it; icons and colours are left out. */
  datatype Badge = Badge(id: BadgeId, name: string, description: string, achieved: bool)

  /** The `id` string each badge carries. */
  function IdName(id: BadgeId): string {
    match id
    case FirstWords => "first_words"
    case NovelistStart => "novelist_start"
    case FirstPomodoro => "first_pomodoro"
    case PomodoroPro => "pomodoro_pro"
    case ZenSeeker => "zen_seeker"
    case WordSprint500 => "word_sprint_500"
    case DailyWriter => "daily_writer"
    case Streak3Days => "streak_3_days"
    case NightOwl => "night_owl"
    case GoalGetterWords => "goal_getter_words"
    case Level5Adept => "level_5_adept"
    case Level10Veteran => "level_10_veteran"
  }

  /** The `criteria` function of each badge. Three are placeholders that are constantly false. */
  predicate Criteria(id: BadgeId, stats: AppStats) {
    match id
    case FirstWords => stats.wordCount >= 100
    case NovelistStart => stats.wordCount >= 1000
    case FirstPomodoro => stats.pomodorosCompletedThisSession >= 1 || stats.totalPomodorosCompleted >= 1
    case PomodoroPro => stats.pomodorosCompletedThisSession >= 5
    case ZenSeeker => stats.zenSessions >= 1
    case WordSprint500 => false
    case DailyWriter => stats.writingTimeToday > 0
    case Streak3Days => stats.currentStreak >= 3
    case NightOwl => false
    case GoalGetterWords => false
    case Level5Adept => stats.level >= 5
    case Level10Veteran => stats.level >= 10
  }

  /** `BADGES_CONFIG`. Its entries carry no `achieved` flag; here it is `false`. */
  const Config: seq<Badge> := [
    Badge(FirstWords, "Word Weaver", "Wrote your first 100 words. Welcome!", false),
    Badge(NovelistStart, "Budding Author", "Reached 1,000 words. Keep it up!", false),
    Badge(FirstPomodoro, "Focus Initiate", "Completed your first Pomodoro session.", false),
    Badge(PomodoroPro, "Pomodoro Pro", "Completed 5 Pomodoro work sessions in one sitting.", false),
    Badge(ZenSeeker, "Zen Seeker", "Used Zen Mode for a focused session.", false),
    Badge(WordSprint500, "Sprint Star", "Wrote 500 words in a single session/Pomodoro.", false),
    Badge(DailyWriter, "Daily Dabbler", "Wrote something today!", false),
    Badge(Streak3Days, "Consistent Quill", "Maintained a 3-day writing streak.", false),
    Badge(NightOwl, "Night Owl", "Completed a writing session after midnight.", false),
    Badge(GoalGetterWords, "Target Acquired", "Achieved a word count goal.", false),
    Badge(Level5Adept, "Adept Writer", "Reached Level 5! Your skills are growing.", false),
    Badge(Level10Veteran, "Veteran Wordsmith", "Reached Level 10! Truly dedicated.", false)
  ]

  /** The ids of `BADGES_CONFIG`, in its order. */
  const ConfigIds: seq<BadgeId> := [
    FirstWords, NovelistStart, FirstPomodoro, PomodoroPro, ZenSeeker, WordSprint500,
    DailyWriter, Streak3Days, NightOwl, GoalGetterWords, Level5Adept, Level10Veteran
  ]

  /** The ids of a badge list, in its order. */
  function Ids(badges: seq<Badge>): (ids: seq<BadgeId>)
    ensures |ids| == |badges|
    ensures forall i :: 0 <= i < |badges| ==> ids[i] == badges[i].id
  {
    seq(|badges|, i requires 0 <= i < |badges| => badges[i].id)
  }

  /** The badge list with the `achieved` flags dropped: what evaluation must preserve. */
  function Skeleton(badges: seq<Badge>): seq<Badge> {
    seq(|badges|, i requires 0 <= i < |badges| => badges[i].(achieved := false))
  }

  /**
   * One run of the badge effect: `badges.map(...)` marks achieved every badge
   * that was not achieved and whose criterion holds on `stats`.
   */
  function Evaluate(badges: seq<Badge>, stats: AppStats): (r: seq<Badge>)
    ensures |r| == |badges|
    ensures Skeleton(r) == Skeleton(badges)
    ensures forall i :: 0 <= i < |r| ==>
      (r[i].achieved <==> badges[i].achieved || Criteria(badges[i].id, stats))
  {
    seq(|badges|, i requires 0 <= i < |badges| =>
      if !badges[i].achieved && Criteria(badges[i].id, stats) then badges[i].(achieved := true)
      else badges[i])
  }

  /** The badges an evaluation newly marks: exactly the unachieved ones whose criterion holds. */
  function NewlyAchieved(badges: seq<Badge>, stats: AppStats): (ids: seq<BadgeId>)
    ensures forall id :: id in ids <==>
      exists i :: 0 <= i < |badges| && badges[i].id == id && !badges[i].achieved && Criteria(id, stats)
  {
    if badges == [] then []
    else
      (if !badges[0].achieved && Criteria(badges[0].id, stats) then [badges[0].id] else [])
      + NewlyAchieved(badges[1..], stats)
  }

  /** The twelve ids are pairwise distinct, as strings too. */
  lemma ConfigIdsDistinct()
    ensures |Config| == 12
    ensures forall i, j :: 0 <= i < j < |Config| ==> Config[i].id != Config[j].id
    ensures forall i, j :: 0 <= i < j < |Config| ==> IdName(Config[i].id) != IdName(Config[j].id)
  {
    ConfigIdsInOrder();
    assert |Config| == |Ids(Config)|;
    forall i, j | 0 <= i < j < |Config|
      ensures Config[i].id != Config[j].id
      ensures IdName(Config[i].id) != IdName(Config[j].id)
    {
      assert Config[i].id == ConfigIds[i] && Config[j].id == ConfigIds[j];
      IdNamesDiffer(ConfigIds[i], ConfigIds[j]);
    }
  }

  /** Different badges have different id strings. */
  lemma IdNamesDiffer(a: BadgeId, b: BadgeId)
    requires a != b
    ensures IdName(a) != IdName(b)
  {
  }

  /** The configuration lists its ids in the order of `ConfigIds`. */
  lemma ConfigIdsInOrder()
    ensures Ids(Config) == ConfigIds
  {
  }

  /** Lists that agree apart from the `achieved` flags have the same ids. */
  lemma SkeletonKeepsIds(a: seq<Badge>, b: seq<Badge>)
    requires Skeleton(a) == Skeleton(b)
    ensures Ids(a) == Ids(b)
  {
    assert |a| == |Skeleton(a)|;
    forall i | 0 <= i < |a|
      ensures a[i].id == b[i].id
    {
      assert Skeleton(a)[i].id == Skeleton(b)[i].id;
    }
  }

  /** Achieved badges stay achieved. */
  lemma EvaluateMonotone(badges: seq<Badge>, stats: AppStats, i: nat)
    requires i < |badges| && badges[i].achieved
    ensures Evaluate(badges, stats)[i].achieved
  {
  }

  /** Evaluating twice against the same statistics changes nothing more. */
  lemma EvaluateIdempotent(badges: seq<Badge>, stats: AppStats)
    ensures Evaluate(Evaluate(badges, stats), stats) == Evaluate(badges, stats)
  {
    var once := Evaluate(badges, stats);
    var twice := Evaluate(once, stats);
    forall i | 0 <= i < |badges|
      ensures twice[i] == once[i]
    {
      assert Skeleton(twice)[i] == Skeleton(once)[i];
    }
  }

  /** Evaluation changes the list exactly when some badge is newly achieved. */
  lemma EvaluateChangesIffNewlyAchieved(badges: seq<Badge>, stats: AppStats)
    ensures Evaluate(badges, stats) != badges <==> NewlyAchieved(badges, stats) != []
  {
    var r := Evaluate(badges, stats);
    var ids := NewlyAchieved(badges, stats);
    if ids != [] {
      var id := ids[0];
      assert id in ids;
      var i :| 0 <= i < |badges| && badges[i].id == id && !badges[i].achieved && Criteria(id, stats);
      assert r[i].achieved != badges[i].achieved;
    }
    if r != badges {
      assert |r| == |badges|;
      var i :| 0 <= i < |badges| && r[i] != badges[i];
      assert Skeleton(r)[i] == Skeleton(badges)[i];
      assert r[i].achieved != badges[i].achieved;
      assert badges[i].id in ids;
    }
  }

  /** Three placeholder badges can never be earned. */
  lemma PlaceholdersNeverAchieved(badges: seq<Badge>, stats: AppStats, i: nat)
    requires i < |badges| && !badges[i].achieved
    requires badges[i].id in {WordSprint500, NightOwl, GoalGetterWords}
    ensures !Evaluate(badges, stats)[i].achieved
  {
  }

  /** The stronger badge of each pair implies the weaker one. */
  lemma CriteriaImplications(stats: AppStats)
    ensures Criteria(NovelistStart, stats) ==> Criteria(FirstWords, stats)
    ensures Criteria(PomodoroPro, stats) ==> Criteria(FirstPomodoro, stats)
    ensures Criteria(Level10Veteran, stats) ==> Criteria(Level5Adept, stats)
  {
  }
}
