/** Android's user store: one user record, updated in place by the scoring rules. */
module UserRepository {
  import opened Wrappers
  import opened Domain
  import opened ScoreRules

  /** The respect level the Android client resets to. */
  const AndroidResetBaseline: int := 50

  /** Android's user record (the fields UserRepository.kt reads and writes). */
  datatype User = User(
    id: int,
    username: string,
    respectLevel: int,
    streak: int,
    bestStreak: int,
    lastCompletedDate: Option<Day>,
    aiPersonality: Personality)

  /** A new user: respect 50, no streak, balanced personality. It is a consistent user whose
      respect sits in the medium tier, and its respect is the value a reset returns to. */
  function DefaultUser(id: int, username: string): (u: User)
    ensures u.respectLevel == AndroidResetBaseline == 50
    ensures u.id == id && u.username == username && u.aiPersonality == Balanced
    ensures StreakOf(u) == StreakState(0, 0, None)
    ensures ValidUser(u) && TierOf(u.respectLevel) == MediumRespect
  {
    User(id, username, 50, 0, 0, None, Balanced)
  }

  function StreakOf(u: User): StreakState {
    StreakState(u.streak, u.bestStreak, u.lastCompletedDate)
  }

  /** A consistent user: respect in [0, 100] and the streak invariant. */
  ghost predicate ValidUser(u: User) {
    0 <= u.respectLevel <= 100 && StreakInvariant(StreakOf(u))
  }

  /** Android's `isYesterday`: the date equals `today.minusDays(1)`. */
  predicate IsYesterdayAndroid(date: Day, today: Day)
    ensures IsYesterdayAndroid(date, today) <==> IsYesterday(date, today)
  {
    var yesterday := today - 1;
    date == yesterday
  }

  /** The `update` lambda of `updateStreakIfNeeded`, with its branches in Android's order
      (no date, yesterday, same day, otherwise). It computes the shared streak rule and
      touches nothing but the streak fields. */
  function UpdateStreakIfNeeded(u: User, today: Day): (u': User)
    ensures StreakOf(u') == NextStreak(StreakOf(u), today)
    ensures u'.id == u.id && u'.username == u.username
    ensures u'.respectLevel == u.respectLevel && u'.aiPersonality == u.aiPersonality
  {
    if u.lastCompletedDate.None? then
      u.(lastCompletedDate := Some(today), streak := 1)
    else if IsYesterdayAndroid(u.lastCompletedDate.value, today) then
      var newStreak := u.streak + 1;
      var bestStreak := if u.bestStreak >= newStreak then u.bestStreak else newStreak;
      u.(lastCompletedDate := Some(today), streak := newStreak, bestStreak := bestStreak)
    else if u.lastCompletedDate.value == today then
      u
    else
      u.(lastCompletedDate := Some(today), streak := 1)
  }

  /** The record written by a reset to `baseline`: streaks cleared, personality and identity kept. */
  function ResetUser(u: User, baseline: int): (u': User)
    ensures u'.respectLevel == baseline
    ensures StreakOf(u') == StreakState(0, 0, None)
    ensures u'.id == u.id && u'.username == u.username && u'.aiPersonality == u.aiPersonality
  {
    u.(respectLevel := baseline, streak := 0, bestStreak := 0, lastCompletedDate := None)
  }

  /** A reset to a baseline in [0, 100] yields a consistent user. */
  lemma ResetIsValid(u: User, baseline: int)
    requires 0 <= baseline <= 100
    ensures ValidUser(ResetUser(u, baseline))
  {
  }

  class UserRepository {
    var user: User

    ghost predicate Valid()
      reads this
    {
      ValidUser(user)
    }

    constructor (id: int, username: string)
      ensures user == DefaultUser(id, username) && Valid()
    {
      user := DefaultUser(id, username);
    }

    /** Changes only the personality. */
    method UpdateAIPersonality(personality: Personality)
      requires Valid()
      modifies this
      ensures Valid()
      ensures user == old(user).(aiPersonality := personality)
    {
      user := user.(aiPersonality := personality);
    }

    /** Raises respect by the completion rule, then advances the streak for `today`;
        returns the new respect level. */
    method IncreaseRespectForTaskCompletion(today: Day) returns (newRespectLevel: int)
      requires Valid()
      modifies this
      ensures Valid()
      ensures newRespectLevel == ApplyCompletion(old(user).respectLevel) == user.respectLevel
      ensures old(user.respectLevel) <= newRespectLevel
      ensures user == UpdateStreakIfNeeded(old(user).(respectLevel := newRespectLevel), today)
      ensures StreakOf(user) == NextStreak(StreakOf(old(user)), today)
    {
      newRespectLevel := ApplyCompletion(user.respectLevel);
      user := user.(respectLevel := newRespectLevel);
      UpdateStreak(today);
    }

    /** Lowers respect by the un-completion rule; the streak fields are untouched. */
    method DecreaseRespectForTaskUncompletion() returns (newRespectLevel: int)
      requires Valid()
      modifies this
      ensures Valid()
      ensures newRespectLevel == ApplyUncompletion(old(user).respectLevel) <= old(user).respectLevel
      ensures user == old(user).(respectLevel := newRespectLevel)
    {
      newRespectLevel := ApplyUncompletion(user.respectLevel);
      user := user.(respectLevel := newRespectLevel);
    }

    /** Lowers respect by the deletion rule; the streak fields are untouched. */
    method DecreaseRespectForTaskDeletion() returns (newRespectLevel: int)
      requires Valid()
      modifies this
      ensures Valid()
      ensures newRespectLevel == ApplyIncompleteDeletion(old(user).respectLevel) <= old(user).respectLevel
      ensures user == old(user).(respectLevel := newRespectLevel)
    {
      newRespectLevel := ApplyIncompleteDeletion(user.respectLevel);
      user := user.(respectLevel := newRespectLevel);
    }

    /** Resets respect to 50 and clears the streak fields, keeping the personality. */
    method ResetProgress()
      requires Valid()
      modifies this
      ensures Valid()
      ensures user == ResetUser(old(user), AndroidResetBaseline)
    {
      user := ResetUser(user, AndroidResetBaseline);
    }

    /** `updateStreakIfNeeded`: applies the streak rule for `today` (the value `LocalDate.now()` returned). */
    method UpdateStreak(today: Day)
      requires Valid()
      modifies this
      ensures Valid()
      ensures user == UpdateStreakIfNeeded(old(user), today)
    {
      NextStreakKeepsInvariant(StreakOf(user), today);
      user := UpdateStreakIfNeeded(user, today);
    }
  }
}
