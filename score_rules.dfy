/** The respect and streak rules that the Android client (UserRepository.kt) and the web client
    (useRespect.ts) each implement: clamped respect adjustments, the respect tier, and the
    streak update triggered by a completion. */
module ScoreRules {
  import opened Wrappers
  import opened Domain

  /** Respect after completing a task: five more, capped at 100. */
  function ApplyCompletion(r: int): (r': int)
    ensures r' <= 100 && r' <= r + 5
    ensures r' == 100 || r' == r + 5
    ensures 0 <= r <= 100 ==> r <= r' && 5 <= r'
  {
    if r + 5 < 100 then r + 5 else 100
  }

  /** Respect after un-completing a task: three less, floored at 0. */
  function ApplyUncompletion(r: int): (r': int)
    ensures r' >= 0 && r' >= r - 3
    ensures r' == 0 || r' == r - 3
    ensures 0 <= r ==> r' <= r
  {
    if r - 3 > 0 then r - 3 else 0
  }

  /** Respect after deleting a task that was not completed: two less, floored at 0. */
  function ApplyIncompleteDeletion(r: int): (r': int)
    ensures r' >= 0 && r' >= r - 2
    ensures r' == 0 || r' == r - 2
    ensures 0 <= r ==> r' <= r
  {
    if r - 2 > 0 then r - 2 else 0
  }

  /** The three respect adjustments keep a level inside [0, 100]. */
  lemma AdjustmentsStayInRange(r: int)
    requires 0 <= r <= 100
    ensures 0 <= ApplyCompletion(r) <= 100
    ensures 0 <= ApplyUncompletion(r) <= 100
    ensures 0 <= ApplyIncompleteDeletion(r) <= 100
  {
  }

  /** Completing and then un-completing the same task is a net gain of two, or ends at 97
      when the completion hit the cap. */
  lemma CompleteThenUncomplete(r: int)
    requires 0 <= r <= 100
    ensures ApplyUncompletion(ApplyCompletion(r)) == if r <= 95 then r + 2 else 97
    ensures ApplyUncompletion(ApplyCompletion(r)) > r || r >= 97
  {
  }

  /** The message tier of a respect level. */
  datatype Tier = LowRespect | MediumRespect | HighRespect

  /** Tier bands: [70, ...) is high, [30, 70) is medium, everything below 30 is low,
      over all integers (negative levels are low, levels over 100 are high). */
  function TierOf(level: int): (t: Tier)
    ensures t == HighRespect <==> level >= 70
    ensures t == MediumRespect <==> 30 <= level < 70
    ensures t == LowRespect <==> level < 30
  {
    if level >= 70 then HighRespect
    else if level >= 30 then MediumRespect
    else LowRespect
  }

  /** The tier does not decrease when respect grows. */
  lemma TierMonotone(a: int, b: int)
    requires a <= b
    ensures TierOf(a) == HighRespect ==> TierOf(b) == HighRespect
    ensures TierOf(b) == LowRespect ==> TierOf(a) == LowRespect
  {
  }

  /** The boundary values of the three bands. */
  lemma TierBoundaries()
    ensures TierOf(29) == LowRespect && TierOf(30) == MediumRespect
    ensures TierOf(69) == MediumRespect && TierOf(70) == HighRespect
  {
  }

  /** The streak fields of a user record. */
  datatype StreakState = StreakState(streak: int, bestStreak: int, lastCompleted: Option<Day>)

  /** `date` is the day before `today`, so it lies strictly before it. */
  predicate IsYesterday(date: Day, today: Day)
    ensures IsYesterday(date, today) ==> date < today
  {
    date == today - 1
  }

  /** The streak after one qualifying completion on `today`:
      no previous completion starts a streak of 1 (best streak untouched);
      a completion yesterday extends the streak and may raise the best streak;
      a completion today changes nothing;
      any other previous day (a gap, or a future day) restarts the streak at 1 (best streak untouched). */
  function NextStreak(s: StreakState, today: Day): (s': StreakState)
    ensures s'.lastCompleted == Some(today)
    ensures s'.bestStreak >= s.bestStreak
    ensures s'.streak == 1 || s'.streak == s.streak + 1 || s' == s
  {
    match s.lastCompleted
    case None => s.(streak := 1, lastCompleted := Some(today))
    case Some(d) =>
      if IsYesterday(d, today) then
        var n := s.streak + 1;
        StreakState(n, if s.bestStreak >= n then s.bestStreak else n, Some(today))
      else if d == today then s
      else s.(streak := 1, lastCompleted := Some(today))
  }

  /** With no previous completion, or a previous one that is neither today nor yesterday
      (a gap, or a future day), the streak restarts at 1 and the best streak is left as it was,
      even when it is below 1. */
  lemma RestartKeepsBest(s: StreakState, today: Day)
    requires s.lastCompleted.None? || (s.lastCompleted.value != today && s.lastCompleted.value != today - 1)
    ensures NextStreak(s, today) == StreakState(1, s.bestStreak, Some(today))
  {
  }

  /** A second completion on the same day leaves the streak fields as the first one left them. */
  lemma NextStreakIdempotent(s: StreakState, today: Day)
    ensures NextStreak(NextStreak(s, today), today) == NextStreak(s, today)
  {
  }

  /** The streak fields after completions on each of `days`, in order. */
  function CompleteOnDays(s: StreakState, days: seq<Day>): (s': StreakState)
    ensures days != [] ==> s'.lastCompleted == Some(days[|days| - 1])
    ensures s'.bestStreak >= s.bestStreak
    decreases |days|
  {
    if days == [] then s else CompleteOnDays(NextStreak(s, days[0]), days[1..])
  }

  /** Any number of completions on the last completion day change nothing. */
  lemma {:induction false} SameDayCompletionsChangeNothing(s: StreakState, today: Day, n: nat)
    requires s.lastCompleted == Some(today)
    ensures CompleteOnDays(s, seq(n, _ => today)) == s
  {
    if n > 0 {
      assert seq(n, _ => today)[1..] == seq(n - 1, _ => today);
      SameDayCompletionsChangeNothing(s, today, n - 1);
    }
  }

  /** `days` are consecutive calendar days starting the day after `start`. */
  ghost predicate ConsecutiveAfter(start: Day, days: seq<Day>) {
    forall i :: 0 <= i < |days| ==> days[i] == start + 1 + i
  }

  /** Completing once a day on consecutive days, starting the day after the last completion,
      adds one to the streak per day, and the best streak is at least the final streak. */
  lemma {:induction false} ConsecutiveDaysExtendStreak(s: StreakState, d: Day, days: seq<Day>)
    requires s.lastCompleted == Some(d)
    requires ConsecutiveAfter(d, days)
    ensures CompleteOnDays(s, days).streak == s.streak + |days|
    ensures var n := s.streak + |days|;
            days != [] ==> CompleteOnDays(s, days).bestStreak == (if s.bestStreak >= n then s.bestStreak else n)
    decreases |days|
  {
    if days != [] {
      var s1 := NextStreak(s, days[0]);
      assert IsYesterday(d, days[0]);
      assert ConsecutiveAfter(d + 1, days[1..]) by {
        forall i | 0 <= i < |days[1..]| ensures days[1..][i] == d + 1 + 1 + i {
          assert days[1..][i] == days[i + 1];
        }
      }
      ConsecutiveDaysExtendStreak(s1, d + 1, days[1..]);
    }
  }

  /** The invariant the streak fields actually keep: counts are non-negative, and the best streak
      is at least the current one unless the current one is 1 (a first completion after a reset
      or a gap sets the streak to 1 without raising the best streak). */
  ghost predicate StreakInvariant(s: StreakState) {
    0 <= s.streak && 0 <= s.bestStreak && (s.streak <= 1 || s.bestStreak >= s.streak)
  }

  /** Every completion keeps the invariant. */
  lemma NextStreakKeepsInvariant(s: StreakState, today: Day)
    requires StreakInvariant(s)
    ensures StreakInvariant(NextStreak(s, today))
  {
  }

  /** The stronger invariant `bestStreak >= streak` does not hold: the first completion after a
      reset leaves streak 1 over best streak 0. */
  lemma BestStreakCanTrailStreak(today: Day)
    ensures var s' := NextStreak(StreakState(0, 0, None), today);
            s'.streak == 1 && s'.bestStreak == 0 && s'.bestStreak < s'.streak
  {
  }

  /** Worked examples: continuation below the record, a new record, a reset after a gap, a first completion. */
  lemma StreakExamples(today: Day)
    ensures NextStreak(StreakState(4, 10, Some(today - 1)), today) == StreakState(5, 10, Some(today))
    ensures NextStreak(StreakState(10, 10, Some(today - 1)), today) == StreakState(11, 11, Some(today))
    ensures NextStreak(StreakState(7, 9, Some(today - 3)), today) == StreakState(1, 9, Some(today))
    ensures NextStreak(StreakState(3, 5, None), today) == StreakState(1, 5, Some(today))
    ensures NextStreak(StreakState(2, 5, Some(today + 1)), today) == StreakState(1, 5, Some(today))
  {
  }
}
