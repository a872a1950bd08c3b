/** The web client's scoring hook (`useRespect`) and message hook (`useMessages`).
    Each operation computes the patches it sends through `updateUser` (one PATCH request each);
    the server merges them into the stored user. A null `user` makes every operation a no-op. */
module UseRespect {
  import opened Wrappers
  import opened Domain
  import opened Schema
  import opened ScoreRules
  import opened AIResponseProvider
  import opened AIResponses
  import Storage
  import UserRepository

  /** The respect level the web client resets to. */
  const WebResetBaseline: int := 100

  function StreakOf(u: User): StreakState {
    StreakState(u.streak, u.bestStreak, u.lastCompletedDate)
  }

  /** The web `isYesterday`: false for a missing (null or empty) date, otherwise whether the
      date is the day before `today`. */
  predicate IsYesterdayWeb(dateString: Option<Day>, today: Day)
    ensures IsYesterdayWeb(dateString, today) <==> dateString.Some? && IsYesterday(dateString.value, today)
  {
    if dateString.None? then false
    else
      var yesterday := today - 1;
      yesterday == dateString.value
  }

  /** `updateStreak`: the patch it sends, or `None` when it sends nothing
      (no user, or a completion already recorded today). Branch order as in the hook:
      no date, yesterday, same day, otherwise. */
  function UpdateStreakPatch(user: Option<User>, today: Day): (r: Option<UserPatch>)
    ensures user.None? ==> r.None?
    ensures r.Some? ==> r.value.respectLevel.None? && r.value.aiPersonality.None?
    ensures r.Some? ==> r.value.lastCompletedDate == Some(Some(today))
    ensures user.Some? && user.value.lastCompletedDate == Some(today) ==> r.None?
    ensures user.Some? && user.value.lastCompletedDate.None? ==> r.Some? && r.value.bestStreak.None?
  {
    if user.None? then None
    else
      var u := user.value;
      if u.lastCompletedDate.None? then
        Some(EmptyUserPatch.(lastCompletedDate := Some(Some(today)), streak := Some(1)))
      else if IsYesterdayWeb(u.lastCompletedDate, today) then
        var newStreak := u.streak + 1;
        var bestStreak := if u.bestStreak >= newStreak then u.bestStreak else newStreak;
        Some(EmptyUserPatch.(lastCompletedDate := Some(Some(today)), streak := Some(newStreak),
                             bestStreak := Some(bestStreak)))
      else if u.lastCompletedDate.value == today then
        None
      else
        Some(EmptyUserPatch.(lastCompletedDate := Some(Some(today)), streak := Some(1)))
  }

  /** The patches as a list of requests. */
  function AsList(p: Option<UserPatch>): seq<UserPatch> {
    if p.Some? then [p.value] else []
  }

  /** `updateRespectForTaskCompletion(completed)`: on a completion, the capped respect patch
      followed by the streak patch; on an un-completion, the floored respect patch only. */
  function RespectForTaskCompletionPatches(user: Option<User>, completed: bool, today: Day): (r: seq<UserPatch>)
    ensures user.None? <==> r == []
    ensures user.Some? ==> r[0] == EmptyUserPatch.(respectLevel := Some(
      if completed then ApplyCompletion(user.value.respectLevel) else ApplyUncompletion(user.value.respectLevel)))
    ensures !completed ==> |r| <= 1
  {
    if user.None? then []
    else if completed then
      [EmptyUserPatch.(respectLevel := Some(ApplyCompletion(user.value.respectLevel)))]
        + AsList(UpdateStreakPatch(user, today))
    else
      [EmptyUserPatch.(respectLevel := Some(ApplyUncompletion(user.value.respectLevel)))]
  }

  /** `updateRespectForTaskDeleted`: the floored deletion patch. */
  function RespectForTaskDeletedPatches(user: Option<User>): (r: seq<UserPatch>)
    ensures user.None? <==> r == []
    ensures user.Some? ==> r == [EmptyUserPatch.(respectLevel := Some(ApplyIncompleteDeletion(user.value.respectLevel)))]
  {
    if user.None? then [] else [EmptyUserPatch.(respectLevel := Some(ApplyIncompleteDeletion(user.value.respectLevel)))]
  }

  /** `updateAIPersonality`: writes the personality string as given. */
  function AIPersonalityPatches(user: Option<User>, personality: string): (r: seq<UserPatch>)
    ensures user.None? <==> r == []
  {
    if user.None? then [] else [EmptyUserPatch.(aiPersonality := Some(personality))]
  }

  /** `resetProgress`: respect to the web baseline, streak fields cleared, date set to null. */
  function ResetProgressPatches(user: Option<User>): (r: seq<UserPatch>)
    ensures user.None? <==> r == []
  {
    if user.None? then []
    else [UserPatch(Some(WebResetBaseline), Some(0), Some(0), Some(None), None)]
  }

  /** On the server, a web completion moves respect by the shared completion rule and the streak
      fields by the shared streak rule; identity and personality are kept. */
  lemma {:induction false} WebCompletionMatchesRules(u: User, today: Day)
    ensures var u' := Storage.MergeAll(u, RespectForTaskCompletionPatches(Some(u), true, today));
            u'.respectLevel == ApplyCompletion(u.respectLevel)
            && StreakOf(u') == NextStreak(StreakOf(u), today)
            && u'.aiPersonality == u.aiPersonality
  {
    var p0 := EmptyUserPatch.(respectLevel := Some(ApplyCompletion(u.respectLevel)));
    var u1 := Storage.MergeUser(u, p0);
    var sp := UpdateStreakPatch(Some(u), today);
    assert RespectForTaskCompletionPatches(Some(u), true, today) == [p0] + AsList(sp);
    if sp.Some? {
      assert ([p0] + AsList(sp))[1..] == [sp.value];
      assert Storage.MergeAll(u1, [sp.value]) == Storage.MergeUser(u1, sp.value);
    } else {
      assert ([p0] + AsList(sp))[1..] == [];
    }
  }

  /** On the server, a web un-completion applies the shared un-completion rule and changes nothing else. */
  lemma WebUncompletionMatchesRules(u: User, today: Day)
    ensures Storage.MergeAll(u, RespectForTaskCompletionPatches(Some(u), false, today))
            == u.(respectLevel := ApplyUncompletion(u.respectLevel))
  {
    assert RespectForTaskCompletionPatches(Some(u), false, today)[1..] == [];
  }

  /** On the server, a web deletion of an incomplete task applies the shared deletion rule only. */
  lemma WebDeletionMatchesRules(u: User)
    ensures Storage.MergeAll(u, RespectForTaskDeletedPatches(Some(u)))
            == u.(respectLevel := ApplyIncompleteDeletion(u.respectLevel))
  {
    assert RespectForTaskDeletedPatches(Some(u))[1..] == [];
  }

  /** On the server, a web reset writes respect 100 and clears the streak, keeping the personality.
      The respect level differs from the 50 an Android reset writes. */
  lemma WebResetResult(u: User)
    ensures var u' := Storage.MergeAll(u, ResetProgressPatches(Some(u)));
            u'.respectLevel == WebResetBaseline == 100 && StreakOf(u') == StreakState(0, 0, None)
            && u'.aiPersonality == u.aiPersonality
    ensures WebResetBaseline != UserRepository.AndroidResetBaseline
  {
    assert ResetProgressPatches(Some(u))[1..] == [];
  }

  /** On the server, a web personality change writes the string as given and nothing else. */
  lemma WebPersonalityResult(u: User, personality: string)
    ensures Storage.MergeAll(u, AIPersonalityPatches(Some(u), personality)) == u.(aiPersonality := personality)
  {
    assert AIPersonalityPatches(Some(u), personality)[1..] == [];
  }

  /** The values the hook returns: the user's fields, or fixed fallbacks while there is no user. */
  datatype Progress = Progress(respectLevel: int, aiPersonality: string, streak: int, bestStreak: int)

  function Displayed(user: Option<User>): (p: Progress)
    ensures user.Some? ==> p == Progress(user.value.respectLevel, user.value.aiPersonality,
                                         user.value.streak, user.value.bestStreak)
    ensures user.None? ==> p == Progress(100, "balanced", 0, 0)
  {
    if user.Some? then
      Progress(user.value.respectLevel, user.value.aiPersonality, user.value.streak, user.value.bestStreak)
    else Progress(100, "balanced", 0, 0)
  }

  /** While the user is loading, the hook shows what a web reset leaves behind (respect 100,
      no streak), apart from the personality; that is not what the server stores for a new user,
      whose respect starts at 50. */
  lemma LoadingFallbackIsResetState(u: User)
    ensures var reset := Storage.MergeAll(u, ResetProgressPatches(Some(u)));
            Displayed(Some(reset)) == Displayed(None).(aiPersonality := u.aiPersonality)
    ensures Displayed(None).respectLevel == WebResetBaseline != Storage.NewUserRespect
  {
    WebResetResult(u);
  }

  /** For a date that is present, the web and Android checks for "yesterday" agree. */
  lemma YesterdayChecksAgree(d: Day, today: Day)
    ensures IsYesterdayWeb(Some(d), today) == UserRepository.IsYesterdayAndroid(d, today)
  {
  }

  /** `Math.floor(random * length)` lies in [0, length) for a random number in [0, 1). */
  lemma FloorIndexInRange(random: real, length: nat)
    requires 0.0 <= random < 1.0 && length > 0
    ensures 0 <= (random * length as real).Floor < length
  {
    assert random * length as real < length as real;
  }

  /** `useMessages`: a message picked from the `getMessages` pool at index `floor(random * length)`.
      `None` stands for the TypeError raised when the personality key is not a property of the
      tables at all (`undefined.length`); keys inherited from `Object.prototype` are not modelled. */
  function UseMessages(records: Provider, respectLevel: int, aiPersonality: string, random: real): (m: Option<string>)
    requires 0.0 <= random < 1.0
    ensures m.Some? <==> aiPersonality in PersonalityKeys
    ensures m.Some? ==> m.value in GetMessages(records, respectLevel, aiPersonality).value
  {
    GetMessagesDefinedIff(records, respectLevel, aiPersonality);
    var messages := GetMessages(records, respectLevel, aiPersonality);
    if messages.None? then None
    else
      var length := |messages.value|;
      FloorIndexInRange(random, length);
      Some(messages.value[(random * length as real).Floor])
  }
}
