/** Types shared by the Android client, the web client and the server. */
module Domain {
  import opened Wrappers

  /** A calendar date as a day number; day `d - 1` is the day before `d`.
      `LocalDate` on Android and `toDateString()` text on the web both reduce to this. */
  type Day = int

  /** The three AI personalities (`AIPersonality` on Android, `PersonalityType` on the web). */
  datatype Personality = Supportive | Balanced | Savage

  /** Android's `Priority` enum. */
  datatype Priority = Low | Medium | High

  /** The key the web client and the server use for a personality. */
  function PersonalityName(p: Personality): (s: string)
    ensures s in {"supportive", "balanced", "savage"}
  {
    match p
    case Supportive => "supportive"
    case Balanced => "balanced"
    case Savage => "savage"
  }

  /** Reads a personality key back; anything else is not a personality. */
  function ParsePersonality(s: string): (p: Option<Personality>)
    ensures p.Some? <==> s in {"supportive", "balanced", "savage"}
    ensures p.Some? ==> PersonalityName(p.value) == s
  {
    if s == "supportive" then Some(Supportive)
    else if s == "balanced" then Some(Balanced)
    else if s == "savage" then Some(Savage)
    else None
  }

  /** Naming a personality and reading the name back gives the personality. */
  lemma PersonalityNameRoundTrip(p: Personality)
    ensures ParsePersonality(PersonalityName(p)) == Some(p)
  {
  }
}
