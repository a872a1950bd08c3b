/** The web client's message tables: three records, one per respect tier, from a personality key
    to a list of messages, and `getMessages`, which returns a whole list. The records have the
    same shape as Android's nine lists, so they are a `Provider` value too; their text is left open. */
module AIResponses {
  import opened Wrappers
  import opened Domain
  import opened ScoreRules
  import opened AIResponseProvider

  /** The personality keys of every record. */
  const PersonalityKeys: set<string> := {"supportive", "balanced", "savage"}

  /** Indexes the record of a tier with a key that was cast, unchecked, to a personality:
      a key that is neither an own key of the record nor inherited from `Object.prototype` yields
      `undefined`, modelled as `None` (inherited keys such as "toString" are not modelled). */
  function Lookup(record: TierPools, key: string): (r: Option<seq<string>>)
    ensures r.Some? <==> key in PersonalityKeys
    ensures r.Some? ==> r.value == record.ForPersonality(ParsePersonality(key).value)
  {
    match ParsePersonality(key)
    case None => None
    case Some(p) => Some(record.ForPersonality(p))
  }

  /** `getMessages`: the list for the level's band (>= 70, >= 30, otherwise) and the personality key. */
  function GetMessages(records: Provider, respectLevel: int, personality: string): (r: Option<seq<string>>)
    ensures r == Lookup(records.ForTier(TierOf(respectLevel)), personality)
  {
    if respectLevel >= 70 then Lookup(records.high, personality)
    else if respectLevel >= 30 then Lookup(records.medium, personality)
    else Lookup(records.low, personality)
  }

  /** A list is returned exactly for the three personality keys, and it holds ten messages;
      any other key yields `undefined`. */
  lemma GetMessagesDefinedIff(records: Provider, respectLevel: int, personality: string)
    ensures GetMessages(records, respectLevel, personality).Some? <==> personality in PersonalityKeys
    ensures GetMessages(records, respectLevel, personality).Some? ==>
              |GetMessages(records, respectLevel, personality).value| == PoolSize
  {
    var t := TierOf(respectLevel);
    if personality in PersonalityKeys {
      assert records.ForTier(t).ForPersonality(ParsePersonality(personality).value)
          == records.Pool(t, ParsePersonality(personality).value);
    }
  }

  /** Two levels in the same band yield the same list. */
  lemma GetMessagesDependsOnlyOnBand(records: Provider, a: int, b: int, personality: string)
    requires TierOf(a) == TierOf(b)
    ensures GetMessages(records, a, personality) == GetMessages(records, b, personality)
  {
  }

  /** Both clients use the same thresholds and the same key for each personality: given the same
      nine lists, the web client returns, for a personality's key, the list Android draws from. */
  lemma SameListAsAndroid(records: Provider, respectLevel: int, p: Personality, pick: nat)
    requires pick < PoolSize
    ensures GetMessages(records, respectLevel, PersonalityName(p)) == Some(records.Pool(TierOf(respectLevel), p))
    ensures GetMessage(records, respectLevel, p, pick) in GetMessages(records, respectLevel, PersonalityName(p)).value
  {
    PersonalityNameRoundTrip(p);
  }
}
