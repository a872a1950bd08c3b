/** Android's message selector: a respect tier and a personality pick one of nine fixed lists,
    and `List.random()` draws a message from it. The draw is the index `pick`; the lists are a
    value of type `Provider` whose message text is left open. */
module AIResponseProvider {
  import opened Domain
  import opened ScoreRules

  /** Every list holds ten messages. */
  const PoolSize: nat := 10

  /** The three lists of one tier, one per personality. */
  datatype TierPools = TierPools(supportive: seq<string>, balanced: seq<string>, savage: seq<string>)
  {
    /** The `when (personality)` of a tier helper. */
    function ForPersonality(p: Personality): (pool: seq<string>)
      ensures Full() ==> |pool| == PoolSize
    {
      match p
      case Supportive => supportive
      case Balanced => balanced
      case Savage => savage
    }

    predicate Full() {
      |supportive| == PoolSize && |balanced| == PoolSize && |savage| == PoolSize
    }
  }

  /** Nine lists of messages, grouped by tier. */
  datatype Pools = Pools(high: TierPools, medium: TierPools, low: TierPools)
  {
    /** The lists of a tier. */
    function ForTier(t: Tier): TierPools {
      match t
      case HighRespect => high
      case MediumRespect => medium
      case LowRespect => low
    }

    /** The list for a tier and a personality; in full pools it holds `PoolSize` messages. */
    function Pool(t: Tier, p: Personality): (pool: seq<string>)
      ensures Full() ==> |pool| == PoolSize
    {
      ForTier(t).ForPersonality(p)
    }

    predicate Full() {
      high.Full() && medium.Full() && low.Full()
    }
  }

  /** Pools in which every list holds `PoolSize` messages, so a draw never fails. */
  type Provider = pools: Pools | pools.Full()
    witness var none := seq(PoolSize, _ => ""); var tier := TierPools(none, none, none); Pools(tier, tier, tier)

  /** `getHighRespectMessage`: message number `pick` of the high-respect list. */
  function GetHighRespectMessage(provider: Provider, p: Personality, pick: nat): (m: string)
    requires pick < PoolSize
    ensures m == provider.Pool(HighRespect, p)[pick]
  {
    provider.high.ForPersonality(p)[pick]
  }

  /** `getMediumRespectMessage`: message number `pick` of the medium-respect list. */
  function GetMediumRespectMessage(provider: Provider, p: Personality, pick: nat): (m: string)
    requires pick < PoolSize
    ensures m == provider.Pool(MediumRespect, p)[pick]
  {
    provider.medium.ForPersonality(p)[pick]
  }

  /** `getLowRespectMessage`: message number `pick` of the low-respect list. */
  function GetLowRespectMessage(provider: Provider, p: Personality, pick: nat): (m: string)
    requires pick < PoolSize
    ensures m == provider.Pool(LowRespect, p)[pick]
  {
    provider.low.ForPersonality(p)[pick]
  }

  /** `getMessage`: defined for every integer level; the message is drawn from the list of the
      level's tier and the personality. */
  function GetMessage(provider: Provider, respectLevel: int, p: Personality, pick: nat): (m: string)
    requires pick < PoolSize
    ensures m in provider.Pool(TierOf(respectLevel), p)
    ensures m == provider.Pool(TierOf(respectLevel), p)[pick]
  {
    if respectLevel >= 70 then GetHighRespectMessage(provider, p, pick)
    else if respectLevel >= 30 then GetMediumRespectMessage(provider, p, pick)
    else GetLowRespectMessage(provider, p, pick)
  }

  /** Every message of the list for the level's tier and the personality can be drawn. */
  lemma EveryMessageCanBeDrawn(provider: Provider, respectLevel: int, p: Personality, m: string)
    requires m in provider.Pool(TierOf(respectLevel), p)
    ensures exists pick :: 0 <= pick < PoolSize && GetMessage(provider, respectLevel, p, pick) == m
  {
    var pool := provider.Pool(TierOf(respectLevel), p);
    var pick :| 0 <= pick < |pool| && pool[pick] == m;
    assert GetMessage(provider, respectLevel, p, pick) == m;
  }

  /** Out-of-range levels are still served: below 0 from the low list, above 100 from the high list. */
  lemma GetMessageOutOfRange(provider: Provider, level: int, p: Personality, pick: nat)
    requires pick < PoolSize
    ensures level < 0 ==> GetMessage(provider, level, p, pick) in provider.Pool(LowRespect, p)
    ensures level > 100 ==> GetMessage(provider, level, p, pick) in provider.Pool(HighRespect, p)
  {
  }
}
