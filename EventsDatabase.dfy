/** The static news-event catalog: three flavour-only ("dummy") posts and
    four real events, in the order the tick scans them. */
module EventsDatabase {
  import opened Models

  const AlwaysCondition := TriggerCondition(Always, 0.0, None)

  const Dummy1 := GameEvent(
    "dummy_1",
    "Can't believe the season finale of 'Galaxy Raiders' ended like that! #spoilers",
    [AlwaysCondition], 0.1, true, false, None, Some(0.0), Some(0))

  const Dummy2 := GameEvent(
    "dummy_2",
    "Is it just me or is coffee tasting extra good today? #caffeine",
    [AlwaysCondition], 0.1, true, false, None, Some(0.0), Some(0))

  const Dummy3 := GameEvent(
    "dummy_3",
    "Planning my vacation for next year. Any recommendations?",
    [AlwaysCondition], 0.1, true, false, None, Some(0.0), Some(0))

  const CrisisInterestRate := GameEvent(
    "crisis_interest_rate",
    "Global Central Banks unite to raise interest rates to 5% to combat persistent inflation. Analysts expect a market downturn.",
    [TriggerCondition(GlobalInterestRateAbove, 5.0, None)], 0.1, false, false,
    Some(PriceTrendModifier), Some(-0.10), Some(200))

  const HypeCelebTweet := GameEvent(
    "hype_celeb_tweet",
    "Just heard about $YOUR_ASSET... looks intriguing. Might have to pick some up. \U{1F440} #crypto #altcoin",
    [TriggerCondition(MarketCapAbove, 10_000_000.0, None)], 0.02, false, false,
    Some(HypeModifier), Some(50.0), Some(0))

  const ReviewPosUpdate := GameEvent(
    "review_pos_update",
    "TechFront Magazine publishes a glowing review of YourAsset, praising its recent 'PoS Update' as a 'major leap forward in efficiency and security'.",
    [TriggerCondition(UpgradeIsPurchased, 0.0, Some("rd_pos_consensus"))], 0.2, false, true,
    Some(InstitutionalTrustModifier), Some(0.15), Some(150))

  const PanicFlashCrash := GameEvent(
    "panic_flash_crash",
    "BREAKING: Unexplained server outage at a major exchange has triggered a flash crash across the entire market! Trading paused.",
    [AlwaysCondition], 0.005, false, false,
    Some(PriceTrendModifier), Some(-0.30), Some(25))

  /** `EventsDatabase.allEvents`. */
  const AllEvents: seq<GameEvent> := [
    Dummy1, Dummy2, Dummy3, CrisisInterestRate, HypeCelebTweet, ReviewPosUpdate, PanicFlashCrash]

  /** The catalog has seven events and no two share an id. */
  lemma EventIdsDistinct()
    ensures |AllEvents| == 7
    ensures forall i, j :: 0 <= i < j < |AllEvents| ==> AllEvents[i].id != AllEvents[j].id
  {
  }

  /** The three dummies are repeatable, carry no effect, always qualify and
      fire with chance 0.1; no other event is a dummy. */
  lemma DummyEventsShape()
    ensures forall i :: 0 <= i < |AllEvents| ==>
      (AllEvents[i].isDummy <==> i < 3)
    ensures forall i :: 0 <= i < 3 ==>
      && !AllEvents[i].isOneTime
      && AllEvents[i].effectType.None?
      && AllEvents[i].triggerConditions == [TriggerCondition(Always, 0.0, None)]
      && AllEvents[i].triggerChance == 0.1
  {
  }

  /** `review_pos_update` is the only one-time event, and the one condition
      that gates it asks for `rd_pos_consensus` to be purchased. */
  lemma OnlyOneTimeEvent()
    ensures forall i :: 0 <= i < |AllEvents| ==>
      (AllEvents[i].isOneTime <==> AllEvents[i].id == "review_pos_update")
    ensures AllEvents[5].id == "review_pos_update"
    ensures AllEvents[5].triggerConditions == [TriggerCondition(UpgradeIsPurchased, 0.0, Some("rd_pos_consensus"))]
  {
  }

  /** Every chance is a probability. */
  lemma ChancesAreProbabilities()
    ensures forall i :: 0 <= i < |AllEvents| ==> 0.0 <= AllEvents[i].triggerChance <= 1.0
  {
  }

  /** Every real event has its type, value and duration set, and no
      duration is negative. */
  lemma RealEventsHaveEffects()
    ensures forall i :: 0 <= i < |AllEvents| && !AllEvents[i].isDummy ==>
      && AllEvents[i].effectType.Some?
      && AllEvents[i].effectValue.Some?
      && AllEvents[i].effectDurationInCandles.Some?
      && AllEvents[i].effectDurationInCandles.value >= 0
  {
  }

  /** `hype_celeb_tweet` has an effect whose duration is zero. */
  lemma CelebTweetIsInstant()
    ensures AllEvents[4].id == "hype_celeb_tweet"
    ensures !AllEvents[4].isDummy && AllEvents[4].effectType == Some(HypeModifier)
    ensures AllEvents[4].effectDurationInCandles == Some(0)
  {
  }
}
