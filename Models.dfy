/** The records of the game's data model: the player's portfolio, price
    candles, timed effects, news items, the static upgrade and event records,
    and the eight-field game state the view model keeps. Kotlin's `Float` and
    `Double` become `real`; Kotlin's 32-bit `Int` becomes `Int32`, and the
    places where the source adds to one are written with `Wrap32`. */
module Models {

  datatype Option<+T> = None | Some(value: T)

  const MinInt: int := -0x8000_0000
  const MaxInt: int := 0x7fff_ffff

  /** Kotlin's `Int`. */
  type Int32 = x: int | MinInt <= x <= MaxInt

  /** Two's-complement wrap-around of a mathematical integer into `Int`. */
  function Wrap32(x: int): (r: Int32)
    ensures MinInt <= x <= MaxInt ==> r == x
    ensures (r - x) % 0x1_0000_0000 == 0
  {
    (x - MinInt) % 0x1_0000_0000 + MinInt
  }

  datatype PlayerPortfolio = PlayerPortfolio(cash: real, coins: Int32)

  datatype CandleData = CandleData(open: real, high: real, low: real, close: real)

  /** A timed effect started by an upgrade or an event, named by its id. */
  datatype ActiveEffect = ActiveEffect(upgradeId: string, durationRemainingInCandles: Int32)

  datatype NewsItem = NewsItem(eventId: string, headline: string, timestamp: Int32)

  datatype UpgradeCategory = Marketing | RAndD | Compliance

  datatype Upgrade = Upgrade(
    id: string,
    name: string,
    description: string,
    category: UpgradeCategory,
    cost: real,
    effectDescription: string,
    effectDurationInCandles: Int32,
    dependsOn: Option<string>)

  datatype TriggerConditionType =
    | MarketCapAbove
    | HistoricalCandleCountAbove
    | HypeScoreAbove
    | UpgradeIsPurchased
    | GlobalInterestRateAbove
    | Always

  datatype GameEffectType =
    | PriceTrendModifier
    | HypeModifier
    | NegativeEventChanceModifier
    | InstitutionalTrustModifier
    | NoEffect

  /** The Kotlin field `type` is called `kind` here (`type` is a Dafny keyword). */
  datatype TriggerCondition = TriggerCondition(kind: TriggerConditionType, value: real, stringValue: Option<string>)

  datatype GameEvent = GameEvent(
    id: string,
    headline: string,
    triggerConditions: seq<TriggerCondition>,
    triggerChance: real,
    isDummy: bool,
    isOneTime: bool,
    effectType: Option<GameEffectType>,
    effectValue: Option<real>,
    effectDurationInCandles: Option<Int32>)

  /** The state record the view model reads and replaces. */
  datatype GameState = GameState(
    playerPortfolio: PlayerPortfolio,
    candleHistory: seq<CandleData>,
    historicalCandleCount: Int32,
    purchasedUpgradeIds: set<string>,
    activeEffects: seq<ActiveEffect>,
    newsFeed: seq<NewsItem>,
    triggeredOneTimeEventIds: set<string>,
    currentGrowthRate: real)
}
