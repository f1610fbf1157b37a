# Market Maker: the game-state reducer

A Dafny model of the simulation core of the Market Maker Android game. A
player trades one crypto asset and buys upgrades from a tech tree. Every two
seconds a price candle is generated, and catalog news events may fire.

The view model (`ViewModel.GameViewModel`) holds one mutable game state. It
has eight fields:

- the portfolio (cash and coins);
- the last 30 candles;
- the candle count;
- the purchased upgrade ids;
- the active timed effects;
- the news feed (newest first, at most 50 items);
- the ids of one-time events that have fired;
- the current growth rate.

The Kotlin view model overwrites this state in three kinds of place. The
model follows each one step by step in a method:

- the player actions: buy 100 coins, sell 100 coins, purchase an upgrade;
- load and new game;
- the body of the candle loop: effect countdown, event check, growth rate,
  candle generation, bounded append.

Each method is proved to leave exactly the state that a pure transition in
`GameLogic` computes. The properties the game relies on are proved about
those transitions as lemmas:

- guard-or-no-op actions;
- bounded lists;
- sets that only grow;
- the effect countdown;
- the AND of trigger conditions;
- one-time events firing once;
- the growth-rate formula;
- the candle's open and floor.

The two static catalogs are `UpgradesDatabase.AllUpgrades` and
`EventsDatabase.AllEvents`. `AllUpgrades` is the nine-upgrade list turned
into a map with `associateBy`. `AllEvents` is the seven-event list. Both are
constants, and lemmas state the facts about them that the reducer's
behaviour depends on.

Modelling decisions:

- **Random draws are inputs.**
  - The event check takes one draw per catalog event. A draw is consulted
    only when that event's conditions hold, as the source draws only then.
  - `generateNextCandle` takes five draws, in source order: direction,
    dramatic, magnitude, high noise, low noise. They are the record
    `GameLogic.CandleDraws`.
- **Numbers.**
  - Kotlin `Float` and `Double` become `real`.
  - Kotlin `Int` becomes `Models.Int32`. The three places where the source
    adds to an `Int` wrap explicitly through `Models.Wrap32`: coins + 100,
    the candle count + 1, and an effect's duration − 1.
- **The event check uses a snapshot.** `checkForNewEvents` reads
  `_gameState.value` once, at its start. The one-time skip and the
  conditions are judged on that snapshot, while `triggerEvent` updates the
  live state. `GameLogic.CheckEvents` therefore takes both.
- **The field list follows the view model.**
  - `GameState.kt` declares only a two-field `GameState`. The model uses the
    eight-field record the view model builds in `createDefaultGameState`.
  - Kotlin's `type` field of `TriggerCondition` is called `kind` here.
- **`loadGame` keeps the current state when nothing loads.**
  `GameStateManager.loadGameState` returns null for a missing or unparsable
  save file, and `loadGame` then leaves `_gameState` as it is
  (GameViewModel.kt:110-112). `GameViewModel.LoadGame` takes the loader's
  result as an `Option` and does the same.

## Model

| member | source | states |
|---|---|---|
| `Models.Wrap32` | app/src/main/java/com/wakaragames/marketmaker/viewmodels/GameViewModel.kt:50 | Kotlin `Int` addition: the identity inside the 32-bit range, and always congruent to the exact sum modulo 2^32 |
| `GameLogic.Take` | app/src/main/java/com/wakaragames/marketmaker/viewmodels/GameViewModel.kt:202 | `take(n)`: the first min(n, length) items, a prefix of the input |
| `GameLogic.TakeLast` | app/src/main/java/com/wakaragames/marketmaker/viewmodels/GameViewModel.kt:138 | `takeLast(n)`: the last min(n, length) items, a suffix of the input |
| `GameLogic.TakeConsTake` | app/src/main/java/com/wakaragames/marketmaker/viewmodels/GameViewModel.kt:202 | prepending to a feed already cut to 50 and cutting again equals cutting once |
| `GameLogic.CreateDefaultGameState` | app/src/main/java/com/wakaragames/marketmaker/viewmodels/GameViewModel.kt:261-271 | 2000 cash and 10000 coins; one flat candle at price 1 whose low and high straddle it, and a count of 1 that matches the history; nothing bought, triggered, active or posted; the stored rate is the one `calculateCurrentGrowthRate` gives for no effects |
| `GameLogic.Buy` | app/src/main/java/com/wakaragames/marketmaker/viewmodels/GameViewModel.kt:40-55 | empty history or cash below 100 × close: state unchanged; otherwise cash drops by exactly 100 × close, coins rise by 100 (wrapping) and nothing else changes |
| `GameLogic.Sell` | app/src/main/java/com/wakaragames/marketmaker/viewmodels/GameViewModel.kt:57-72 | empty history or fewer than 100 coins: state unchanged; otherwise cash rises by 100 × close and coins drop by 100; a sell that happens leaves coins ≥ 0 |
| `GameLogic.BuyThenSellRoundTrip` | app/src/main/java/com/wakaragames/marketmaker/viewmodels/GameViewModel.kt:40-72 | a buy that goes through, followed by a sell at the same price, gives back the state held before |
| `GameLogic.SellKeepsCoinsNonNegative` | app/src/main/java/com/wakaragames/marketmaker/viewmodels/GameViewModel.kt:62-67 | selling never takes a non-negative coin count below zero |
| `GameLogic.BuyFromDefault` | app/src/main/java/com/wakaragames/marketmaker/viewmodels/GameViewModel.kt:261-271 | one buy from the default state leaves 1900 cash and 10100 coins |
| `GameLogic.PurchaseUpgrade` | app/src/main/java/com/wakaragames/marketmaker/viewmodels/GameViewModel.kt:74-104 | unknown id, too little cash or already owned: no-op; otherwise cash drops by the cost, the id is added, `ActiveEffect(id, duration)` is appended iff duration > 0, nothing else changes; the purchased set only grows |
| `GameLogic.PurchaseTwiceIsOnce` | app/src/main/java/com/wakaragames/marketmaker/viewmodels/GameViewModel.kt:80 | purchasing the same id twice debits once: the second purchase is a no-op |
| `GameLogic.NothingAffordableAtStart` | app/src/main/java/com/wakaragames/marketmaker/viewmodels/GameViewModel.kt:79 | from the default 2000 cash, every purchase attempt leaves the state unchanged |
| `GameLogic.ExRegulatorAddsNoEffect` | app/src/main/java/com/wakaragames/marketmaker/viewmodels/GameViewModel.kt:90-94 | buying `cmp_ex_regulator` (duration 0) never adds an active effect |
| `GameLogic.PurchaseIgnoresDependency` | app/src/main/java/com/wakaragames/marketmaker/viewmodels/GameViewModel.kt:74-80 | `rd_quantum_encryption` can be bought while its dependency `rd_pos_consensus` is not owned: `dependsOn` is not checked |
| `GameLogic.Decremented` | app/src/main/java/com/wakaragames/marketmaker/viewmodels/GameViewModel.kt:153 | one effect one candle shorter, same source id; at the smallest `Int` the duration wraps to the largest |
| `GameLogic.DecrementAll` | app/src/main/java/com/wakaragames/marketmaker/viewmodels/GameViewModel.kt:153 | the `map` step: same length, each effect one candle shorter |
| `GameLogic.KeepLive` | app/src/main/java/com/wakaragames/marketmaker/viewmodels/GameViewModel.kt:154 | the `filter` step: an effect is in the result iff it is in the input with duration > 0, and the result is a subsequence of the input (order kept) |
| `GameLogic.KeepLiveCounts` | app/src/main/java/com/wakaragames/marketmaker/viewmodels/GameViewModel.kt:154 | the filter keeps every copy of an effect with duration > 0 and no copy of any other |
| `GameLogic.KeepLiveConcat` | app/src/main/java/com/wakaragames/marketmaker/viewmodels/GameViewModel.kt:154 | filtering a concatenation is the concatenation of the filtered parts |
| `GameLogic.TickEffects` | app/src/main/java/com/wakaragames/marketmaker/viewmodels/GameViewModel.kt:152-154 | every kept effect has time left; an effect survives (one shorter) iff it had more than 1 candle; every kept effect is a decremented input; each decremented effect with time left is kept as often as it occurs, every other not at all; order is kept |
| `GameLogic.ProcessEffectsTick` | app/src/main/java/com/wakaragames/marketmaker/viewmodels/GameViewModel.kt:148-158 | with no effects the state is unchanged; otherwise only the effect list changes, to its countdown |
| `GameLogic.LongEffectsAllKept` | app/src/main/java/com/wakaragames/marketmaker/viewmodels/GameViewModel.kt:152-154 | when every effect has more than one candle left, the countdown keeps all of them in order, each one shorter |
| `GameLogic.KeepAllLive` | app/src/main/java/com/wakaragames/marketmaker/viewmodels/GameViewModel.kt:154 | filtering effects that all have time left changes nothing |
| `GameLogic.MarketCap` | app/src/main/java/com/wakaragames/marketmaker/viewmodels/GameViewModel.kt:186 | 0 with no candles, otherwise the last close × 100,000,000; at least 10,000,000 when that close is at the 0.1 floor or above |
| `GameLogic.ConditionHolds` | app/src/main/java/com/wakaragames/marketmaker/viewmodels/GameViewModel.kt:183-194 | ALWAYS holds; only ALWAYS, MARKET_CAP_ABOVE and UPGRADE_IS_PURCHASED can hold; MARKET_CAP_ABOVE holds iff the market cap (last close × 100,000,000, or 0 with no candles) is ≥ the value; UPGRADE_IS_PURCHASED holds iff the id is non-null and purchased |
| `GameLogic.AllHold` | app/src/main/java/com/wakaragames/marketmaker/viewmodels/GameViewModel.kt:182-195 | `all`: true iff every condition holds |
| `GameLogic.CheckAllConditions` | app/src/main/java/com/wakaragames/marketmaker/viewmodels/GameViewModel.kt:180-196 | false for an empty list, otherwise true iff every condition holds (ALWAYS true; MARKET_CAP_ABOVE is close × 100,000,000 ≥ value with 0 for no candles; UPGRADE_IS_PURCHASED needs a non-null id in the purchased set; all other kinds false) |
| `GameLogic.UnimplementedKindBlocks` | app/src/main/java/com/wakaragames/marketmaker/viewmodels/GameViewModel.kt:193 | a condition of an unimplemented kind makes the whole list false in every state |
| `GameLogic.MarketCapWithoutCandles` | app/src/main/java/com/wakaragames/marketmaker/viewmodels/GameViewModel.kt:186-187 | with no candles the market cap counts as 0, so the condition holds iff its threshold is ≤ 0 |
| `GameLogic.NewsFor` | app/src/main/java/com/wakaragames/marketmaker/viewmodels/GameViewModel.kt:201 | the news item carries the event's id and headline and the given timestamp |
| `GameLogic.EffectOf` | app/src/main/java/com/wakaragames/marketmaker/viewmodels/GameViewModel.kt:208-213 | an event adds an effect iff it is not a dummy and has an effect type; that effect carries the event id and its duration, with 0 for a null duration |
| `GameLogic.TriggerEvent` | app/src/main/java/com/wakaragames/marketmaker/viewmodels/GameViewModel.kt:198-228 | news item at index 0 stamped with the candle count; old feed follows, cut to 50; effect appended as above; a one-time id is added; portfolio, history, count, purchased set and rate unchanged |
| `GameLogic.DummyOnlyAddsNews` | app/src/main/java/com/wakaragames/marketmaker/viewmodels/GameViewModel.kt:208-209 | triggering a repeatable dummy event changes nothing but the news feed |
| `GameLogic.CelebTweetEffectExpiresNextTick` | app/src/main/java/com/wakaragames/marketmaker/viewmodels/GameViewModel.kt:212 | in every state `hype_celeb_tweet` appends an effect with duration 0, and the countdown after it equals the countdown of the effects held before it |
| `GameLogic.KeepLiveDropsDeadTail` | app/src/main/java/com/wakaragames/marketmaker/viewmodels/GameViewModel.kt:154 | an effect with no time left at the end of any list is filtered out and leaves the rest as the filter alone would |
| `GameLogic.CheckEvents` | app/src/main/java/com/wakaragames/marketmaker/viewmodels/GameViewModel.kt:160-178 | the event check changes neither portfolio, history, count, purchased set nor rate; the one-time set only grows; a feed of at most 50 stays at most 50 |
| `GameLogic.Fires` | app/src/main/java/com/wakaragames/marketmaker/viewmodels/GameViewModel.kt:164-172 | an event that fires is not an already-recorded one-time event, has at least one condition and all of them hold on the snapshot; a draw at or above its chance never fires it |
| `GameLogic.Fired` | app/src/main/java/com/wakaragames/marketmaker/viewmodels/GameViewModel.kt:163-176 | the fired events are catalog events that pass the one-time skip; every event that fires is among them, each one fired on its own draw, and they keep catalog order (a subsequence of the catalog) |
| `GameLogic.NewsItems` | app/src/main/java/com/wakaragames/marketmaker/viewmodels/GameViewModel.kt:201-202 | one news item per fired event, newest first |
| `GameLogic.OneTimeIds` | app/src/main/java/com/wakaragames/marketmaker/viewmodels/GameViewModel.kt:216-220 | exactly the ids of the one-time events of a run |
| `GameLogic.TriggerAllEffects` | app/src/main/java/com/wakaragames/marketmaker/viewmodels/GameViewModel.kt:207-225 | triggering a run appends its effects in order and records its one-time ids; nothing but feed, effects and one-time set changes |
| `GameLogic.TriggerAllNews` | app/src/main/java/com/wakaragames/marketmaker/viewmodels/GameViewModel.kt:201-202 | after a non-empty run the feed is its news, newest first, in front of the old feed, cut to 50 |
| `GameLogic.TriggerAllKeepsCount` | app/src/main/java/com/wakaragames/marketmaker/viewmodels/GameViewModel.kt:222-226 | triggering events never changes the candle count used as the news timestamp |
| `GameLogic.CheckEventsTriggersFired` | app/src/main/java/com/wakaragames/marketmaker/viewmodels/GameViewModel.kt:163-177 | the event loop equals triggering, in catalog order, exactly the events that fire |
| `GameLogic.CountFrom` | app/src/main/java/com/wakaragames/marketmaker/viewmodels/GameViewModel.kt:236-243 | the number of effects from a source is at most the number of effects |
| `GameLogic.GrowthRateFor` | app/src/main/java/com/wakaragames/marketmaker/viewmodels/GameViewModel.kt:230-245 | 0.65 × 1.2^k, k the number of `rd_pos_consensus` effects; never below 0.65 |
| `GameLogic.NoPosEffectMeansBaseRate` | app/src/main/java/com/wakaragames/marketmaker/viewmodels/GameViewModel.kt:236-244 | with no `rd_pos_consensus` effect the rate is exactly 0.65 |
| `GameLogic.ChangeBounds` | app/src/main/java/com/wakaragames/marketmaker/viewmodels/GameViewModel.kt:254 | with a non-negative baseline and a draw in [0, 1), a dramatic move lies between −1.05 and 2.45 baselines and a normal one between −0.36 and 0.44 |
| `GameLogic.RawClose` | app/src/main/java/com/wakaragames/marketmaker/viewmodels/GameViewModel.kt:255 | a green candle's unfloored close is at least the open, a red one's at most, and it lies exactly the size of the move away |
| `GameLogic.GenerateNextCandle` | app/src/main/java/com/wakaragames/marketmaker/viewmodels/GameViewModel.kt:247-259 | open = previous close; close = max(0.1, raw close) so close ≥ 0.1; a green candle never closes lower, a red one never closes higher unless floored |
| `GameLogic.CandleEnclosesBody` | app/src/main/java/com/wakaragames/marketmaker/viewmodels/GameViewModel.kt:256-258 | with draws in [0, 1) and an open ≥ 0.1, low ≤ min(open, close) and high ≥ max(open, close) |
| `GameLogic.NegativeLowCanOccur` | app/src/main/java/com/wakaragames/marketmaker/viewmodels/GameViewModel.kt:257-258 | the floor applies to the close only: a red dramatic candle from 0.5 has a negative low and a close of 0.1 |
| `GameLogic.PreviousClose` | app/src/main/java/com/wakaragames/marketmaker/viewmodels/GameViewModel.kt:134 | the last close, or 1 with no candles; at least 0.1 whenever the last close is |
| `GameLogic.AfterEvents` | app/src/main/java/com/wakaragames/marketmaker/viewmodels/GameViewModel.kt:130-131 | countdown plus event check leave history, portfolio, purchased set and count unchanged; the one-time set only grows; the feed stays ≤ 50 |
| `GameLogic.AppendCandle` | app/src/main/java/com/wakaragames/marketmaker/viewmodels/GameViewModel.kt:137-144 | history = takeLast(30) of history + candle, so length 1..30 with the candle last; under 30 it is appended, at 30 the oldest is dropped; count + 1; rate stored; nothing else changes |
| `GameLogic.Tick` | app/src/main/java/com/wakaragames/marketmaker/viewmodels/GameViewModel.kt:127-145 | history = takeLast(30) of old history + new candle, 1..30 long; new candle opens at the previous close (1 with none) and closes ≥ 0.1; count + 1; rate = 0.65 × 1.2^k over the new effects; portfolio and purchased set unchanged; one-time set only grows; feed stays ≤ 50 |
| `GameLogic.TickNews` | app/src/main/java/com/wakaragames/marketmaker/viewmodels/GameViewModel.kt:131 | a tick's feed is the old feed when nothing fires, otherwise the fired events' news, newest first, in front of it, cut to 50 |
| `GameLogic.OneTimeEventFiresOnce` | app/src/main/java/com/wakaragames/marketmaker/viewmodels/GameViewModel.kt:163-167 | a one-time event already recorded never fires, whatever the draws; one that fires is recorded by the tick |
| `GameLogic.InterestRateCrisisNeverFires` | app/src/main/java/com/wakaragames/marketmaker/data/EventDatabase.kt:51 | `crisis_interest_rate` never fires, whatever the state and the draws |
| `GameLogic.PosReviewNeedsUpgrade` | app/src/main/java/com/wakaragames/marketmaker/data/EventDatabase.kt:65 | `review_pos_update` never fires while `rd_pos_consensus` is not owned |
| `GameLogic.Ticks` | app/src/main/java/com/wakaragames/marketmaker/viewmodels/GameViewModel.kt:127-145 | over any number of ticks: portfolio and purchased set unchanged, one-time set only grows, feed stays ≤ 50, history 1..30 after at least one tick |
| `GameLogic.BoundedInvariant` | app/src/main/java/com/wakaragames/marketmaker/viewmodels/GameViewModel.kt:261-271 | the default state has 1..30 candles and ≤ 50 news, and buy, sell, purchase and tick all keep those bounds |
| `GameLogic.TicksKeepBounds` | app/src/main/java/com/wakaragames/marketmaker/viewmodels/GameViewModel.kt:126-146 | any number of ticks keeps a state within the bounds |
| `ViewModel.GameViewModel.constructor` | app/src/main/java/com/wakaragames/marketmaker/viewmodels/GameViewModel.kt:30 | the view model starts in the default state |
| `ViewModel.GameViewModel.PerformBuyTransaction` | app/src/main/java/com/wakaragames/marketmaker/viewmodels/GameViewModel.kt:40-55 | leaves the state `GameLogic.Buy` gives |
| `ViewModel.GameViewModel.PerformSellTransaction` | app/src/main/java/com/wakaragames/marketmaker/viewmodels/GameViewModel.kt:57-72 | leaves the state `GameLogic.Sell` gives |
| `ViewModel.GameViewModel.PurchaseUpgrade` | app/src/main/java/com/wakaragames/marketmaker/viewmodels/GameViewModel.kt:74-104 | leaves the state `GameLogic.PurchaseUpgrade` gives |
| `ViewModel.GameViewModel.LoadGame` | app/src/main/java/com/wakaragames/marketmaker/viewmodels/GameViewModel.kt:108-113 | a loaded state replaces the current one; no state leaves it unchanged |
| `ViewModel.GameViewModel.StartNewGame` | app/src/main/java/com/wakaragames/marketmaker/viewmodels/GameViewModel.kt:115-118 | resets to the default state |
| `ViewModel.GameViewModel.ProcessEffectsTick` | app/src/main/java/com/wakaragames/marketmaker/viewmodels/GameViewModel.kt:148-158 | leaves the state `GameLogic.ProcessEffectsTick` gives |
| `ViewModel.GameViewModel.TriggerEvent` | app/src/main/java/com/wakaragames/marketmaker/viewmodels/GameViewModel.kt:198-228 | leaves the state `GameLogic.TriggerEvent` gives |
| `ViewModel.GameViewModel.CheckForNewEvents` | app/src/main/java/com/wakaragames/marketmaker/viewmodels/GameViewModel.kt:160-178 | the `forEach` loop leaves the state `GameLogic.CheckEvents` gives from the snapshot taken at its start |
| `ViewModel.GameViewModel.CalculateCurrentGrowthRate` | app/src/main/java/com/wakaragames/marketmaker/viewmodels/GameViewModel.kt:230-245 | the accumulator loop returns 0.65 × 1.2^k for the current effects and changes nothing |
| `ViewModel.GameViewModel.Tick` | app/src/main/java/com/wakaragames/marketmaker/viewmodels/GameViewModel.kt:127-145 | one pass of the candle loop leaves the state `GameLogic.Tick` gives |
| `ViewModel.GameViewModel.AppendCandle` | app/src/main/java/com/wakaragames/marketmaker/viewmodels/GameViewModel.kt:137-144 | leaves the state `GameLogic.AppendCandle` gives |
| `ViewModel.GameViewModel.RunCandles` | app/src/main/java/com/wakaragames/marketmaker/viewmodels/GameViewModel.kt:126-146 | repeated passes leave the state `GameLogic.Ticks` gives |
| `UpgradesDatabase.AssociateBy` | app/src/main/java/com/wakaragames/marketmaker/data/UpgradesDatabase.kt:103 | keys are exactly the listed ids; every entry is stored under its own id and is one of the listed upgrades |
| `UpgradesDatabase.AssociateByFindsEach` | app/src/main/java/com/wakaragames/marketmaker/data/UpgradesDatabase.kt:103 | with distinct ids every listed upgrade is found under its id |
| `UpgradesDatabase.UpgradeListDistinct` | app/src/main/java/com/wakaragames/marketmaker/data/UpgradesDatabase.kt:8-102 | nine listed upgrades with pairwise distinct ids |
| `UpgradesDatabase.AllUpgradesContents` | app/src/main/java/com/wakaragames/marketmaker/data/UpgradesDatabase.kt:8-103 | every key equals its upgrade's id; every listed upgrade is in the map; the keys are the listed ids |
| `UpgradesDatabase.ListedIds` | app/src/main/java/com/wakaragames/marketmaker/data/UpgradesDatabase.kt:11-94 | the listed ids are the nine written out |
| `UpgradesDatabase.CatalogKeys` | app/src/main/java/com/wakaragames/marketmaker/data/UpgradesDatabase.kt:8-103 | the map's keys are the nine ids and its values are listed upgrades |
| `UpgradesDatabase.IdsSize` | app/src/main/java/com/wakaragames/marketmaker/data/UpgradesDatabase.kt:103 | distinct ids give as many keys as upgrades |
| `UpgradesDatabase.AllUpgradesSize` | app/src/main/java/com/wakaragames/marketmaker/data/UpgradesDatabase.kt:8-103 | the catalog holds exactly nine upgrades |
| `UpgradesDatabase.ListedEntry` | app/src/main/java/com/wakaragames/marketmaker/data/UpgradesDatabase.kt:103 | the i-th listed upgrade is the entry under its id |
| `UpgradesDatabase.DependenciesResolve` | app/src/main/java/com/wakaragames/marketmaker/data/UpgradesDatabase.kt:18-101 | every `dependsOn` is null or names an upgrade in the catalog |
| `UpgradesDatabase.IsLocked` | app/src/main/java/com/wakaragames/marketmaker/ui/screens/TechnologyScreen.kt:97 | the lock rule: an upgrade without a dependency is never locked |
| `UpgradesDatabase.UnlockIsPermanent` | app/src/main/java/com/wakaragames/marketmaker/ui/screens/TechnologyScreen.kt:97 | once an upgrade is unlocked, buying more upgrades never locks it again |
| `UpgradesDatabase.Layer2ScalingNeverUnlocks` | app/src/main/java/com/wakaragames/marketmaker/data/UpgradesDatabase.kt:31-38 | `rd_layer2_scaling` depends on itself, so under the technology screen's lock rule it is locked exactly while it is not owned: it can never be unlocked |
| `UpgradesDatabase.CheapestUpgrade` | app/src/main/java/com/wakaragames/marketmaker/data/UpgradesDatabase.kt:47 | every cost is ≥ 750,000, and `mkt_social_blitz` costs exactly that |
| `UpgradesDatabase.DurationsNonNegative` | app/src/main/java/com/wakaragames/marketmaker/data/UpgradesDatabase.kt:17-100 | no effect duration is negative |
| `UpgradesDatabase.OnlyExRegulatorIsInstant` | app/src/main/java/com/wakaragames/marketmaker/data/UpgradesDatabase.kt:90 | an upgrade's duration is 0 iff it is `cmp_ex_regulator` |
| `UpgradesDatabase.OnlyRootsAreFree` | app/src/main/java/com/wakaragames/marketmaker/data/UpgradesDatabase.kt:18-81 | an upgrade without a dependency is its category's root (`rd_pos_consensus`, `mkt_social_blitz`, `cmp_offshore_foundation`) |
| `UpgradesDatabase.RootsAreFree` | app/src/main/java/com/wakaragames/marketmaker/data/UpgradesDatabase.kt:10-81 | each category's root is in the catalog, in that category, with no dependency |
| `EventsDatabase.EventIdsDistinct` | app/src/main/java/com/wakaragames/marketmaker/data/EventDatabase.kt:10-76 | seven events with pairwise distinct ids |
| `EventsDatabase.DummyEventsShape` | app/src/main/java/com/wakaragames/marketmaker/data/EventDatabase.kt:13-45 | exactly the first three are dummies; each is repeatable, has no effect type, one ALWAYS condition and chance 0.1 |
| `EventsDatabase.OnlyOneTimeEvent` | app/src/main/java/com/wakaragames/marketmaker/data/EventDatabase.kt:62-68 | `review_pos_update` is the only one-time event, gated on `rd_pos_consensus` being purchased |
| `EventsDatabase.ChancesAreProbabilities` | app/src/main/java/com/wakaragames/marketmaker/data/EventDatabase.kt:17-73 | every trigger chance lies in [0, 1] |
| `EventsDatabase.RealEventsHaveEffects` | app/src/main/java/com/wakaragames/marketmaker/data/EventDatabase.kt:48-75 | every non-dummy event has an effect type, value and non-negative duration |
| `EventsDatabase.CelebTweetIsInstant` | app/src/main/java/com/wakaragames/marketmaker/data/EventDatabase.kt:55-61 | `hype_celeb_tweet` is a real event with a hype effect of duration 0 |

## Left out

- Compose UI: screens, charts, `GlitchText`, theme, navigation and `MainActivity` are presentation. `GameScreen.kt` is a stale duplicate with its own trading and candle code and is not part of this model.
- The technology screen's lock rule (`TechnologyScreen.kt:97`) is modelled as `UpgradesDatabase.IsLocked`, but the screen itself is not. The rule is not a purchase precondition, because `purchaseUpgrade` does not check it.
- Persistence: `GameStateManager` file and JSON I/O is not part of this model. `loadGame` takes the loader's result as an `Option`. `saveGame` and the file deletion in `startNewGame` change no state and are left out.
- Concurrency and publication: the coroutine, `delay(2000)`, the endless `while (true)` and the `StateFlow` are left out. One pass of the loop is `GameViewModel.Tick`, and a finite run of passes is `GameViewModel.RunCandles`. The `init` block that starts the loop is not modelled.
- Randomness: the distribution of `Random.nextFloat()` is not modelled, so nothing is claimed about the 70% and 15% frequencies.
- Random draws inside `triggerEvent`: that function also computes a growth rate and a candle (GameViewModel.kt:203-206). Neither is ever stored, so they are left out, together with the random draws they consume.
- Floating point: `Float` and `Double` rounding is not modelled, since all prices, cash, rates and chances are exact reals. So the 0.65 × 1.2^k product, the cash arithmetic and the `draw < chance` comparisons are exact.
- Effect semantics: `effectValue`, `effectType` beyond null/non-null, and the TODO "instant and probabilistic effects" (GameViewModel.kt:96, 211) are not applied by the code and are not modelled.
- Upgrade display text: `name`, `description` and `effectDescription` are carried in the catalog, but no property is stated about them.
- GameLogic.BuyThenSellRoundTrip: requires a non-negative coin count that does not wrap when 100 is added. With a wrapped or negative count the sell guard can refuse, and the round trip is not claimed there.
- GameLogic.CandleEnclosesBody: requires draws in [0, 1) and an open of at least 0.1. The open is the previous close, which the generator floors at 0.1, but a loaded state can hold any price.
- GameLogic.TickEffects: the "survives iff more than one candle left" clause excludes an effect at the smallest `Int`, whose decrement wraps to the largest.
