/** The state transitions of the game view model, each written as a pure
    function of the state it is applied to: the player's buy, sell and
    upgrade purchase, the effect countdown, the event check, the growth rate,
    the candle generator and one whole tick. Every random draw is a
    parameter, so each transition is deterministic. */
module GameLogic {
  import opened Models
  import UpgradesDatabase
  import EventsDatabase

  /** The history keeps the most recent 30 candles. */
  const MaxCandles: nat := 30
  /** The feed keeps the most recent 50 news items. */
  const MaxNews: nat := 50
  /** Coins bought or sold by one trade. */
  const TradeLot: int := 100
  /** The supply the market cap is computed from. */
  const CoinSupply: real := 100_000_000.0
  const BaseGrowthRate: real := 0.65
  /** The multiplier each active `rd_pos_consensus` effect applies. */
  const PosConsensusBonus: real := 1.2
  const PosConsensusId: string := "rd_pos_consensus"
  /** The price assumed when the history is empty. */
  const DefaultClose: real := 1.0
  /** The floor under every generated close. */
  const MinClose: real := 0.1

  // ----- sequences -----

  /** Kotlin's `take(n)`. */
  function Take<T>(s: seq<T>, n: nat): (r: seq<T>)
    ensures |r| == if |s| <= n then |s| else n
    ensures r == s[..|r|]
  {
    if |s| <= n then s else s[..n]
  }

  /** Kotlin's `takeLast(n)`. */
  function TakeLast<T>(s: seq<T>, n: nat): (r: seq<T>)
    ensures |r| == if |s| <= n then |s| else n
    ensures r == s[|s| - |r|..]
  {
    if |s| <= n then s else s[|s| - n..]
  }

  /** Putting one more item in front of a truncated list and truncating again
      is the same as truncating once. */
  lemma TakeConsTake<T>(a: T, l: seq<T>, n: nat)
    ensures Take([a] + Take(l, n), n) == Take([a] + l, n)
  {
    var x := [a] + Take(l, n);
    var y := [a] + l;
    assert |Take(x, n)| == |Take(y, n)|;
    forall i | 0 <= i < |Take(y, n)| ensures Take(x, n)[i] == Take(y, n)[i] {
      if i > 0 { assert x[i] == Take(l, n)[i - 1] == l[i - 1] == y[i]; }
    }
  }

  /** `a` is the sequence `b` with some elements left out, in the same order. */
  ghost predicate IsSubsequence<T>(a: seq<T>, b: seq<T>)
    decreases |b|
  {
    if a == [] then true
    else if b == [] then false
    else (a[0] == b[0] && IsSubsequence(a[1..], b[1..])) || IsSubsequence(a, b[1..])
  }

  /** `lastOrNull()?.close`. */
  function LastClose(history: seq<CandleData>): Option<real> {
    if history == [] then None else Some(history[|history| - 1].close)
  }

  // ----- the initial state -----

  /** `createDefaultGameState`: 2000 cash, 10000 coins, one flat candle at
      price 1, no upgrades, effects or news, and the base growth rate. */
  function CreateDefaultGameState(): (r: GameState)
    ensures r.playerPortfolio == PlayerPortfolio(2000.0, 10000)
    ensures |r.candleHistory| == r.historicalCandleCount == 1
    ensures var c := r.candleHistory[0];
      c.open == c.close == DefaultClose && c.low < c.open < c.high
    ensures r.purchasedUpgradeIds == {} && r.triggeredOneTimeEventIds == {}
    ensures r.activeEffects == [] && r.newsFeed == []
    ensures r.currentGrowthRate == GrowthRateFor(r.activeEffects)
  {
    GameState(
      PlayerPortfolio(2000.0, 10000),
      [CandleData(1.0, 1.03, 0.97, 1.0)],
      1, {}, [], [], {}, BaseGrowthRate)
  }

  // ----- player actions -----

  /** `performBuyTransaction`: with a current price, buy 100 coins when the cash
      covers 100 times that price; otherwise nothing happens. The coin count
      is a Kotlin `Int` and wraps past its maximum. */
  function Buy(s: GameState): (r: GameState)
    ensures s.candleHistory == [] ==> r == s
    ensures s.candleHistory != [] ==>
      var cost := TradeLot as real * s.candleHistory[|s.candleHistory| - 1].close;
      if s.playerPortfolio.cash >= cost then
        r == s.(playerPortfolio := PlayerPortfolio(s.playerPortfolio.cash - cost,
                                                   Wrap32(s.playerPortfolio.coins + TradeLot)))
      else r == s
  {
    match LastClose(s.candleHistory)
    case None => s
    case Some(price) =>
      var cost := TradeLot as real * price;
      if s.playerPortfolio.cash >= cost then
        s.(playerPortfolio := s.playerPortfolio.(
          cash := s.playerPortfolio.cash - cost,
          coins := Wrap32(s.playerPortfolio.coins + TradeLot)))
      else s
  }

  /** `performSellTransaction`: with a current price and at least 100 coins,
      sell 100 coins for 100 times that price; otherwise nothing happens. */
  function Sell(s: GameState): (r: GameState)
    ensures s.candleHistory == [] || s.playerPortfolio.coins < TradeLot ==> r == s
    ensures s.candleHistory != [] && s.playerPortfolio.coins >= TradeLot ==>
      r == s.(playerPortfolio := PlayerPortfolio(
        s.playerPortfolio.cash + TradeLot as real * s.candleHistory[|s.candleHistory| - 1].close,
        s.playerPortfolio.coins - TradeLot))
    ensures r == s || r.playerPortfolio.coins >= 0
  {
    match LastClose(s.candleHistory)
    case None => s
    case Some(price) =>
      if s.playerPortfolio.coins >= TradeLot then
        s.(playerPortfolio := s.playerPortfolio.(
          cash := s.playerPortfolio.cash + TradeLot as real * price,
          coins := s.playerPortfolio.coins - TradeLot))
      else s
  }

  /** A buy that goes through (and does not wrap the coin count) followed by a
      sell at the same price gives back the cash and coins held before. */
  lemma BuyThenSellRoundTrip(s: GameState)
    requires s.candleHistory != []
    requires s.playerPortfolio.cash >= TradeLot as real * s.candleHistory[|s.candleHistory| - 1].close
    requires 0 <= s.playerPortfolio.coins && s.playerPortfolio.coins + TradeLot <= MaxInt
    ensures Buy(s).playerPortfolio.coins == s.playerPortfolio.coins + TradeLot
    ensures Sell(Buy(s)) == s
  {
    var price := s.candleHistory[|s.candleHistory| - 1].close;
    var b := Buy(s);
    assert b.playerPortfolio.coins == s.playerPortfolio.coins + TradeLot;
    assert b.playerPortfolio.cash == s.playerPortfolio.cash - TradeLot as real * price;
    assert b.candleHistory == s.candleHistory;
    var t := Sell(b);
    assert t.playerPortfolio.cash == b.playerPortfolio.cash + TradeLot as real * price;
    assert t.playerPortfolio == s.playerPortfolio;
  }

  /** A sell never takes a non-negative coin count below zero. */
  lemma SellKeepsCoinsNonNegative(s: GameState)
    requires s.playerPortfolio.coins >= 0
    ensures Sell(s).playerPortfolio.coins >= 0
  {
  }

  /** From the default state, one buy at price 1 leaves 1900 cash and 10100 coins. */
  lemma BuyFromDefault()
    ensures Buy(CreateDefaultGameState()).playerPortfolio == PlayerPortfolio(1900.0, 10100)
  {
  }

  /** `purchaseUpgrade`: an unknown id, too little cash or an upgrade already
      owned leave the state unchanged; otherwise the cost is paid, the id is
      recorded and, for a positive duration, a timed effect is appended.
      The upgrade's dependency is not consulted. */
  function PurchaseUpgrade(s: GameState, upgradeId: string): (r: GameState)
    ensures upgradeId !in UpgradesDatabase.AllUpgrades ==> r == s
    ensures upgradeId in UpgradesDatabase.AllUpgrades ==>
      var u := UpgradesDatabase.AllUpgrades[upgradeId];
      if s.playerPortfolio.cash < u.cost || upgradeId in s.purchasedUpgradeIds then r == s
      else
        && r.playerPortfolio == PlayerPortfolio(s.playerPortfolio.cash - u.cost, s.playerPortfolio.coins)
        && r.purchasedUpgradeIds == s.purchasedUpgradeIds + {upgradeId}
        && r.activeEffects == s.activeEffects +
             (if u.effectDurationInCandles > 0 then [ActiveEffect(upgradeId, u.effectDurationInCandles)] else [])
        && r.(playerPortfolio := s.playerPortfolio, purchasedUpgradeIds := s.purchasedUpgradeIds,
              activeEffects := s.activeEffects) == s
    ensures s.purchasedUpgradeIds <= r.purchasedUpgradeIds
  {
    if upgradeId !in UpgradesDatabase.AllUpgrades then s
    else
      var upgrade := UpgradesDatabase.AllUpgrades[upgradeId];
      if s.playerPortfolio.cash < upgrade.cost then s
      else if upgradeId in s.purchasedUpgradeIds then s
      else
        var newEffects :=
          if upgrade.effectDurationInCandles > 0
          then s.activeEffects + [ActiveEffect(upgradeId, upgrade.effectDurationInCandles)]
          else s.activeEffects;
        s.(playerPortfolio := s.playerPortfolio.(cash := s.playerPortfolio.cash - upgrade.cost),
           purchasedUpgradeIds := s.purchasedUpgradeIds + {upgradeId},
           activeEffects := newEffects)
  }

  /** Purchasing the same upgrade twice debits once: the second attempt is a no-op. */
  lemma PurchaseTwiceIsOnce(s: GameState, upgradeId: string)
    ensures PurchaseUpgrade(PurchaseUpgrade(s, upgradeId), upgradeId) == PurchaseUpgrade(s, upgradeId)
  {
  }

  /** Nothing in the catalog is affordable from the default 2000 cash. */
  lemma NothingAffordableAtStart(upgradeId: string)
    ensures PurchaseUpgrade(CreateDefaultGameState(), upgradeId) == CreateDefaultGameState()
  {
    UpgradesDatabase.CheapestUpgrade();
  }

  /** Buying `cmp_ex_regulator`, the one zero-duration upgrade, starts no effect. */
  lemma ExRegulatorAddsNoEffect(s: GameState)
    ensures PurchaseUpgrade(s, "cmp_ex_regulator").activeEffects == s.activeEffects
  {
    UpgradesDatabase.OnlyExRegulatorIsInstant();
  }

  /** The dependency is not checked: `rd_quantum_encryption` can be bought
      while `rd_pos_consensus`, which it depends on, is not owned. */
  lemma PurchaseIgnoresDependency(s: GameState)
    requires s.playerPortfolio.cash >= 5_000_000.0
    requires s.purchasedUpgradeIds == {}
    ensures "rd_pos_consensus" !in PurchaseUpgrade(s, "rd_quantum_encryption").purchasedUpgradeIds
    ensures PurchaseUpgrade(s, "rd_quantum_encryption").purchasedUpgradeIds == {"rd_quantum_encryption"}
    ensures PurchaseUpgrade(s, "rd_quantum_encryption").playerPortfolio.cash == s.playerPortfolio.cash - 5_000_000.0
  {
    UpgradesDatabase.ListedEntry(1);
  }

  // ----- effect countdown -----

  /** One candle less on the clock (a Kotlin `Int` decrement). */
  function Decremented(e: ActiveEffect): (r: ActiveEffect)
    ensures r.upgradeId == e.upgradeId
    ensures MinInt < e.durationRemainingInCandles ==> r.durationRemainingInCandles == e.durationRemainingInCandles - 1
    ensures e.durationRemainingInCandles == MinInt ==> r.durationRemainingInCandles == MaxInt
  {
    e.(durationRemainingInCandles := Wrap32(e.durationRemainingInCandles - 1))
  }

  function DecrementAll(effects: seq<ActiveEffect>): (r: seq<ActiveEffect>)
    ensures |r| == |effects|
    ensures forall i :: 0 <= i < |effects| ==> r[i] == Decremented(effects[i])
  {
    seq(|effects|, i requires 0 <= i < |effects| => Decremented(effects[i]))
  }

  /** The effects that still have time left, in their original order. */
  function KeepLive(effects: seq<ActiveEffect>): (r: seq<ActiveEffect>)
    ensures |r| <= |effects|
    ensures forall x {:trigger x in r} :: x in r <==> x in effects && x.durationRemainingInCandles > 0
    ensures IsSubsequence(r, effects)
  {
    if effects == [] then []
    else if effects[0].durationRemainingInCandles > 0 then
      var rest := KeepLive(effects[1..]);
      assert ([effects[0]] + rest)[1..] == rest;
      [effects[0]] + rest
    else KeepLive(effects[1..])
  }

  /** The filter keeps every copy of a live effect and no copy of a dead one. */
  lemma {:induction false} KeepLiveCounts(effects: seq<ActiveEffect>)
    ensures forall x :: multiset(KeepLive(effects))[x]
                        == if x.durationRemainingInCandles > 0 then multiset(effects)[x] else 0
  {
    if effects != [] {
      var e, t := effects[0], effects[1..];
      assert effects == [e] + t;
      KeepLiveCounts(t);
      KeepLiveCons(e, t);
      if e.durationRemainingInCandles > 0 {
        assert multiset(KeepLive(effects)) == multiset{e} + multiset(KeepLive(t));
      }
    }
  }

  /** The countdown of `processEffectsTick`: every effect loses one candle and
      exactly those with time left are kept, in order. */
  function TickEffects(effects: seq<ActiveEffect>): (r: seq<ActiveEffect>)
    ensures |r| <= |effects|
    ensures forall x :: x in r ==> x.durationRemainingInCandles > 0
    ensures forall e :: e in effects && MinInt < e.durationRemainingInCandles ==>
      (e.durationRemainingInCandles > 1 <==>
         e.(durationRemainingInCandles := e.durationRemainingInCandles - 1) in r)
    ensures forall x :: x in r ==> exists e :: e in effects && x == Decremented(e)
    ensures forall x :: multiset(r)[x]
                        == if x.durationRemainingInCandles > 0 then multiset(DecrementAll(effects))[x] else 0
    ensures IsSubsequence(r, DecrementAll(effects))
  {
    var d := DecrementAll(effects);
    var r := KeepLive(d);
    KeepLiveCounts(d);
    forall e | e in effects && MinInt < e.durationRemainingInCandles
      ensures e.durationRemainingInCandles > 1 <==>
              e.(durationRemainingInCandles := e.durationRemainingInCandles - 1) in r
    {
      var i :| 0 <= i < |effects| && effects[i] == e;
      assert d[i] == e.(durationRemainingInCandles := e.durationRemainingInCandles - 1);
    }
    forall x | x in r ensures exists e :: e in effects && x == Decremented(e) {
      var i :| 0 <= i < |d| && d[i] == x;
      assert effects[i] in effects;
    }
    r
  }

  /** `processEffectsTick` at state level: only the effect list changes, and
      with no effects nothing changes. */
  function ProcessEffectsTick(s: GameState): (r: GameState)
    ensures s.activeEffects == [] ==> r == s
    ensures r == s.(activeEffects := TickEffects(s.activeEffects))
  {
    if s.activeEffects == [] then s
    else s.(activeEffects := TickEffects(s.activeEffects))
  }

  /** When every effect has more than one candle left, the countdown keeps all
      of them, in order, each one candle shorter. */
  lemma {:induction false} LongEffectsAllKept(effects: seq<ActiveEffect>)
    requires forall e :: e in effects ==> e.durationRemainingInCandles > 1
    ensures TickEffects(effects) == DecrementAll(effects)
  {
    KeepAllLive(DecrementAll(effects));
  }

  /** Filtering a list with one more effect in front. */
  lemma KeepLiveCons(e: ActiveEffect, l: seq<ActiveEffect>)
    ensures KeepLive([e] + l) == if e.durationRemainingInCandles > 0 then [e] + KeepLive(l) else KeepLive(l)
  {
    assert ([e] + l)[1..] == l;
  }

  /** The step of `KeepLiveConcat`. */
  lemma KeepLiveConsConcat(x: ActiveEffect, t: seq<ActiveEffect>, b: seq<ActiveEffect>)
    requires KeepLive(t + b) == KeepLive(t) + KeepLive(b)
    ensures KeepLive([x] + t + b) == KeepLive([x] + t) + KeepLive(b)
  {
    assert [x] + t + b == [x] + (t + b);
    KeepLiveCons(x, t + b);
    KeepLiveCons(x, t);
  }

  /** Filtering a concatenation filters each part. */
  lemma {:induction false} KeepLiveConcat(a: seq<ActiveEffect>, b: seq<ActiveEffect>)
    ensures KeepLive(a + b) == KeepLive(a) + KeepLive(b)
  {
    if a == [] {
      assert a + b == b;
    } else {
      KeepLiveConcat(a[1..], b);
      KeepLiveConsConcat(a[0], a[1..], b);
      assert [a[0]] + a[1..] == a;
    }
  }

  /** Counting down a list with one more effect at its end. */
  lemma DecrementAllSnoc(effects: seq<ActiveEffect>, e: ActiveEffect)
    ensures DecrementAll(effects + [e]) == DecrementAll(effects) + [Decremented(e)]
  {
  }

  lemma {:induction false} KeepAllLive(effects: seq<ActiveEffect>)
    requires forall e :: e in effects ==> e.durationRemainingInCandles > 0
    ensures KeepLive(effects) == effects
  {
    if effects != [] {
      KeepAllLive(effects[1..]);
    }
  }

  // ----- trigger conditions -----

  /** The market cap at the last close (0 with no candles) times the supply. */
  function MarketCap(s: GameState): (r: real)
    ensures s.candleHistory == [] ==> r == 0.0
    ensures s.candleHistory != [] ==> r == s.candleHistory[|s.candleHistory| - 1].close * CoinSupply
    ensures s.candleHistory != [] && s.candleHistory[|s.candleHistory| - 1].close >= MinClose ==> r >= 10_000_000.0
  {
    match LastClose(s.candleHistory)
    case Some(p) => p * CoinSupply
    case None => 0.0
  }

  /** One condition, as the `when` of `checkAllConditions` evaluates it; the
      kinds it has no branch for are false. */
  function ConditionHolds(c: TriggerCondition, s: GameState): (r: bool)
    ensures c.kind == Always ==> r
    ensures r ==> c.kind == Always || c.kind == MarketCapAbove || c.kind == UpgradeIsPurchased
    ensures c.kind == UpgradeIsPurchased && c.stringValue.None? ==> !r
    ensures c.kind == MarketCapAbove ==> (r <==> MarketCap(s) >= c.value)
    ensures c.kind == UpgradeIsPurchased ==>
      (r <==> c.stringValue.Some? && c.stringValue.value in s.purchasedUpgradeIds)
  {
    match c.kind
    case Always => true
    case MarketCapAbove => MarketCap(s) >= c.value
    case UpgradeIsPurchased => c.stringValue.Some? && c.stringValue.value in s.purchasedUpgradeIds
    case HistoricalCandleCountAbove => false
    case HypeScoreAbove => false
    case GlobalInterestRateAbove => false
  }

  /** Kotlin's `all` over the conditions. */
  function AllHold(cs: seq<TriggerCondition>, s: GameState): (r: bool)
    ensures r <==> forall i :: 0 <= i < |cs| ==> ConditionHolds(cs[i], s)
  {
    if cs == [] then true else ConditionHolds(cs[0], s) && AllHold(cs[1..], s)
  }

  /** `checkAllConditions`: false for an empty list, otherwise the conjunction. */
  function CheckAllConditions(cs: seq<TriggerCondition>, s: GameState): (r: bool)
    ensures r <==> |cs| > 0 && forall i :: 0 <= i < |cs| ==> ConditionHolds(cs[i], s)
  {
    if cs == [] then false else AllHold(cs, s)
  }

  /** A condition of a kind the evaluator does not implement blocks its
      event in every state. */
  lemma UnimplementedKindBlocks(cs: seq<TriggerCondition>, s: GameState, i: nat)
    requires i < |cs|
    requires cs[i].kind in {HistoricalCandleCountAbove, HypeScoreAbove, GlobalInterestRateAbove}
    ensures !CheckAllConditions(cs, s)
  {
  }

  /** With no candles the market cap is taken as zero. */
  lemma MarketCapWithoutCandles(c: TriggerCondition, s: GameState)
    requires c.kind == MarketCapAbove && s.candleHistory == []
    ensures ConditionHolds(c, s) <==> c.value <= 0.0
  {
  }

  // ----- triggering events -----

  /** The news item an event posts. */
  function NewsFor(e: GameEvent, timestamp: Int32): (r: NewsItem)
    ensures r.eventId == e.id && r.headline == e.headline && r.timestamp == timestamp
  {
    NewsItem(e.id, e.headline, timestamp)
  }

  /** The effect an event starts, if any: dummies and events without an
      effect type start none; a missing duration counts as 0. */
  function EffectOf(e: GameEvent): (r: seq<ActiveEffect>)
    ensures |r| <= 1
    ensures r != [] <==> !e.isDummy && e.effectType.Some?
    ensures r != [] ==> (r[0].upgradeId == e.id &&
      r[0].durationRemainingInCandles == (if e.effectDurationInCandles.Some? then e.effectDurationInCandles.value else 0))
  {
    if e.isDummy || e.effectType.None? then []
    else [ActiveEffect(e.id, match e.effectDurationInCandles case Some(d) => d case None => 0)]
  }

  /** `triggerEvent`: the event's news goes to the front of the feed, stamped
      with the candle count, and the feed is cut to 50; its effect (if any) is
      appended; a one-time event is recorded. Nothing else changes (the candle
      this function generates in the source is thrown away). */
  function TriggerEvent(s: GameState, e: GameEvent): (r: GameState)
    ensures |r.newsFeed| == if |s.newsFeed| < MaxNews then |s.newsFeed| + 1 else MaxNews
    ensures r.newsFeed[0] == NewsItem(e.id, e.headline, s.historicalCandleCount)
    ensures r.newsFeed[1..] == s.newsFeed[..|r.newsFeed| - 1]
    ensures r.activeEffects == s.activeEffects + EffectOf(e)
    ensures r.triggeredOneTimeEventIds == s.triggeredOneTimeEventIds + (if e.isOneTime then {e.id} else {})
    ensures r.playerPortfolio == s.playerPortfolio
    ensures r.candleHistory == s.candleHistory
    ensures r.historicalCandleCount == s.historicalCandleCount
    ensures r.purchasedUpgradeIds == s.purchasedUpgradeIds
    ensures r.currentGrowthRate == s.currentGrowthRate
  {
    var feed := Take([NewsFor(e, s.historicalCandleCount)] + s.newsFeed, MaxNews);
    var oneTime := if e.isOneTime then s.triggeredOneTimeEventIds + {e.id} else s.triggeredOneTimeEventIds;
    s.(newsFeed := feed, activeEffects := s.activeEffects + EffectOf(e), triggeredOneTimeEventIds := oneTime)
  }

  /** A dummy event only adds news. */
  lemma DummyOnlyAddsNews(s: GameState, e: GameEvent)
    requires e.isDummy && !e.isOneTime
    ensures TriggerEvent(s, e).(newsFeed := s.newsFeed) == s
  {
  }

  /** `hype_celeb_tweet` starts an effect with no time on it, and the next
      countdown removes it again: the countdown after the tweet is the
      countdown of the effects that were there before it. */
  lemma CelebTweetEffectExpiresNextTick(s: GameState)
    ensures TriggerEvent(s, EventsDatabase.HypeCelebTweet).activeEffects
      == s.activeEffects + [ActiveEffect("hype_celeb_tweet", 0)]
    ensures ProcessEffectsTick(TriggerEvent(s, EventsDatabase.HypeCelebTweet)).activeEffects
      == TickEffects(s.activeEffects)
  {
    var tweet := ActiveEffect("hype_celeb_tweet", 0);
    DecrementAllSnoc(s.activeEffects, tweet);
    KeepLiveDropsDeadTail(DecrementAll(s.activeEffects), Decremented(tweet));
  }

  /** A dead effect at the end of a list is filtered out, whatever comes before it. */
  lemma KeepLiveDropsDeadTail(effects: seq<ActiveEffect>, dead: ActiveEffect)
    requires dead.durationRemainingInCandles <= 0
    ensures KeepLive(effects + [dead]) == KeepLive(effects)
  {
    KeepLiveConcat(effects, [dead]);
    assert KeepLive([dead]) == [];
  }

  // ----- the event check -----

  /** Whether one catalog event fires, judged on the state the check started
      from: a one-time event already triggered is skipped, then its
      conditions must hold and the draw must fall under its chance. */
  function Fires(snapshot: GameState, e: GameEvent, draw: real): (r: bool)
    ensures r ==> !(e.isOneTime && e.id in snapshot.triggeredOneTimeEventIds)
    ensures r ==> |e.triggerConditions| > 0
    ensures r ==> forall i :: 0 <= i < |e.triggerConditions| ==> ConditionHolds(e.triggerConditions[i], snapshot)
    ensures e.triggerChance <= draw ==> !r
  {
    && !(e.isOneTime && e.id in snapshot.triggeredOneTimeEventIds)
    && CheckAllConditions(e.triggerConditions, snapshot)
    && draw < e.triggerChance
  }

  /** `checkForNewEvents`: the events are visited in order and each that
      fires is triggered on the live state. */
  function CheckEvents(snapshot: GameState, events: seq<GameEvent>, draws: seq<real>, s: GameState): (r: GameState)
    requires |draws| == |events|
    ensures r.playerPortfolio == s.playerPortfolio
    ensures r.candleHistory == s.candleHistory
    ensures r.historicalCandleCount == s.historicalCandleCount
    ensures r.purchasedUpgradeIds == s.purchasedUpgradeIds
    ensures r.currentGrowthRate == s.currentGrowthRate
    ensures s.triggeredOneTimeEventIds <= r.triggeredOneTimeEventIds
    ensures |s.newsFeed| <= MaxNews ==> |r.newsFeed| <= MaxNews
    decreases |events|
  {
    if events == [] then s
    else
      var next := if Fires(snapshot, events[0], draws[0]) then TriggerEvent(s, events[0]) else s;
      CheckEvents(snapshot, events[1..], draws[1..], next)
  }

  /** The events that fire, in catalog order. */
  function Fired(snapshot: GameState, events: seq<GameEvent>, draws: seq<real>): (r: seq<GameEvent>)
    requires |draws| == |events|
    ensures forall f :: f in r ==> f in events && !(f.isOneTime && f.id in snapshot.triggeredOneTimeEventIds)
    ensures forall i :: 0 <= i < |events| && Fires(snapshot, events[i], draws[i]) ==> events[i] in r
    ensures forall f :: f in r ==> exists i :: 0 <= i < |events| && events[i] == f && Fires(snapshot, f, draws[i])
    ensures IsSubsequence(r, events)
    decreases |events|
  {
    if events == [] then []
    else
      var rest := Fired(snapshot, events[1..], draws[1..]);
      if Fires(snapshot, events[0], draws[0]) then
        assert ([events[0]] + rest)[1..] == rest;
        [events[0]] + rest
      else rest
  }

  /** The news items a run of triggered events leaves, newest first. */
  function NewsItems(fs: seq<GameEvent>, timestamp: Int32): (r: seq<NewsItem>)
    ensures |r| == |fs|
    ensures forall i :: 0 <= i < |fs| ==> r[i] == NewsFor(fs[|fs| - 1 - i], timestamp)
  {
    if fs == [] then []
    else [NewsFor(fs[|fs| - 1], timestamp)] + NewsItems(fs[..|fs| - 1], timestamp)
  }

  function EffectsOf(fs: seq<GameEvent>): seq<ActiveEffect> {
    if fs == [] then [] else EffectsOf(fs[..|fs| - 1]) + EffectOf(fs[|fs| - 1])
  }

  function OneTimeIds(fs: seq<GameEvent>): (r: set<string>)
    ensures forall id :: id in r <==> exists f :: f in fs && f.isOneTime && f.id == id
  {
    set f | f in fs && f.isOneTime :: f.id
  }

  /** Triggering a run of events one after another, oldest first. */
  function TriggerAll(s: GameState, fs: seq<GameEvent>): GameState
    decreases |fs|
  {
    if fs == [] then s else TriggerEvent(TriggerAll(s, fs[..|fs| - 1]), fs[|fs| - 1])
  }

  /** Triggering a run of events changes only the feed, the effects and the
      one-time set: the effects of the run are appended in order and its
      one-time events are recorded. */
  lemma {:induction false} TriggerAllEffects(s: GameState, fs: seq<GameEvent>)
    ensures var r := TriggerAll(s, fs);
      && r.activeEffects == s.activeEffects + EffectsOf(fs)
      && r.triggeredOneTimeEventIds == s.triggeredOneTimeEventIds + OneTimeIds(fs)
      && r.(newsFeed := s.newsFeed, activeEffects := s.activeEffects,
            triggeredOneTimeEventIds := s.triggeredOneTimeEventIds) == s
    decreases |fs|
  {
    if fs != [] {
      var init := fs[..|fs| - 1];
      var last := fs[|fs| - 1];
      TriggerAllEffects(s, init);
      assert fs == init + [last];
      assert OneTimeIds(fs) == OneTimeIds(init) + (if last.isOneTime then {last.id} else {});
    }
  }

  /** The feed after a non-empty run: its news, newest first, in front of the
      old feed, cut to 50. */
  lemma {:induction false} TriggerAllNews(s: GameState, fs: seq<GameEvent>)
    requires fs != []
    ensures TriggerAll(s, fs).newsFeed == Take(NewsItems(fs, s.historicalCandleCount) + s.newsFeed, MaxNews)
    decreases |fs|
  {
    var init := fs[..|fs| - 1];
    var t := TriggerAll(s, init);
    var item := NewsFor(fs[|fs| - 1], s.historicalCandleCount);
    TriggerAllKeepsCount(s, init);
    assert TriggerAll(s, fs).newsFeed == Take([item] + t.newsFeed, MaxNews);
    if init != [] {
      TriggerAllNews(s, init);
      TakeConsTake(item, NewsItems(init, s.historicalCandleCount) + s.newsFeed, MaxNews);
      NewsItemsSnoc(fs, s.historicalCandleCount, s.newsFeed);
    }
  }

  /** The run's items are its last event's item in front of the rest's. */
  lemma NewsItemsSnoc(fs: seq<GameEvent>, timestamp: Int32, feed: seq<NewsItem>)
    requires fs != []
    ensures [NewsFor(fs[|fs| - 1], timestamp)] + (NewsItems(fs[..|fs| - 1], timestamp) + feed)
      == NewsItems(fs, timestamp) + feed
  {
  }

  lemma {:induction false} TriggerAllKeepsCount(s: GameState, fs: seq<GameEvent>)
    ensures TriggerAll(s, fs).historicalCandleCount == s.historicalCandleCount
    decreases |fs|
  {
    if fs != [] {
      TriggerAllKeepsCount(s, fs[..|fs| - 1]);
    }
  }

  /** The event check is the triggering of exactly the events that fire. */
  lemma {:induction false} CheckEventsTriggersFired(snapshot: GameState, events: seq<GameEvent>, draws: seq<real>, s: GameState)
    requires |draws| == |events|
    ensures CheckEvents(snapshot, events, draws, s) == TriggerAll(s, Fired(snapshot, events, draws))
    decreases |events|
  {
    if events != [] {
      var fires := Fires(snapshot, events[0], draws[0]);
      var next := if fires then TriggerEvent(s, events[0]) else s;
      var rest := Fired(snapshot, events[1..], draws[1..]);
      CheckEventsTriggersFired(snapshot, events[1..], draws[1..], next);
      TriggerAllConcat(s, if fires then [events[0]] else [], rest);
    }
  }

  /** Triggering two runs one after the other is triggering their concatenation. */
  lemma {:induction false} TriggerAllConcat(s: GameState, a: seq<GameEvent>, b: seq<GameEvent>)
    ensures TriggerAll(TriggerAll(s, a), b) == TriggerAll(s, a + b)
    decreases |b|
  {
    if b == [] {
      assert a + b == a;
    } else {
      var binit := b[..|b| - 1];
      TriggerAllConcat(s, a, binit);
      assert (a + b)[..|a + b| - 1] == a + binit;
      assert (a + b)[|a + b| - 1] == b[|b| - 1];
      assert TriggerAll(s, a + b) == TriggerEvent(TriggerAll(s, a + binit), b[|b| - 1]);
    }
  }

  // ----- growth rate -----

  function Pow(b: real, k: nat): (r: real)
    ensures b >= 1.0 ==> r >= 1.0
  {
    if k == 0 then 1.0 else b * Pow(b, k - 1)
  }

  /** One more factor in a scaled power. */
  lemma PowStep(c: real, b: real, k: nat)
    ensures c * Pow(b, k) * b == c * Pow(b, k + 1)
  {
    assert Pow(b, k + 1) == b * Pow(b, k);
  }

  /** How many of the effects come from the given source id. */
  function CountFrom(effects: seq<ActiveEffect>, id: string): (n: nat)
    ensures n <= |effects|
  {
    if effects == [] then 0
    else CountFrom(effects[..|effects| - 1], id) + (if effects[|effects| - 1].upgradeId == id then 1 else 0)
  }

  /** The rate `calculateCurrentGrowthRate` computes: the base rate, times 1.2
      for every active `rd_pos_consensus` effect. */
  function GrowthRateFor(effects: seq<ActiveEffect>): (r: real)
    ensures r >= BaseGrowthRate
  {
    BaseGrowthRate * Pow(PosConsensusBonus, CountFrom(effects, PosConsensusId))
  }

  /** Effects from any other source leave the rate at its base. */
  lemma {:induction false} NoPosEffectMeansBaseRate(effects: seq<ActiveEffect>)
    requires forall e :: e in effects ==> e.upgradeId != PosConsensusId
    ensures GrowthRateFor(effects) == BaseGrowthRate
  {
    NoMatchCountsZero(effects, PosConsensusId);
  }

  lemma {:induction false} NoMatchCountsZero(effects: seq<ActiveEffect>, id: string)
    requires forall e :: e in effects ==> e.upgradeId != id
    ensures CountFrom(effects, id) == 0
  {
    if effects != [] {
      var init := effects[..|effects| - 1];
      assert forall e :: e in init ==> e in effects;
      NoMatchCountsZero(init, id);
    }
  }

  // ----- candle generation -----

  /** The five `Random.nextFloat()` draws `generateNextCandle` makes, in order. */
  datatype CandleDraws = CandleDraws(green: real, dramatic: real, change: real, highNoise: real, lowNoise: real)

  /** Each draw lies in [0, 1), as `nextFloat` promises. */
  predicate DrawsInRange(d: CandleDraws) {
    && 0.0 <= d.green < 1.0 && 0.0 <= d.dramatic < 1.0 && 0.0 <= d.change < 1.0
    && 0.0 <= d.highNoise < 1.0 && 0.0 <= d.lowNoise < 1.0
  }

  function Abs(x: real): real { if x < 0.0 then -x else x }
  function Max(a: real, b: real): real { if a >= b then a else b }
  function Min(a: real, b: real): real { if a <= b then a else b }

  /** The signed move before the direction is applied. */
  function Change(baselineIncrease: real, d: CandleDraws): real {
    baselineIncrease * if d.dramatic < 0.15 then (d.change - 0.3) * 3.5 else (d.change - 0.45) * 0.8
  }

  /** With a non-negative baseline and a change draw in [0, 1), a dramatic
      move lies between -1.05 and 2.45 baselines and a normal one between
      -0.36 and 0.44. */
  lemma ChangeBounds(baselineIncrease: real, d: CandleDraws)
    requires baselineIncrease >= 0.0 && 0.0 <= d.change < 1.0
    ensures d.dramatic < 0.15 ==>
      baselineIncrease * -1.05 <= Change(baselineIncrease, d) <= baselineIncrease * 2.45
    ensures d.dramatic >= 0.15 ==>
      baselineIncrease * -0.36 <= Change(baselineIncrease, d) <= baselineIncrease * 0.44
  {
    var b := baselineIncrease;
    if d.dramatic < 0.15 {
      var f := (d.change - 0.3) * 3.5;
      assert Change(b, d) == b * f;
      ScaleBetween(b, f, -1.05, 2.45);
      assert b * -1.05 <= b * f <= b * 2.45;
      assert b * -1.05 <= Change(b, d) <= b * 2.45;
    } else {
      var f := (d.change - 0.45) * 0.8;
      assert Change(b, d) == b * f;
      ScaleBetween(b, f, -0.36, 0.44);
      assert b * -0.36 <= b * f <= b * 0.44;
      assert b * -0.36 <= Change(b, d) <= b * 0.44;
    }
    assert d.dramatic >= 0.15 ==> Change(b, d) == b * ((d.change - 0.45) * 0.8);
  }

  /** Scaling a bounded factor by a non-negative amount scales its bounds. */
  lemma ScaleBetween(b: real, f: real, lo: real, hi: real)
    requires b >= 0.0 && lo <= f <= hi
    ensures b * lo <= b * f <= b * hi
  {
    assert b * f - b * lo == b * (f - lo);
    assert b * hi - b * f == b * (hi - f);
  }

  /** The close before the 0.1 floor. */
  function RawClose(open: real, baselineIncrease: real, d: CandleDraws): (r: real)
    ensures d.green < 0.7 ==> r >= open
    ensures d.green >= 0.7 ==> r <= open
    ensures Abs(r - open) == Abs(Change(baselineIncrease, d))
  {
    if d.green < 0.7 then open + Abs(Change(baselineIncrease, d)) else open - Abs(Change(baselineIncrease, d))
  }

  /** `generateNextCandle`: opens at the previous close; a green candle (first
      draw under 0.7) moves up and a red one down by the change; high and low
      widen the body by up to 3%; the close is floored at 0.1. */
  function GenerateNextCandle(previousClose: real, baselineIncrease: real, d: CandleDraws): (c: CandleData)
    ensures c.open == previousClose
    ensures c.close >= MinClose
    ensures c.close == Max(MinClose, RawClose(previousClose, baselineIncrease, d))
    ensures d.green < 0.7 ==> c.close >= previousClose
    ensures d.green >= 0.7 ==> c.close <= previousClose || c.close == MinClose
  {
    var open := previousClose;
    var close := RawClose(open, baselineIncrease, d);
    var high := Max(open, close) * (1.0 + d.highNoise * 0.03);
    var low := Min(open, close) * (1.0 - d.lowNoise * 0.03);
    CandleData(open, high, low, Max(MinClose, close))
  }

  /** Widening a non-negative value by a non-negative fraction does not shrink it. */
  lemma WidenUp(x: real, f: real)
    requires x >= 0.0 && f >= 0.0
    ensures x * (1.0 + f) >= x
  {
    assert x * (1.0 + f) == x + x * f;
  }

  /** Narrowing by a fraction below 1 keeps a value at most itself and keeps
      its sign. */
  lemma WidenDown(x: real, f: real)
    requires 0.0 <= f < 1.0
    ensures x >= 0.0 ==> x * (1.0 - f) <= x
    ensures x < 0.0 ==> x * (1.0 - f) < 0.0
  {
    assert x * (1.0 - f) == x - x * f;
  }

  /** With draws in range and an open at or above the floor, the high is at
      least the body's top and the low at most its bottom. */
  lemma CandleEnclosesBody(previousClose: real, baselineIncrease: real, d: CandleDraws)
    requires DrawsInRange(d) && previousClose >= MinClose
    ensures var c := GenerateNextCandle(previousClose, baselineIncrease, d);
      c.low <= Min(c.open, c.close) && Max(c.open, c.close) <= c.high
  {
    var open := previousClose;
    var close := RawClose(open, baselineIncrease, d);
    var c := GenerateNextCandle(previousClose, baselineIncrease, d);
    var top, bottom := Max(open, close), Min(open, close);
    var up, down := d.highNoise * 0.03, d.lowNoise * 0.03;
    WidenUp(top, up);
    WidenDown(bottom, down);
    assert c.high == top * (1.0 + up);
    assert c.low == bottom * (1.0 - down);
    assert c.close >= close && c.close >= MinClose;
    assert Min(c.open, c.close) >= bottom;
    assert Min(c.open, c.close) >= MinClose;
  }

  /** The close is floored but the low is not: a dramatic red candle from a
      low price has a negative low. */
  lemma NegativeLowCanOccur()
    ensures DrawsInRange(CandleDraws(0.9, 0.0, 0.9, 0.0, 0.0))
    ensures GenerateNextCandle(0.5, BaseGrowthRate, CandleDraws(0.9, 0.0, 0.9, 0.0, 0.0)).low < 0.0
    ensures GenerateNextCandle(0.5, BaseGrowthRate, CandleDraws(0.9, 0.0, 0.9, 0.0, 0.0)).close == MinClose
  {
  }

  // ----- one tick -----

  /** The close the next candle opens at: the last close, or 1 with no candles. */
  function PreviousClose(history: seq<CandleData>): (r: real)
    ensures history == [] ==> r == DefaultClose
    ensures history != [] ==> r == history[|history| - 1].close
    ensures history == [] || history[|history| - 1].close >= MinClose ==> r >= MinClose
  {
    match LastClose(history)
    case Some(p) => p
    case None => DefaultClose
  }

  /** The state after the effect countdown and the event check, before the
      candle is appended. */
  function AfterEvents(s: GameState, eventDraws: seq<real>): (r: GameState)
    requires |eventDraws| == |EventsDatabase.AllEvents|
    ensures r.candleHistory == s.candleHistory
    ensures r.playerPortfolio == s.playerPortfolio && r.purchasedUpgradeIds == s.purchasedUpgradeIds
    ensures r.historicalCandleCount == s.historicalCandleCount
    ensures s.triggeredOneTimeEventIds <= r.triggeredOneTimeEventIds
    ensures |s.newsFeed| <= MaxNews ==> |r.newsFeed| <= MaxNews
  {
    var s1 := ProcessEffectsTick(s);
    CheckEvents(s1, EventsDatabase.AllEvents, eventDraws, s1)
  }

  /** The update at the end of the loop body: the candle is appended, the
      history keeps its last 30, the count goes up by one and the rate is
      stored. */
  function AppendCandle(s: GameState, candle: CandleData, rate: real): (r: GameState)
    ensures 1 <= |r.candleHistory| <= MaxCandles
    ensures r.candleHistory[|r.candleHistory| - 1] == candle
    ensures r.candleHistory == TakeLast(s.candleHistory + [candle], MaxCandles)
    ensures |s.candleHistory| < MaxCandles ==> r.candleHistory == s.candleHistory + [candle]
    ensures |s.candleHistory| == MaxCandles ==> r.candleHistory == s.candleHistory[1..] + [candle]
    ensures r.historicalCandleCount == Wrap32(s.historicalCandleCount + 1)
    ensures r.currentGrowthRate == rate
    ensures r.playerPortfolio == s.playerPortfolio && r.purchasedUpgradeIds == s.purchasedUpgradeIds
    ensures r.activeEffects == s.activeEffects && r.newsFeed == s.newsFeed
    ensures r.triggeredOneTimeEventIds == s.triggeredOneTimeEventIds
  {
    var history := TakeLast(s.candleHistory + [candle], MaxCandles);
    assert history[|history| - 1] == candle;
    s.(candleHistory := history,
       historicalCandleCount := Wrap32(s.historicalCandleCount + 1),
       currentGrowthRate := rate)
  }

  /** One pass of the candle loop: count effects down, check the events, work
      out the growth rate, generate the candle and append it. */
  function Tick(s: GameState, eventDraws: seq<real>, candleDraws: CandleDraws): (r: GameState)
    requires |eventDraws| == |EventsDatabase.AllEvents|
    ensures 1 <= |r.candleHistory| <= MaxCandles
    ensures r.candleHistory == TakeLast(s.candleHistory + [r.candleHistory[|r.candleHistory| - 1]], MaxCandles)
    ensures r.candleHistory[|r.candleHistory| - 1].open == PreviousClose(s.candleHistory)
    ensures r.candleHistory[|r.candleHistory| - 1].close >= MinClose
    ensures r.historicalCandleCount == Wrap32(s.historicalCandleCount + 1)
    ensures r.currentGrowthRate == BaseGrowthRate * Pow(PosConsensusBonus, CountFrom(r.activeEffects, PosConsensusId))
    ensures r.playerPortfolio == s.playerPortfolio
    ensures r.purchasedUpgradeIds == s.purchasedUpgradeIds
    ensures s.triggeredOneTimeEventIds <= r.triggeredOneTimeEventIds
    ensures |s.newsFeed| <= MaxNews ==> |r.newsFeed| <= MaxNews
  {
    var s2 := AfterEvents(s, eventDraws);
    var rate := GrowthRateFor(s2.activeEffects);
    var candle := GenerateNextCandle(PreviousClose(s2.candleHistory), rate, candleDraws);
    AppendCandle(s2, candle, rate)
  }

  /** The news a tick adds is exactly that of the events that fire, newest
      first, in front of the old feed, cut to 50. */
  lemma TickNews(s: GameState, eventDraws: seq<real>, candleDraws: CandleDraws)
    requires |eventDraws| == |EventsDatabase.AllEvents|
    ensures var fs := Fired(ProcessEffectsTick(s), EventsDatabase.AllEvents, eventDraws);
      var r := Tick(s, eventDraws, candleDraws);
      && (fs == [] ==> r.newsFeed == s.newsFeed)
      && (fs != [] ==> r.newsFeed == Take(NewsItems(fs, s.historicalCandleCount) + s.newsFeed, MaxNews))
  {
    var s1 := ProcessEffectsTick(s);
    var fs := Fired(s1, EventsDatabase.AllEvents, eventDraws);
    CheckEventsTriggersFired(s1, EventsDatabase.AllEvents, eventDraws, s1);
    TriggerAllEffects(s1, fs);
    if fs != [] { TriggerAllNews(s1, fs); }
  }

  /** A one-time event already recorded when a tick starts is not among the
      events that tick fires, whatever the draws; and a one-time event that
      does fire is recorded, so it cannot fire in any later tick. */
  lemma OneTimeEventFiresOnce(s: GameState, eventDraws: seq<real>, candleDraws: CandleDraws, e: GameEvent)
    requires |eventDraws| == |EventsDatabase.AllEvents|
    requires e.isOneTime
    ensures var fs := Fired(ProcessEffectsTick(s), EventsDatabase.AllEvents, eventDraws);
      && (e.id in s.triggeredOneTimeEventIds ==> e !in fs)
      && (e in fs ==> e.id in Tick(s, eventDraws, candleDraws).triggeredOneTimeEventIds)
  {
    var s1 := ProcessEffectsTick(s);
    var fs := Fired(s1, EventsDatabase.AllEvents, eventDraws);
    CheckEventsTriggersFired(s1, EventsDatabase.AllEvents, eventDraws, s1);
    TriggerAllEffects(s1, fs);
    if e in fs {
      assert e.id in OneTimeIds(fs);
    }
  }

  /** `crisis_interest_rate` never fires: its only condition is of a kind the
      evaluator treats as false. */
  lemma InterestRateCrisisNeverFires(s: GameState, eventDraws: seq<real>)
    requires |eventDraws| == |EventsDatabase.AllEvents|
    ensures EventsDatabase.CrisisInterestRate !in Fired(s, EventsDatabase.AllEvents, eventDraws)
  {
    forall d ensures !Fires(s, EventsDatabase.CrisisInterestRate, d) {
      UnimplementedKindBlocks(EventsDatabase.CrisisInterestRate.triggerConditions, s, 0);
    }
  }

  /** `review_pos_update` fires only once `rd_pos_consensus` is owned. */
  lemma PosReviewNeedsUpgrade(s: GameState, eventDraws: seq<real>)
    requires |eventDraws| == |EventsDatabase.AllEvents|
    requires "rd_pos_consensus" !in s.purchasedUpgradeIds
    ensures EventsDatabase.ReviewPosUpdate !in Fired(s, EventsDatabase.AllEvents, eventDraws)
  {
    forall d ensures !Fires(s, EventsDatabase.ReviewPosUpdate, d) {
      assert !ConditionHolds(EventsDatabase.ReviewPosUpdate.triggerConditions[0], s);
    }
  }
  // ----- the candle loop and the state invariant -----

  /** The draws of one pass of the candle loop. */
  datatype TickDraws = TickDraws(events: seq<real>, candle: CandleDraws)

  /** The candle loop run once per element of the draws. */
  function Ticks(s: GameState, draws: seq<TickDraws>): (r: GameState)
    requires forall d :: d in draws ==> |d.events| == |EventsDatabase.AllEvents|
    ensures draws != [] ==> 1 <= |r.candleHistory| <= MaxCandles
    ensures draws == [] ==> r == s
    ensures r.playerPortfolio == s.playerPortfolio
    ensures r.purchasedUpgradeIds == s.purchasedUpgradeIds
    ensures s.triggeredOneTimeEventIds <= r.triggeredOneTimeEventIds
    ensures |s.newsFeed| <= MaxNews ==> |r.newsFeed| <= MaxNews
    decreases |draws|
  {
    if draws == [] then s
    else
      assert draws[0] in draws;
      var t := Tick(s, draws[0].events, draws[0].candle);
      assert forall d :: d in draws[1..] ==> d in draws;
      Ticks(t, draws[1..])
  }

  /** The bounds every reachable state keeps: between 1 and 30 candles and
      at most 50 news items. */
  predicate Bounded(s: GameState) {
    1 <= |s.candleHistory| <= MaxCandles && |s.newsFeed| <= MaxNews
  }

  /** The default state is within the bounds, and every action and every
      tick keeps a state within them. */
  lemma BoundedInvariant(s: GameState, upgradeId: string, eventDraws: seq<real>, candleDraws: CandleDraws)
    requires Bounded(s)
    ensures Bounded(CreateDefaultGameState())
    ensures Bounded(Buy(s)) && Bounded(Sell(s)) && Bounded(PurchaseUpgrade(s, upgradeId))
    ensures |eventDraws| == |EventsDatabase.AllEvents| ==> Bounded(Tick(s, eventDraws, candleDraws))
  {
  }

  /** Over any number of ticks a state within the bounds (1 to 30 candles, at
      most 50 news items) stays within them. */
  lemma TicksKeepBounds(s: GameState, draws: seq<TickDraws>)
    requires Bounded(s)
    requires forall d :: d in draws ==> |d.events| == |EventsDatabase.AllEvents|
    ensures Bounded(Ticks(s, draws))
  {
  }
}
