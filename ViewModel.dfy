/** The view model: one mutable game state that the player's actions and the
    candle loop overwrite. Each method does what the Kotlin method does, step
    by step, and is proved to leave the state that the matching transition
    of `GameLogic` computes. */
module ViewModel {
  import opened Models
  import GameLogic
  import EventsDatabase
  import UpgradesDatabase

  class GameViewModel {
    /** `_gameState`. */
    var gameState: GameState

    /** A new view model starts from the default state. */
    constructor()
      ensures gameState == GameLogic.CreateDefaultGameState()
    {
      gameState := GameLogic.CreateDefaultGameState();
    }

    /** `performBuyTransaction`. */
    method PerformBuyTransaction()
      modifies this
      ensures gameState == GameLogic.Buy(old(gameState))
    {
      var currentState := gameState;
      if currentState.candleHistory == [] {
        return;
      }
      var currentPrice := currentState.candleHistory[|currentState.candleHistory| - 1].close;
      var cost := GameLogic.TradeLot as real * currentPrice;
      if currentState.playerPortfolio.cash >= cost {
        var it := gameState;
        gameState := it.(playerPortfolio := it.playerPortfolio.(
          cash := it.playerPortfolio.cash - cost,
          coins := Wrap32(it.playerPortfolio.coins + GameLogic.TradeLot)));
      }
    }

    /** `performSellTransaction`. */
    method PerformSellTransaction()
      modifies this
      ensures gameState == GameLogic.Sell(old(gameState))
    {
      var currentState := gameState;
      if currentState.candleHistory == [] {
        return;
      }
      var currentPrice := currentState.candleHistory[|currentState.candleHistory| - 1].close;
      var revenue := GameLogic.TradeLot as real * currentPrice;
      if currentState.playerPortfolio.coins >= GameLogic.TradeLot {
        var it := gameState;
        gameState := it.(playerPortfolio := it.playerPortfolio.(
          cash := it.playerPortfolio.cash + revenue,
          coins := it.playerPortfolio.coins - GameLogic.TradeLot));
      }
    }

    /** `purchaseUpgrade`. */
    method PurchaseUpgrade(upgradeId: string)
      modifies this
      ensures gameState == GameLogic.PurchaseUpgrade(old(gameState), upgradeId)
    {
      if upgradeId !in UpgradesDatabase.AllUpgrades {
        return;
      }
      var upgrade := UpgradesDatabase.AllUpgrades[upgradeId];
      var currentState := gameState;
      if currentState.playerPortfolio.cash < upgrade.cost {
        return;
      }
      if upgradeId in currentState.purchasedUpgradeIds {
        return;
      }
      var state := gameState;
      var newPortfolio := state.playerPortfolio.(cash := state.playerPortfolio.cash - upgrade.cost);
      var newPurchasedIds := state.purchasedUpgradeIds + {upgradeId};
      var newActiveEffects := state.activeEffects;
      if upgrade.effectDurationInCandles > 0 {
        newActiveEffects := state.activeEffects + [ActiveEffect(upgradeId, upgrade.effectDurationInCandles)];
      }
      gameState := state.(playerPortfolio := newPortfolio, purchasedUpgradeIds := newPurchasedIds,
                          activeEffects := newActiveEffects);
    }

    /** `loadGame`, with the stored state passed in: a state that was found
        replaces the current one, and none leaves it as it is. */
    method LoadGame(loadedState: Option<GameState>)
      modifies this
      ensures loadedState.Some? ==> gameState == loadedState.value
      ensures loadedState.None? ==> gameState == old(gameState)
    {
      if loadedState.Some? {
        gameState := loadedState.value;
      }
    }

    /** `startNewGame`: back to the default state. */
    method StartNewGame()
      modifies this
      ensures gameState == GameLogic.CreateDefaultGameState()
    {
      gameState := GameLogic.CreateDefaultGameState();
    }

    /** `processEffectsTick`. */
    method ProcessEffectsTick()
      modifies this
      ensures gameState == GameLogic.ProcessEffectsTick(old(gameState))
    {
      var currentState := gameState;
      if currentState.activeEffects == [] {
        return;
      }
      var updatedEffects := GameLogic.TickEffects(currentState.activeEffects);
      gameState := currentState.(activeEffects := updatedEffects);
    }

    /** `triggerEvent`: news to the front, effect appended, one-time id
        recorded. The candle this method also generates in the source is
        never stored and is left out. */
    method TriggerEvent(event: GameEvent)
      modifies this
      ensures gameState == GameLogic.TriggerEvent(old(gameState), event)
    {
      var currentState := gameState;
      var newNewsItem := NewsItem(event.id, event.headline, currentState.historicalCandleCount);
      var updatedNewsFeed := GameLogic.Take([newNewsItem] + currentState.newsFeed, GameLogic.MaxNews);
      var updatedEffects := currentState.activeEffects;
      if !(event.isDummy || event.effectType.None?) {
        var duration := if event.effectDurationInCandles.Some? then event.effectDurationInCandles.value else 0;
        updatedEffects := currentState.activeEffects + [ActiveEffect(event.id, duration)];
      }
      var updatedOneTimeEvents := currentState.triggeredOneTimeEventIds;
      if event.isOneTime {
        updatedOneTimeEvents := currentState.triggeredOneTimeEventIds + {event.id};
      }
      gameState := currentState.(newsFeed := updatedNewsFeed, activeEffects := updatedEffects,
                                 triggeredOneTimeEventIds := updatedOneTimeEvents);
    }

    /** `checkForNewEvents`: the skip and the conditions are judged on the
        state as it was when the check began, each event consumes its own
        draw, and every event that fires is triggered on the current state. */
    method CheckForNewEvents(draws: seq<real>)
      requires |draws| == |EventsDatabase.AllEvents|
      modifies this
      ensures gameState == GameLogic.CheckEvents(old(gameState), EventsDatabase.AllEvents, draws, old(gameState))
    {
      var currentState := gameState;
      var events := EventsDatabase.AllEvents;
      var i := 0;
      while i < |events|
        invariant 0 <= i <= |events|
        invariant GameLogic.CheckEvents(currentState, events[i..], draws[i..], gameState)
               == GameLogic.CheckEvents(currentState, events, draws, currentState)
      {
        var event := events[i];
        assert events[i..][1..] == events[i + 1..] && draws[i..][1..] == draws[i + 1..];
        if !(event.isOneTime && event.id in currentState.triggeredOneTimeEventIds) {
          var conditionsMet := GameLogic.CheckAllConditions(event.triggerConditions, currentState);
          if conditionsMet && draws[i] < event.triggerChance {
            TriggerEvent(event);
          }
        }
        i := i + 1;
      }
    }

    /** `calculateCurrentGrowthRate`: 0.65, multiplied by 1.2 once for each
        active `rd_pos_consensus` effect, in list order. */
    method CalculateCurrentGrowthRate() returns (modifiedRate: real)
      ensures modifiedRate == GameLogic.GrowthRateFor(gameState.activeEffects)
    {
      var effects := gameState.activeEffects;
      modifiedRate := GameLogic.BaseGrowthRate;
      var i := 0;
      while i < |effects|
        invariant 0 <= i <= |effects|
        invariant modifiedRate == GameLogic.BaseGrowthRate
          * GameLogic.Pow(GameLogic.PosConsensusBonus, GameLogic.CountFrom(effects[..i], GameLogic.PosConsensusId))
      {
        var effect := effects[i];
        assert effects[..i + 1][..i] == effects[..i];
        ghost var k := GameLogic.CountFrom(effects[..i], GameLogic.PosConsensusId);
        if effect.upgradeId == GameLogic.PosConsensusId {
          GameLogic.PowStep(GameLogic.BaseGrowthRate, GameLogic.PosConsensusBonus, k);
          modifiedRate := modifiedRate * GameLogic.PosConsensusBonus;
        }
        i := i + 1;
      }
      assert effects[..i] == effects;
    }

    /** One pass of the body of `startCandleGeneration`'s loop, with the
        draws of the event check and of the candle passed in. */
    method Tick(eventDraws: seq<real>, candleDraws: GameLogic.CandleDraws)
      requires |eventDraws| == |EventsDatabase.AllEvents|
      modifies this
      ensures gameState == GameLogic.Tick(old(gameState), eventDraws, candleDraws)
    {
      ProcessEffectsTick();
      CheckForNewEvents(eventDraws);
      var dynamicGrowthRate := CalculateCurrentGrowthRate();
      var lastClose := GameLogic.PreviousClose(gameState.candleHistory);
      var newCandle := GameLogic.GenerateNextCandle(lastClose, dynamicGrowthRate, candleDraws);
      AppendCandle(newCandle, dynamicGrowthRate);
    }

    /** The state update that ends a pass of the candle loop: the candle is
        appended and the history cut to its last 30, the count goes up by
        one and the rate is stored. */
    method AppendCandle(newCandle: CandleData, dynamicGrowthRate: real)
      modifies this
      ensures gameState == GameLogic.AppendCandle(old(gameState), newCandle, dynamicGrowthRate)
    {
      var currentState := gameState;
      var updatedHistory := GameLogic.TakeLast(currentState.candleHistory + [newCandle], GameLogic.MaxCandles);
      gameState := currentState.(candleHistory := updatedHistory,
                                 historicalCandleCount := Wrap32(currentState.historicalCandleCount + 1),
                                 currentGrowthRate := dynamicGrowthRate);
    }

    /** The candle loop run for as many passes as there are draws. */
    method RunCandles(draws: seq<GameLogic.TickDraws>)
      requires forall d :: d in draws ==> |d.events| == |EventsDatabase.AllEvents|
      modifies this
      ensures gameState == GameLogic.Ticks(old(gameState), draws)
    {
      var i := 0;
      while i < |draws|
        invariant 0 <= i <= |draws|
        invariant GameLogic.Ticks(gameState, draws[i..]) == GameLogic.Ticks(old(gameState), draws)
      {
        assert draws[i..][0] == draws[i] && draws[i..][1..] == draws[i + 1..];
        assert draws[i] in draws;
        Tick(draws[i].events, draws[i].candle);
        i := i + 1;
      }
    }
  }
}
