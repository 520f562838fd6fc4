/** The vocabulary of the pmm_mister controller: executors, levels, settings, actions. */
module PmmMisterModel {
  import opened Results

  datatype Side = Buy | Sell

  function Opposite(s: Side): Side { if s == Buy then Sell else Buy }

  /** Level identifiers: `buy_i`, `sell_i` and the reserved `global_close`. */
  datatype Level = Quote(side: Side, index: nat) | GlobalClose

  datatype Executor = Executor(id: nat, level: Level, active: bool, trading: bool, entryPrice: real,
                               timestamp: real, lastUpdate: Option<real>)

  datatype Activation = Always | MinBase | TargetBase | MaxBase

  datatype Config = Config(
    isShort: bool, minBase: real, targetBase: real, maxBase: real, minSkew: real,
    totalQuote: real, allocation: real,
    buySpreads: seq<real>, sellSpreads: seq<real>, buyWeights: seq<real>, sellWeights: seq<real>,
    maxActive: nat, profitProtection: bool,
    buyCooldown: real, sellCooldown: real, distanceTolerance: real, toleranceScaling: real,
    refreshTime: real, refreshTolerance: real, buyEffectivization: real, sellEffectivization: real,
    tpEnabled: bool, slEnabled: bool, tpFrom: Activation, slFrom: Activation,
    globalTakeProfit: real, globalStopLoss: real)

  /** The position fields of `processed_data`, refreshed at the start of the tick. */
  datatype Position = Position(amount: real, basePct: real, pnlPct: real, breakeven: Option<real>,
                               heldSide: Option<Side>)

  datatype Action =
    | StopKeep(id: nat)                              // stop an executor, keep its position
    | CloseOrder(side: Side, amount: real)           // reduce-only market order, level global_close
    | EntryOrder(level: Level, price: real, amount: real)

  predicate AnyActive(es: seq<Executor>) { exists e | e in es :: e.active }
  predicate AnyActiveClose(es: seq<Executor>) { exists e | e in es :: e.active && e.level == GlobalClose }
  predicate AnyActiveQuote(es: seq<Executor>) { exists e | e in es :: e.active && e.level != GlobalClose }
}
