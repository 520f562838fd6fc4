/** The routine stops of a pmm_mister tick in plain terms. */
module StopTerms {
  import opened Results
  import opened RealFacts
  import opened PmmMisterModel
  import opened LevelAdmission
  import opened EntryTerms
  import opened StopProposals

  /** Where the level of an order would be quoted now; a level that is gone counts as at the reference price. */
  function PlannedPrice(side: Side, i: nat, f: Feed, c: Config): real {
    if i < |SideSpreads(side, c)| then QuotedAt(side, i, f, c) else f.reference
  }

  /** The entry price lies further from the planned price than the level's share of it allows. */
  predicate OffPlan(entry: real, planned: real, share: real) {
    var off := if entry <= planned then planned - entry else entry - planned;
    (planned > 0.0 && off > share * planned) || (planned < 0.0 && off < share * planned)
  }

  function AllowedShare(i: nat, c: Config): real { c.refreshTolerance * Power(c.toleranceScaling, i) }

  /** An unfilled order that is too old, or whose level has moved away from it. */
  predicate Stale(e: Executor, f: Feed, c: Config) {
    && e.active && !e.trading
    && (|| f.now > e.timestamp + c.refreshTime
        || (f.reference > 0.0 && e.level.Quote?
            && OffPlan(e.entryPrice, PlannedPrice(e.level.side, e.level.index, f, c), AllowedShare(e.level.index, c))))
  }

  /** A filled executor held for the effectivization time of its side; a close order counts as a sell. */
  predicate HeldLongEnough(e: Executor, f: Feed, c: Config) {
    && e.active && e.trading && e.lastUpdate.Some?
    && f.now >= e.lastUpdate.value + (if e.level.Quote? && e.level.side != Sell then c.buyEffectivization
                                      else c.sellEffectivization)
  }

  lemma OffPlanIs(entry: real, planned: real, share: real)
    requires planned != 0.0
    ensures Abs(entry - planned) / planned > share <==> OffPlan(entry, planned, share)
  {
    var off := Abs(entry - planned);
    var q := off / planned;
    assert q * planned == off;
    var d := q - share;
    assert d * planned == off - share * planned;
    ProductSigns(d, planned);
  }

  lemma ProductSigns(x: real, y: real)
    ensures x > 0.0 && y > 0.0 ==> x * y > 0.0
    ensures x > 0.0 && y < 0.0 ==> x * y < 0.0
    ensures x <= 0.0 && y > 0.0 ==> x * y <= 0.0
    ensures x <= 0.0 && y < 0.0 ==> x * y >= 0.0
  {
  }

  lemma PlannedIs(level: Level, f: Feed, c: Config)
    requires level.Quote?
    ensures TheoreticalPrice(level, f, c) == PlannedPrice(level.side, level.index, f, c)
  {
    hide OrderPrice, QuotedAt;
    if level.index < |SideSpreads(level.side, c)| {
      QuotedIsPrice(level.side, level.index, f, c);
    }
  }

  lemma StaleIs(e: Executor, f: Feed, c: Config)
    ensures NeedsRefresh(e, f, c) <==> Stale(e, f, c)
  {
    hide TheoreticalPrice, PlannedPrice, RefreshTolerance, AllowedShare, OffPlan;
    if e.level.Quote? {
      var planned, share := PlannedPrice(e.level.side, e.level.index, f, c), RefreshTolerance(e.level.index, c);
      PlannedIs(e.level, f, c);
      ShareIs(e.level.index, c);
      AtZero(e.entryPrice, share);
      if planned != 0.0 {
        OffPlanIs(e.entryPrice, planned, share);
      }
    }
  }

  lemma ShareIs(i: nat, c: Config)
    ensures RefreshTolerance(i, c) == AllowedShare(i, c)
  {
    hide Power;
  }

  lemma AtZero(entry: real, share: real)
    ensures !OffPlan(entry, 0.0, share)
  {
  }

  /** With unique ids an executor is stopped exactly when it is stale or has been held long enough. */
  lemma StopIff(es: seq<Executor>, f: Feed, c: Config, e: Executor)
    requires UniqueIds(es) && e in es
    ensures StopKeep(e.id) in Stops(es, f, c) <==> Stale(e, f, c) || HeldLongEnough(e, f, c)
  {
    hide NeedsRefresh, Stale, Stops, UniqueIds;
    StaleIs(e, f, c);
    StoppedIff(es, f, c, e);
  }

  /** Every stop is for a listed executor that is stale or has been held long enough. */
  lemma StopComesFrom(es: seq<Executor>, f: Feed, c: Config, a: Action)
    requires a in Stops(es, f, c)
    ensures a.StopKeep? && exists e | e in es :: e.id == a.id && (Stale(e, f, c) || HeldLongEnough(e, f, c))
  {
    hide NeedsRefresh, Stale;
    SourcesOfStops(es, f, c);
    if e :| e in es && a.StopKeep? && e.id == a.id && NeedsRefresh(e, f, c) {
      StaleIs(e, f, c);
    }
  }
}
