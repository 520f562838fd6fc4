/** The routine stops of pmm_mister: orders gone stale by age or distance, and filled executors
    whose position has been held long enough. */
module StopProposals {
  import opened Results
  import opened RealFacts
  import opened PmmMisterModel
  import opened LevelAdmission

  /** Where the level would be quoted now; levels no longer configured count as at the reference. */
  function TheoreticalPrice(level: Level, f: Feed, c: Config): real
    requires level.Quote?
  {
    if level.index < Levels(level.side, c) then OrderPrice(level, f, c) else f.reference
  }

  function RefreshTolerance(level: nat, c: Config): real { c.refreshTolerance * Power(c.toleranceScaling, level) }

  /** Close orders carry no entry price and are never too far. */
  predicate TooFar(e: Executor, f: Feed, c: Config) {
    e.level.Quote?
    && var price := TheoreticalPrice(e.level, f, c);
       price != 0.0 && Abs(e.entryPrice - price) / price > RefreshTolerance(e.level.index, c)
  }

  predicate NeedsRefresh(e: Executor, f: Feed, c: Config) {
    e.active && !e.trading && (f.now - e.timestamp > c.refreshTime || (f.reference > 0.0 && TooFar(e, f, c)))
  }

  function Effectivization(level: Level, c: Config): real {
    if level.Quote? && level.side == Buy then c.buyEffectivization else c.sellEffectivization
  }

  predicate Effective(e: Executor, f: Feed, c: Config) {
    e.active && e.trading && e.lastUpdate.Some?
    && Max(0.0, Effectivization(e.level, c) - (f.now - e.lastUpdate.value)) == 0.0
  }

  function Refreshed(es: seq<Executor>, f: Feed, c: Config): seq<Action> {
    if es == [] then []
    else
      var last := es[|es| - 1];
      Refreshed(es[..|es| - 1], f, c) + if NeedsRefresh(last, f, c) then [StopKeep(last.id)] else []
  }

  function Effectivized(es: seq<Executor>, f: Feed, c: Config): seq<Action> {
    if es == [] then []
    else
      var last := es[|es| - 1];
      Effectivized(es[..|es| - 1], f, c) + if Effective(last, f, c) then [StopKeep(last.id)] else []
  }

  function Stops(es: seq<Executor>, f: Feed, c: Config): seq<Action> { Refreshed(es, f, c) + Effectivized(es, f, c) }

  method StopActionsProposal(es: seq<Executor>, f: Feed, c: Config) returns (actions: seq<Action>)
    ensures actions == Stops(es, f, c)
  {
    var refresh: seq<Action>, effective: seq<Action> := [], [];
    for k := 0 to |es|
      invariant refresh == Refreshed(es[..k], f, c) && effective == Effectivized(es[..k], f, c)
    {
      hide NeedsRefresh, Effective;
      assert es[..k + 1][..k] == es[..k];
      if NeedsRefresh(es[k], f, c) {
        refresh := refresh + [StopKeep(es[k].id)];
      }
      if Effective(es[k], f, c) {
        effective := effective + [StopKeep(es[k].id)];
      }
    }
    assert es[..|es|] == es;
    actions := refresh + effective;
  }

  lemma {:induction false} SourcesOfStops(es: seq<Executor>, f: Feed, c: Config)
    ensures forall a :: a in Refreshed(es, f, c) <==>
              a.StopKeep? && exists e | e in es :: e.id == a.id && NeedsRefresh(e, f, c)
    ensures forall a :: a in Effectivized(es, f, c) <==>
              a.StopKeep? && exists e | e in es :: e.id == a.id && Effective(e, f, c)
  {
    hide NeedsRefresh, Effective;
    if es != [] {
      SourcesOfStops(es[..|es| - 1], f, c);
      assert es == es[..|es| - 1] + [es[|es| - 1]];
    }
  }

  lemma StopsAreStops(es: seq<Executor>, f: Feed, c: Config)
    ensures forall a | a in Stops(es, f, c) :: a.StopKeep?
  {
    hide NeedsRefresh, Effective;
    SourcesOfStops(es, f, c);
  }

  ghost predicate UniqueIds(es: seq<Executor>) {
    forall i, j | 0 <= i < j < |es| :: es[i].id != es[j].id
  }

  /** With unique ids an executor is stopped exactly when it is a stale unfilled order, or a filled
      one held for at least the effectivization time of its side; never for both reasons. */
  lemma StoppedIff(es: seq<Executor>, f: Feed, c: Config, e: Executor)
    requires UniqueIds(es) && e in es
    ensures StopKeep(e.id) in Stops(es, f, c) <==>
              || NeedsRefresh(e, f, c)
              || (e.active && e.trading && e.lastUpdate.Some?
                  && f.now - e.lastUpdate.value >= Effectivization(e.level, c))
    ensures !(StopKeep(e.id) in Refreshed(es, f, c) && StopKeep(e.id) in Effectivized(es, f, c))
  {
    hide TooFar, Effectivization;
    SourcesOfStops(es, f, c);
    assert forall x | x in es && x.id == e.id :: x == e;
  }
}
