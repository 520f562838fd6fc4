/** Order refresh of the PMM v1 controller: live orders are kept while their prices can be
    paired off with the proposed prices within a relative tolerance. */
module ToleranceMatching {
  import opened Sorting
  import opened RealFacts

  function Price(x: real): real { x }

  /** One live price against one proposed price, with the guard against a zero price. */
  predicate Close(current: real, proposal: real, tolerance: real) {
    current != 0.0 && Abs(proposal - current) / current <= tolerance
  }

  ghost predicate AllClose(current: seq<real>, proposal: seq<real>, tolerance: real) {
    |current| == |proposal| && forall i | 0 <= i < |current| :: Close(current[i], proposal[i], tolerance)
  }

  ghost predicate NonNegative(prices: seq<real>) {
    forall i | 0 <= i < |prices| :: prices[i] >= 0.0
  }

  /** Some one-to-one pairing: a rearrangement of the proposals that is close entry by entry. */
  ghost predicate Pairable(current: seq<real>, proposal: seq<real>, tolerance: real) {
    exists q :: multiset(q) == multiset(proposal) && AllClose(current, q, tolerance)
  }

  /** What the loop of `_is_within_tolerance` compares: both lists in sorted order. */
  ghost predicate SortedClose(current: seq<real>, proposal: seq<real>, tolerance: real) {
    AllClose(Sort(current, Price), Sort(proposal, Price), tolerance)
  }

  function Slack(c: real, tolerance: real): real { tolerance * c }

  /** The same test without the division. */
  predicate InBand(c: real, p: real, tolerance: real) {
    c > 0.0 && p - c <= Slack(c, tolerance) && c - p <= Slack(c, tolerance)
  }

  lemma CloseIsInBand(c: real, p: real, tolerance: real)
    requires c >= 0.0
    ensures Close(c, p, tolerance) <==> InBand(c, p, tolerance)
  {
    if c > 0.0 {
      QuotientBound(Abs(p - c), c, tolerance);
    }
  }

  /** Slack grows with the price, and a slack above the price itself reaches below zero. */
  lemma SlackBounds(c: real, d: real, t: real)
    requires 0.0 < c <= d && 0.0 <= Slack(c, t)
    ensures Slack(c, t) <= Slack(d, t)
    ensures c - Slack(c, t) <= d - Slack(d, t) || c - Slack(c, t) <= 0.0
  {
    FactorSign(t, c);
    SlackLinear(c, d, t);
    ProductSign(t, d - c);
    if t <= 1.0 {
      ProductSign(1.0 - t, d - c);
    } else {
      ProductSign(t - 1.0, c);
    }
  }

  lemma SlackLinear(c: real, d: real, t: real)
    ensures t * (d - c) == Slack(d, t) - Slack(c, t)
    ensures (1.0 - t) * (d - c) == (d - Slack(d, t)) - (c - Slack(c, t))
    ensures (t - 1.0) * c == Slack(c, t) - c
  {
  }

  lemma FactorSign(t: real, c: real)
    requires c > 0.0 && t * c >= 0.0
    ensures t >= 0.0
  {
  }

  lemma UncrossedBounds(c: real, d: real, p: real, q: real, slackC: real, slackD: real)
    requires 0.0 <= c <= d && 0.0 <= p <= q && 0.0 <= slackC <= slackD
    requires c - slackC <= d - slackD || c - slackC <= 0.0
    requires q - c <= slackC && d - p <= slackD
    ensures p - c <= slackC && c - p <= slackC && q - d <= slackD && d - q <= slackD
  {
  }

  /** The exchange step: uncrossing two pairs that are close leaves two pairs that are close. */
  lemma Uncross(c: real, d: real, p: real, q: real, tolerance: real)
    requires c <= d && 0.0 <= p <= q
    requires InBand(c, q, tolerance) && InBand(d, p, tolerance)
    ensures InBand(c, p, tolerance) && InBand(d, q, tolerance)
  {
    hide Slack;
    SlackBounds(c, d, tolerance);
    UncrossedBounds(c, d, p, q, Slack(c, tolerance), Slack(d, tolerance));
  }

  /** Swap position `j` to the front and drop it: what remains rearranges `b` without its head. */
  lemma BringToFront(q: seq<real>, b: seq<real>, j: nat)
    requires multiset(q) == multiset(b) && j < |q| && b != [] && q[j] == b[0]
    ensures multiset(q[j := q[0]][1..]) == multiset(b[1..])
  {
    var q' := q[j := q[0]];
    assert multiset(q') == multiset(q) - multiset{q[j]} + multiset{q[0]};
    RemoveFirst(q');
    RemoveFirst(b);
  }

  lemma TailClose(a: seq<real>, q: seq<real>, j: nat, tolerance: real)
    requires AllClose(a, q, tolerance) && j < |q|
    requires Close(a[j], q[0], tolerance)
    ensures AllClose(a[1..], q[j := q[0]][1..], tolerance)
  {
  }

  lemma HeadAndTailClose(a: seq<real>, b: seq<real>, tolerance: real)
    requires a != [] && b != [] && Close(a[0], b[0], tolerance) && AllClose(a[1..], b[1..], tolerance)
    ensures AllClose(a, b, tolerance)
  {
    forall i | 0 <= i < |a| ensures Close(a[i], b[i], tolerance) {
      if i > 0 { assert a[i] == a[1..][i - 1] && b[i] == b[1..][i - 1]; }
    }
  }

  lemma UncrossAt(a: seq<real>, q: seq<real>, b: seq<real>, j: nat, tolerance: real)
    requires SortedBy(a, Price) && SortedBy(b, Price) && NonNegative(a) && NonNegative(b)
    requires multiset(q) == multiset(b) && AllClose(a, q, tolerance)
    requires j < |q| && b != [] && q[j] == b[0]
    ensures Close(a[0], b[0], tolerance) && Close(a[j], q[0], tolerance)
  {
    var k := HasIndex(q[0], q, b);
    assert Price(b[0]) <= Price(b[k]) && Price(a[0]) <= Price(a[j]);
    CloseIsInBand(a[0], q[0], tolerance);
    CloseIsInBand(a[j], q[j], tolerance);
    CloseIsInBand(a[0], b[0], tolerance);
    CloseIsInBand(a[j], q[0], tolerance);
    Uncross(a[0], a[j], b[0], q[0], tolerance);
  }

  /** If any arrangement `q` of the sorted proposals `b` fits the sorted prices `a`, then `b` itself fits. */
  lemma {:induction false} SortedPairingSucceeds(a: seq<real>, q: seq<real>, b: seq<real>, tolerance: real)
    requires SortedBy(a, Price) && SortedBy(b, Price) && NonNegative(a) && NonNegative(b)
    requires multiset(q) == multiset(b) && AllClose(a, q, tolerance)
    ensures AllClose(a, b, tolerance)
  {
    SameSize(q, b);
    if a != [] {
      var j := HasIndex(b[0], b, q);
      UncrossAt(a, q, b, j, tolerance);
      TailClose(a, q, j, tolerance);
      BringToFront(q, b, j);
      TailSorted(a, Price);
      TailSorted(b, Price);
      SortedPairingSucceeds(a[1..], q[j := q[0]][1..], b[1..], tolerance);
      HeadAndTailClose(a, b, tolerance);
    }
  }

  lemma WithoutClose(c: seq<real>, q: seq<real>, j: nat, tolerance: real)
    requires AllClose(c, q, tolerance) && j < |c|
    ensures AllClose(c[..j] + c[j + 1..], q[..j] + q[j + 1..], tolerance)
  {
  }

  /** Rearranging the live prices carries a pairing along with them. */
  lemma {:induction false} PairingFollows(current: seq<real>, q: seq<real>, a: seq<real>, tolerance: real)
    returns (r: seq<real>)
    requires AllClose(current, q, tolerance)
    requires multiset(a) == multiset(current)
    ensures multiset(r) == multiset(q) && AllClose(a, r, tolerance)
    decreases |a|
  {
    hide Close;
    SameSize(a, current);
    if a == [] {
      r := [];
    } else {
      var j := HasIndex(a[0], a, current);
      RemoveAt(current, j);
      RemoveAt(q, j);
      RemoveFirst(a);
      WithoutClose(current, q, j, tolerance);
      var rest := PairingFollows(current[..j] + current[j + 1..], q[..j] + q[j + 1..], a[1..], tolerance);
      r := [q[j]] + rest;
      assert r[1..] == rest;
      HeadAndTailClose(a, r, tolerance);
    }
  }

  lemma SortedNonNegative(s: seq<real>)
    requires NonNegative(s)
    ensures SortedBy(Sort(s, Price), Price) && NonNegative(Sort(s, Price))
    ensures multiset(Sort(s, Price)) == multiset(s)
  {
    SortCorrect(s, Price);
    forall i | 0 <= i < |Sort(s, Price)| ensures Sort(s, Price)[i] >= 0.0 {
      var k := HasIndex(Sort(s, Price)[i], Sort(s, Price), s);
    }
  }

  /** Sorted comparison succeeds exactly when some pairing does: sorting loses nothing. */
  lemma SortedCloseIffPairable(current: seq<real>, proposal: seq<real>, tolerance: real)
    requires NonNegative(current) && NonNegative(proposal)
    ensures SortedClose(current, proposal, tolerance) <==> Pairable(current, proposal, tolerance)
  {
    var a, b := Sort(current, Price), Sort(proposal, Price);
    SortedNonNegative(current);
    SortedNonNegative(proposal);
    if SortedClose(current, proposal, tolerance) {
      var q := PairingFollows(a, b, current, tolerance);
    }
    if Pairable(current, proposal, tolerance) {
      var q :| multiset(q) == multiset(proposal) && AllClose(current, q, tolerance);
      var r := PairingFollows(current, q, a, tolerance);
      SortedPairingSucceeds(a, r, b, tolerance);
    }
  }

  /** So the order in which the orders and the proposals are listed never changes the decision. */
  lemma ListOrderIrrelevant(current: seq<real>, proposal: seq<real>, current': seq<real>, proposal': seq<real>,
                            tolerance: real)
    requires multiset(current) == multiset(current') && multiset(proposal) == multiset(proposal')
    ensures SortedClose(current, proposal, tolerance) <==> SortedClose(current', proposal', tolerance)
  {
    SortCorrect(current, Price);
    SortCorrect(current', Price);
    SortCorrect(proposal, Price);
    SortCorrect(proposal', Price);
    SortedIsUnique(Sort(current, Price), Sort(current', Price), Price);
    SortedIsUnique(Sort(proposal, Price), Sort(proposal', Price), Price);
  }

  lemma SortKeepsLength(s: seq<real>)
    ensures |Sort(s, Price)| == |s|
  {
    SortCorrect(s, Price);
  }

  method IsWithinTolerance(current: seq<real>, proposal: seq<real>, tolerance: real) returns (within: bool)
    ensures within <==> SortedClose(current, proposal, tolerance)
    ensures NonNegative(current) && NonNegative(proposal) ==> (within <==> Pairable(current, proposal, tolerance))
  {
    if NonNegative(current) && NonNegative(proposal) {
      SortedCloseIffPairable(current, proposal, tolerance);
    }
    SortKeepsLength(current);
    SortKeepsLength(proposal);
    if |current| != |proposal| {
      assert !SortedClose(current, proposal, tolerance);
      return false;
    }
    if current == [] {
      assert SortedClose(current, proposal, tolerance);
      return true;
    }
    var a, b := Sort(current, Price), Sort(proposal, Price);
    for i := 0 to |a|
      invariant forall k | 0 <= k < i :: Close(a[k], b[k], tolerance)
    {
      if a[i] == 0.0 {
        assert !Close(a[i], b[i], tolerance);
        return false;
      }
      var diff := Abs(b[i] - a[i]) / a[i];
      if diff > tolerance {
        assert !Close(a[i], b[i], tolerance);
        return false;
      }
    }
    return true;
  }

  /** An executor as the refresh step reads it; orders without a price are skipped. */
  datatype Executor = Executor(id: string, active: bool, trading: bool, timestamp: real,
                               levelId: string, price: PriceTag)
  datatype PriceTag = NoPrice | At(value: real)

  predicate PastRefresh(e: Executor, now: real, refreshTime: real) {
    e.active && !e.trading && now - e.timestamp > refreshTime
  }

  ghost predicate PricesNonNegative(executors: seq<Executor>) {
    forall e | e in executors && e.price.At? :: e.price.value >= 0.0
  }

  function Aged(executors: seq<Executor>, now: real, refreshTime: real): (r: seq<Executor>)
    ensures forall e | e in r :: e in executors && PastRefresh(e, now, refreshTime)
    ensures PricesNonNegative(executors) ==> PricesNonNegative(r)
    ensures forall e | e in executors && PastRefresh(e, now, refreshTime) :: e in r
  {
    if executors == [] then [] else
      (if PastRefresh(executors[0], now, refreshTime) then [executors[0]] else [])
      + Aged(executors[1..], now, refreshTime)
  }

  /** The live prices of one side, in list order. */
  function SidePrices(executors: seq<Executor>, buy: bool): seq<real> {
    if executors == [] then []
    else
      var last := executors[|executors| - 1];
      var before := SidePrices(executors[..|executors| - 1], buy);
      if last.price.At? && (if buy then "buy" <= last.levelId else !("buy" <= last.levelId) && "sell" <= last.levelId)
      then before + [last.price.value] else before
  }

  /** The aged orders are the active, unfilled ones listed for longer than the refresh time. */
  lemma {:induction false} AgedIff(executors: seq<Executor>, now: real, refreshTime: real, e: Executor)
    ensures e in Aged(executors, now, refreshTime)
       <==> e in executors && e.active && !e.trading && now > e.timestamp + refreshTime
  {
    if executors != [] {
      assert executors == [executors[0]] + executors[1..];
      AgedIff(executors[1..], now, refreshTime, e);
    }
  }

  predicate StartsWith(text: string, start: string) { |start| <= |text| && text[..|start|] == start }

  /** The side of an order is read off the start of its level's name. */
  lemma {:induction false} SidePricesIff(executors: seq<Executor>, buy: bool, price: real)
    ensures price in SidePrices(executors, buy)
       <==> exists e | e in executors :: e.price == At(price) && StartsWith(e.levelId, if buy then "buy" else "sell")
  {
    if executors != [] {
      var n := |executors| - 1;
      assert executors == executors[..n] + [executors[n]];
      SidePricesIff(executors[..n], buy, price);
      DifferentStarts(executors[n].levelId);
    }
  }

  lemma DifferentStarts(text: string)
    ensures !(StartsWith(text, "buy") && StartsWith(text, "sell"))
    ensures "buy" <= text <==> StartsWith(text, "buy")
    ensures "sell" <= text <==> StartsWith(text, "sell")
  {
    if StartsWith(text, "buy") {
      assert text[..3][0] == 'b' && text[0] == 'b';
    }
    assert StartsWith(text, "sell") ==> text[..4][0] == 's';
  }

  function Ids(executors: seq<Executor>): (r: seq<string>)
    ensures |r| == |executors|
  {
    seq(|executors|, i requires 0 <= i < |executors| => executors[i].id)
  }

  lemma SidePricesNonNegative(executors: seq<Executor>, buy: bool)
    requires PricesNonNegative(executors)
    ensures NonNegative(SidePrices(executors, buy))
  {
    if executors != [] {
      var n := |executors| - 1;
      assert executors[n] in executors;
      SidePricesNonNegative(executors[..n], buy);
    }
  }

  /** Every aged order is stopped, or none is: none exactly when there is nothing aged or the tolerance
      is on and, on both sides, the live prices can be paired with what would be proposed now. */
  method ExecutorsToRefresh(executors: seq<Executor>, now: real, refreshTime: real, tolerance: real,
                            buyProposal: seq<real>, sellProposal: seq<real>)
    returns (stops: seq<string>)
    ensures var aged := Aged(executors, now, refreshTime);
            if aged == [] || (tolerance >= 0.0
                              && SortedClose(SidePrices(aged, true), buyProposal, tolerance)
                              && SortedClose(SidePrices(aged, false), sellProposal, tolerance))
            then stops == [] else stops == Ids(aged)
    ensures PricesNonNegative(executors) && NonNegative(buyProposal) && NonNegative(sellProposal) ==>
              var aged := Aged(executors, now, refreshTime);
              stops == [] <==> aged == [] || (tolerance >= 0.0
                                              && Pairable(SidePrices(aged, true), buyProposal, tolerance)
                                              && Pairable(SidePrices(aged, false), sellProposal, tolerance))
  {
    hide SortedClose, Pairable;
    var aged := Aged(executors, now, refreshTime);
    if aged == [] { return []; }
    if PricesNonNegative(executors) {
      SidePricesNonNegative(aged, true);
      SidePricesNonNegative(aged, false);
    }
    if tolerance < 0.0 { return Ids(aged); }
    var buys: seq<real>, sells: seq<real> := [], [];
    for i := 0 to |aged|
      invariant buys == SidePrices(aged[..i], true)
      invariant sells == SidePrices(aged[..i], false)
    {
      assert aged[..i + 1][..i] == aged[..i];
      if aged[i].price.At? {
        if "buy" <= aged[i].levelId {
          buys := buys + [aged[i].price.value];
        } else if "sell" <= aged[i].levelId {
          sells := sells + [aged[i].price.value];
        }
      }
    }
    assert aged[..|aged|] == aged;
    var buysWithin := IsWithinTolerance(buys, buyProposal, tolerance);
    var sellsWithin := IsWithinTolerance(sells, sellProposal, tolerance);
    return if buysWithin && sellsWithin then [] else Ids(aged);
  }
}
