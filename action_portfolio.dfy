/** The greedy action-portfolio optimiser (`optimise_action_portfolio`): rate each mitigating action
    by the cost it avoids per unit of cost, rank the actions by that return, best first, and take
    them in rank order while they fit the budget and the time limit.

    Amounts are exact reals here (the source computes in floating point). An action is a typed
    record; the other keys an action dict may carry ride along unchanged in the source and are
    not modelled.
 */
module ActionPortfolio {
  import opened Values

  datatype Action = Action(name: string, impactPct: real, costToExecute: real, timeToImpactDays: int)

  /** An action with its `cost_avoided` and `roi` added. */
  datatype Enriched = Enriched(action: Action, costAvoided: real, roi: real)

  /** The dict `optimise_action_portfolio` returns. */
  datatype Portfolio = Portfolio(
    selected: seq<Enriched>,
    budgetUsed: real,
    budgetRemaining: real,
    totalCostAvoided: real,
    portfolioRoi: Option<real>)

  // ---------------------------------------------------------------- enrichment

  /** The cost an action avoids and its return; dividing by a zero cost raises. */
  function EnrichOne(a: Action, exposure: real): Result<Enriched, PyError>
  {
    var avoided := exposure * a.impactPct;
    if a.costToExecute == 0.0 then Err(ZeroDivisionError)
    else Ok(Enriched(a, avoided, avoided / a.costToExecute))
  }

  /** Every action enriched, in order, or the error of the first action with a zero cost. */
  function EnrichAll(actions: seq<Action>, exposure: real): Result<seq<Enriched>, PyError>
    decreases |actions|
  {
    if actions == [] then Ok([])
    else
      var n := |actions| - 1;
      match EnrichAll(actions[..n], exposure)
      case Err(e) => Err(e)
      case Ok(prefix) =>
        match EnrichOne(actions[n], exposure)
        case Err(e) => Err(e)
        case Ok(x) => Ok(prefix + [x])
  }

  /** Enrichment fails exactly when some action costs nothing; otherwise each action keeps its
      place and gains `exposure * impact` as the cost avoided and that over its cost as its return. */
  lemma {:induction false} EnrichAllFacts(actions: seq<Action>, exposure: real)
    ensures EnrichAll(actions, exposure).Err? <==> exists i :: 0 <= i < |actions| && actions[i].costToExecute == 0.0
    ensures EnrichAll(actions, exposure).Err? ==> EnrichAll(actions, exposure).error == ZeroDivisionError
    ensures EnrichAll(actions, exposure).Ok? ==>
      var enriched := EnrichAll(actions, exposure).value;
      && |enriched| == |actions|
      && forall i :: 0 <= i < |actions| ==>
           && enriched[i].action == actions[i]
           && enriched[i].costAvoided == exposure * actions[i].impactPct
           && enriched[i].roi * actions[i].costToExecute == enriched[i].costAvoided
    decreases |actions|
  {
    if actions != [] {
      var n := |actions| - 1;
      EnrichAllFacts(actions[..n], exposure);
      if EnrichAll(actions[..n], exposure).Err? {
        var i :| 0 <= i < n && actions[..n][i].costToExecute == 0.0;
        assert actions[i].costToExecute == 0.0;
      }
    }
  }

  // ---------------------------------------------------------------- ranking

  /** Best return first. */
  predicate RoiDescending(s: seq<Enriched>)
  {
    forall i, j :: 0 <= i < j < |s| ==> s[i].roi >= s[j].roi
  }

  /** The entries with a given return, in order. */
  function WithRoi(s: seq<Enriched>, roi: real): seq<Enriched>
    decreases |s|
  {
    if s == [] then [] else (if s[0].roi == roi then [s[0]] else []) + WithRoi(s[1..], roi)
  }

  /** Place `x` after every entry whose return is at least its own. */
  function Insert(s: seq<Enriched>, x: Enriched): seq<Enriched>
    decreases |s|
  {
    if s == [] then [x]
    else if s[0].roi >= x.roi then [s[0]] + Insert(s[1..], x)
    else [x] + s
  }

  /** `enriched.sort(key=roi, reverse=True)`: Python's sort is stable, and so is its reverse, so
      entries with equal returns keep their relative order. */
  function SortByRoi(s: seq<Enriched>): seq<Enriched>
    decreases |s|
  {
    if s == [] then [] else Insert(SortByRoi(s[..|s| - 1]), s[|s| - 1])
  }

  lemma {:induction false} InsertPermutes(s: seq<Enriched>, x: Enriched)
    ensures multiset(Insert(s, x)) == multiset(s) + multiset{x}
    decreases |s|
  {
    if s != [] && s[0].roi >= x.roi {
      InsertPermutes(s[1..], x);
      assert s == [s[0]] + s[1..];
    }
  }

  lemma {:induction false} InsertSorted(s: seq<Enriched>, x: Enriched)
    requires RoiDescending(s)
    ensures RoiDescending(Insert(s, x))
    decreases |s|
  {
    if s != [] && s[0].roi >= x.roi {
      InsertSorted(s[1..], x);
      InsertPermutes(s[1..], x);
      var r := Insert(s, x);
      forall j | 0 < j < |r|
        ensures r[0].roi >= r[j].roi
      {
        assert r[j] in multiset(Insert(s[1..], x));
        assert r[j] in multiset(s[1..]) || r[j] == x;
      }
    }
  }

  lemma {:induction false} WithRoiAppend(a: seq<Enriched>, b: seq<Enriched>, roi: real)
    ensures WithRoi(a + b, roi) == WithRoi(a, roi) + WithRoi(b, roi)
    decreases |a|
  {
    if a != [] {
      WithRoiAppend(a[1..], b, roi);
      assert (a + b)[1..] == a[1..] + b;
    } else {
      assert a + b == b;
    }
  }

  lemma {:induction false} WithRoiNone(s: seq<Enriched>, roi: real)
    requires forall i :: 0 <= i < |s| ==> s[i].roi < roi
    ensures WithRoi(s, roi) == []
    decreases |s|
  {
    if s != [] {
      WithRoiNone(s[1..], roi);
    }
  }

  lemma {:induction false} InsertStable(s: seq<Enriched>, x: Enriched, roi: real)
    requires RoiDescending(s)
    ensures WithRoi(Insert(s, x), roi) == WithRoi(s, roi) + (if x.roi == roi then [x] else [])
    decreases |s|
  {
    if s == [] {
    } else if s[0].roi >= x.roi {
      InsertStable(s[1..], x, roi);
      assert WithRoi(Insert(s, x), roi) == (if s[0].roi == roi then [s[0]] else []) + WithRoi(Insert(s[1..], x), roi);
    } else {
      if x.roi == roi {
        WithRoiNone(s, roi);
      }
      assert WithRoi(Insert(s, x), roi) == (if x.roi == roi then [x] else []) + WithRoi(s, roi);
    }
  }

  /** The ranking is a permutation of the actions, best return first, and stable: the entries with
      any one return appear in the order they were given. */
  lemma {:induction false} SortByRoiFacts(s: seq<Enriched>)
    ensures multiset(SortByRoi(s)) == multiset(s)
    ensures RoiDescending(SortByRoi(s))
    ensures forall roi :: WithRoi(SortByRoi(s), roi) == WithRoi(s, roi)
    decreases |s|
  {
    if s != [] {
      var n := |s| - 1;
      SortByRoiFacts(s[..n]);
      InsertPermutes(SortByRoi(s[..n]), s[n]);
      InsertSorted(SortByRoi(s[..n]), s[n]);
      assert s == s[..n] + [s[n]];
      forall roi
        ensures WithRoi(SortByRoi(s), roi) == WithRoi(s, roi)
      {
        InsertStable(SortByRoi(s[..n]), s[n], roi);
        WithRoiAppend(s[..n], [s[n]], roi);
      }
    }
  }

  // ---------------------------------------------------------------- selection

  /** The state of the greedy scan: what is taken, what it costs, what it avoids. */
  datatype Selection = Selection(selected: seq<Enriched>, spent: real, avoided: real)

  /** An action is taken when it fits the remaining budget and the time limit; a skipped action
      does not end the scan. */
  function Select(ranked: seq<Enriched>, budget: real, maxDays: int): Selection
    decreases |ranked|
  {
    if ranked == [] then Selection([], 0.0, 0.0)
    else
      var n := |ranked| - 1;
      var before := Select(ranked[..n], budget, maxDays);
      var a := ranked[n];
      if before.spent + a.action.costToExecute > budget then before
      else if a.action.timeToImpactDays > maxDays then before
      else Selection(before.selected + [a], before.spent + a.action.costToExecute, before.avoided + a.costAvoided)
  }

  function SumCost(s: seq<Enriched>): real
    decreases |s|
  {
    if s == [] then 0.0 else SumCost(s[..|s| - 1]) + s[|s| - 1].action.costToExecute
  }

  function SumAvoided(s: seq<Enriched>): real
    decreases |s|
  {
    if s == [] then 0.0 else SumAvoided(s[..|s| - 1]) + s[|s| - 1].costAvoided
  }

  /** The greedy scan spends and avoids exactly the sums over what it takes, never exceeds the
      budget once it has taken anything, and takes only actions within the time limit. */
  lemma {:induction false} SelectTotals(ranked: seq<Enriched>, budget: real, maxDays: int)
    ensures
      var s := Select(ranked, budget, maxDays);
      && s.spent == SumCost(s.selected)
      && s.avoided == SumAvoided(s.selected)
      && (s.selected != [] ==> s.spent <= budget)
      && (forall i :: 0 <= i < |s.selected| ==> s.selected[i].action.timeToImpactDays <= maxDays)
    decreases |ranked|
  {
    if ranked != [] {
      var n := |ranked| - 1;
      var before := Select(ranked[..n], budget, maxDays);
      SelectTotals(ranked[..n], budget, maxDays);
      var s := Select(ranked, budget, maxDays);
      if s != before {
        assert s.selected[..|s.selected| - 1] == before.selected;
      }
    }
  }

  /** The greedy scan takes each ranked action at most once. */
  lemma {:induction false} SelectTakesFromRanking(ranked: seq<Enriched>, budget: real, maxDays: int)
    ensures multiset(Select(ranked, budget, maxDays).selected) <= multiset(ranked)
    decreases |ranked|
  {
    if ranked != [] {
      var n := |ranked| - 1;
      SelectTakesFromRanking(ranked[..n], budget, maxDays);
      assert ranked == ranked[..n] + [ranked[n]];
    }
  }

  /** The greedy scan keeps the ranking's order. */
  lemma {:induction false} SelectKeepsRanking(ranked: seq<Enriched>, budget: real, maxDays: int)
    requires RoiDescending(ranked)
    ensures RoiDescending(Select(ranked, budget, maxDays).selected)
    decreases |ranked|
  {
    if ranked != [] {
      var n := |ranked| - 1;
      var before := Select(ranked[..n], budget, maxDays);
      var a := ranked[n];
      SelectKeepsRanking(ranked[..n], budget, maxDays);
      SelectTakesFromRanking(ranked[..n], budget, maxDays);
      var s := Select(ranked, budget, maxDays);
      if s != before {
        forall i | 0 <= i < |before.selected|
          ensures before.selected[i].roi >= a.roi
        {
          assert before.selected[i] in multiset(ranked[..n]);
          var j :| 0 <= j < n && ranked[..n][j] == before.selected[i];
          assert ranked[j] == before.selected[i];
        }
        assert s.selected == before.selected + [a];
      }
    }
  }

  /** The positions in the ranking that the greedy scan takes, in scan order. */
  function TakenPositions(ranked: seq<Enriched>, budget: real, maxDays: int): (r: seq<nat>)
    ensures forall t :: 0 <= t < |r| ==> r[t] < |ranked|
    ensures forall t, u :: 0 <= t < u < |r| ==> r[t] < r[u]
    decreases |ranked|
  {
    if ranked == [] then []
    else
      var n := |ranked| - 1;
      var before := Select(ranked[..n], budget, maxDays);
      var a := ranked[n];
      var prefix := TakenPositions(ranked[..n], budget, maxDays);
      if before.spent + a.action.costToExecute > budget || a.action.timeToImpactDays > maxDays then prefix
      else prefix + [n]
  }

  /** The selection is a subsequence of the ranking: the t-th action taken is the ranked action at
      the t-th taken position, and those positions strictly increase, so ties keep their ranking
      order and no ranked entry is taken twice. */
  lemma {:induction false} SelectIsSubsequence(ranked: seq<Enriched>, budget: real, maxDays: int)
    ensures
      var selected := Select(ranked, budget, maxDays).selected;
      var idx := TakenPositions(ranked, budget, maxDays);
      && |idx| == |selected|
      && forall t :: 0 <= t < |selected| ==> selected[t] == ranked[idx[t]]
    decreases |ranked|
  {
    if ranked != [] {
      var n := |ranked| - 1;
      var prefix := ranked[..n];
      SelectIsSubsequence(prefix, budget, maxDays);
      var before := Select(prefix, budget, maxDays);
      var pidx := TakenPositions(prefix, budget, maxDays);
      var selected := Select(ranked, budget, maxDays).selected;
      var idx := TakenPositions(ranked, budget, maxDays);
      forall t | 0 <= t < |selected|
        ensures selected[t] == ranked[idx[t]]
      {
        if t < |before.selected| {
          assert selected[t] == before.selected[t] && idx[t] == pidx[t];
          assert prefix[pidx[t]] == ranked[pidx[t]];
        }
      }
    }
  }

  /** With a non-negative budget the scan never spends more than the budget. */
  lemma WithinBudget(ranked: seq<Enriched>, budget: real, maxDays: int)
    requires budget >= 0.0
    ensures Select(ranked, budget, maxDays).spent <= budget
  {
    SelectTotals(ranked, budget, maxDays);
  }

  /** An action too expensive for what is left does not stop the scan: a cheaper one after it that
      fits is still taken. */
  lemma UnaffordableDoesNotStopScan(prefix: seq<Enriched>, big: Enriched, small: Enriched, budget: real, maxDays: int)
    requires Select(prefix, budget, maxDays).spent + big.action.costToExecute > budget
    requires Select(prefix, budget, maxDays).spent + small.action.costToExecute <= budget
    requires small.action.timeToImpactDays <= maxDays
    ensures Select(prefix + [big, small], budget, maxDays).selected == Select(prefix, budget, maxDays).selected + [small]
  {
    var ranked := prefix + [big, small];
    assert ranked[..|ranked| - 1] == prefix + [big];
    assert (prefix + [big])[..|prefix|] == prefix;
  }

  // ---------------------------------------------------------------- the optimiser

  /** The returned dict: `portfolio_roi` only when something was spent. */
  function Summary(s: Selection, budget: real): Portfolio
  {
    Portfolio(s.selected, s.spent, budget - s.spent, s.avoided, if s.spent > 0.0 then Some(s.avoided / s.spent) else None)
  }

  function Optimised(actions: seq<Action>, budget: real, maxDays: int, exposure: real): Result<Portfolio, PyError>
  {
    match EnrichAll(actions, exposure)
    case Err(e) => Err(e)
    case Ok(enriched) => Ok(Summary(Select(SortByRoi(enriched), budget, maxDays), budget))
  }

  /** The enrichment loop of `optimise_action_portfolio`. */
  method EnrichActions(actions: seq<Action>, exposure: real) returns (r: Result<seq<Enriched>, PyError>)
    ensures r == EnrichAll(actions, exposure)
  {
    var enriched: seq<Enriched> := [];
    var k := 0;
    while k < |actions|
      invariant 0 <= k <= |actions|
      invariant EnrichAll(actions[..k], exposure) == Ok(enriched)
    {
      assert actions[..k + 1][..k] == actions[..k];
      var a := actions[k];
      if a.costToExecute == 0.0 {
        assert EnrichAll(actions[..k + 1], exposure) == Err(ZeroDivisionError);
        EnrichErrorPersists(actions, k + 1, exposure);
        return Err(ZeroDivisionError);
      }
      var avoided := exposure * a.impactPct;
      assert EnrichOne(a, exposure).Ok?;
      assert EnrichOne(a, exposure).value == Enriched(a, avoided, avoided / a.costToExecute);
      assert EnrichAll(actions[..k + 1], exposure) == Ok(enriched + [EnrichOne(a, exposure).value]);
      enriched := enriched + [Enriched(a, avoided, avoided / a.costToExecute)];
      k := k + 1;
    }
    assert actions[..k] == actions;
    r := Ok(enriched);
  }

  /** Once an action raises, the loop never reaches the later ones. */
  lemma {:induction false} EnrichErrorPersists(actions: seq<Action>, k: nat, exposure: real)
    requires k <= |actions| && EnrichAll(actions[..k], exposure).Err?
    ensures EnrichAll(actions, exposure) == EnrichAll(actions[..k], exposure)
    decreases |actions| - k
  {
    if k < |actions| {
      assert actions[..k + 1][..k] == actions[..k];
      EnrichErrorPersists(actions, k + 1, exposure);
    } else {
      assert actions[..k] == actions;
    }
  }

  /** The greedy loop of `optimise_action_portfolio`. */
  method SelectActions(ranked: seq<Enriched>, budget: real, maxDays: int) returns (s: Selection)
    ensures s == Select(ranked, budget, maxDays)
  {
    var selected: seq<Enriched> := [];
    var spent := 0.0;
    var totalAvoided := 0.0;
    var i := 0;
    while i < |ranked|
      invariant 0 <= i <= |ranked|
      invariant Select(ranked[..i], budget, maxDays) == Selection(selected, spent, totalAvoided)
    {
      assert ranked[..i + 1][..i] == ranked[..i];
      var a := ranked[i];
      if spent + a.action.costToExecute > budget {
        i := i + 1;
        continue;
      }
      if a.action.timeToImpactDays > maxDays {
        i := i + 1;
        continue;
      }
      selected := selected + [a];
      spent := spent + a.action.costToExecute;
      totalAvoided := totalAvoided + a.costAvoided;
      i := i + 1;
    }
    assert ranked[..i] == ranked;
    s := Selection(selected, spent, totalAvoided);
  }

  /** Every action the portfolio takes is one of the actions given. */
  lemma TakenActionsWereGiven(actions: seq<Action>, exposure: real, budget: real, maxDays: int)
    requires EnrichAll(actions, exposure).Ok?
    ensures
      var selected := Select(SortByRoi(EnrichAll(actions, exposure).value), budget, maxDays).selected;
      forall t :: 0 <= t < |selected| ==> exists j :: 0 <= j < |actions| && actions[j] == selected[t].action
  {
    var enriched := EnrichAll(actions, exposure).value;
    var ranked := SortByRoi(enriched);
    var selected := Select(ranked, budget, maxDays).selected;
    EnrichAllFacts(actions, exposure);
    SortByRoiFacts(enriched);
    SelectTakesFromRanking(ranked, budget, maxDays);
    forall t | 0 <= t < |selected|
      ensures exists j :: 0 <= j < |actions| && actions[j] == selected[t].action
    {
      assert selected[t] in multiset(ranked);
      assert selected[t] in multiset(enriched);
      var e :| 0 <= e < |enriched| && enriched[e] == selected[t];
      assert actions[e] == selected[t].action;
    }
  }

  /** `optimise_action_portfolio`: enrich every action, rank them, then scan greedily. A zero-cost
      action raises; otherwise the portfolio is a subsequence of the ranking (each ranked entry taken
      at most once, ties in ranking order), within the time limit and (for a non-negative budget) within the budget, and its figures are the sums
      over what it takes. */
  method OptimiseActionPortfolio(actions: seq<Action>, budget: real, maxDays: int, exposure: real)
    returns (r: Result<Portfolio, PyError>)
    ensures r == Optimised(actions, budget, maxDays, exposure)
    ensures r.Err? <==> exists i :: 0 <= i < |actions| && actions[i].costToExecute == 0.0
    ensures r.Ok? ==>
      var p := r.value;
      && p.budgetUsed == SumCost(p.selected)
      && p.totalCostAvoided == SumAvoided(p.selected)
      && p.budgetRemaining == budget - p.budgetUsed
      && (budget >= 0.0 ==> p.budgetUsed <= budget)
      && (p.portfolioRoi.Some? <==> p.budgetUsed > 0.0)
      && (p.portfolioRoi.Some? ==> p.portfolioRoi.value == p.totalCostAvoided / p.budgetUsed)
      && (forall i :: 0 <= i < |p.selected| ==> p.selected[i].action.timeToImpactDays <= maxDays)
      && (forall i :: 0 <= i < |p.selected| ==> exists j :: 0 <= j < |actions| && actions[j] == p.selected[i].action)
      && RoiDescending(p.selected)
      && var ranked := SortByRoi(EnrichAll(actions, exposure).value);
         var idx := TakenPositions(ranked, budget, maxDays);
         && |idx| == |p.selected|
         && (forall t :: 0 <= t < |idx| ==> p.selected[t] == ranked[idx[t]])
         && (forall t, u :: 0 <= t < u < |idx| ==> idx[t] < idx[u])
  {
    EnrichAllFacts(actions, exposure);
    var enriched := EnrichActions(actions, exposure);
    if enriched.Err? {
      return Err(enriched.error);
    }
    var ranked := SortByRoi(enriched.value);
    SortByRoiFacts(enriched.value);
    var s := SelectActions(ranked, budget, maxDays);
    SelectTotals(ranked, budget, maxDays);
    SelectKeepsRanking(ranked, budget, maxDays);
    TakenActionsWereGiven(actions, exposure, budget, maxDays);
    SelectIsSubsequence(ranked, budget, maxDays);
    r := Ok(Portfolio(s.selected, s.spent, budget - s.spent, s.avoided, if s.spent > 0.0 then Some(s.avoided / s.spent) else None));
  }
}
