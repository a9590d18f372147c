/**
 What a landed cost adds to the value of the cost tables, and the layers of reachable tables
 it is loaded onto. Values are in units of 0.00000001.
 */
module LandedCostStores {
  import opened Outcomes
  import opened FixedPoint
  import opened LandedCostPosting
  import opened LandedCostAbsorption
  import opened Sequences
  import LayerPool
  import LayerReversal

  // ------------------------------------------------------------------ the value of the tables

  /** A layer is worth what it still holds at its cost. */
  function LayerWorth(costs: CostState, line: nat): int
  {
    if line in costs.layers then Max(0, costs.layers[line].remaining) * costs.layers[line].cost else 0
  }

  function LayerWorths(costs: CostState, n: nat): (vs: seq<int>)
    ensures |vs| == n
  {
    seq(n, i requires 0 <= i < n => LayerWorth(costs, i))
  }

  function AverageWorth(costs: CostState, scope: Scope): int
  {
    if scope in costs.wac then costs.wac[scope].onHand * costs.wac[scope].average else 0
  }

  function AverageWorths(costs: CostState, scopes: seq<Scope>): (vs: seq<int>)
    ensures |vs| == |scopes|
  {
    seq(|scopes|, k requires 0 <= k < |scopes| => AverageWorth(costs, scopes[k]))
  }

  /** The first n lines' layers and the averages of these scopes. */
  function Worth(costs: CostState, n: nat, scopes: seq<Scope>): int
  {
    Sum(LayerWorths(costs, n)) + Sum(AverageWorths(costs, scopes))
  }

  predicate DistinctScopes(scopes: seq<Scope>) { forall j, k :: 0 <= j < k < |scopes| ==> scopes[j] != scopes[k] }

  predicate ScopesOf(lines: seq<TargetLine>, scopes: seq<Scope>)
  {
    DistinctScopes(scopes) && forall i :: 0 <= i < |lines| && lines[i].usesWac ==> lines[i].scope in scopes
  }

  // ------------------------------------------------------------------ one line

  /** Twice what one line's rounding can set the tables off by: half a unit, or half a unit a unit on hand. */
  function Slack(costs: CostState, l: TargetLine): int
  {
    if !l.usesWac then SCALE else if l.scope in costs.wac then Max(0, costs.wac[l.scope].onHand) else 0
  }

  lemma LayerGains(costs: CostState, l: TargetLine, line: nat, receivedAfter: int, perUnit: int)
    requires !l.usesWac
    ensures var rise := LayerWorth(Raised(costs, l, line, receivedAfter, perUnit), line) - LayerWorth(costs, line);
      Abs(2 * (rise - Absorbed(costs, l, line, receivedAfter, perUnit) * SCALE)) <= SCALE
  {
    if line in costs.layers {
      var layer := costs.layers[line];
      MulDistributes(layer.cost, perUnit, Max(0, layer.remaining));
    }
  }

  lemma AverageGains(costs: CostState, l: TargetLine, line: nat, receivedAfter: int, perUnit: int)
    requires l.usesWac
    ensures var rise :=
      AverageWorth(Raised(costs, l, line, receivedAfter, perUnit), l.scope) - AverageWorth(costs, l.scope);
      Abs(2 * (rise - Absorbed(costs, l, line, receivedAfter, perUnit) * SCALE)) <= Slack(costs, l)
  {
  }

  lemma LayerMoves(
      costs: CostState, l: TargetLine, line: nat, receivedAfter: int, perUnit: int, n: nat, scopes: seq<Scope>)
    requires !l.usesWac && line < n
    ensures var after := Raised(costs, l, line, receivedAfter, perUnit);
      Worth(after, n, scopes) - Worth(costs, n, scopes) == LayerWorth(after, line) - LayerWorth(costs, line)
  {
    var after := Raised(costs, l, line, receivedAfter, perUnit);
    assert LayerWorths(after, n) == LayerWorths(costs, n)[line := LayerWorth(after, line)];
    assert AverageWorths(after, scopes) == AverageWorths(costs, scopes);
    SumUpdate(LayerWorths(costs, n), line, LayerWorth(after, line));
  }

  lemma AverageMoves(
      costs: CostState, l: TargetLine, line: nat, receivedAfter: int, perUnit: int, n: nat, scopes: seq<Scope>)
    requires l.usesWac && l.scope in scopes && DistinctScopes(scopes)
    ensures var after := Raised(costs, l, line, receivedAfter, perUnit);
      Worth(after, n, scopes) - Worth(costs, n, scopes) == AverageWorth(after, l.scope) - AverageWorth(costs, l.scope)
  {
    var after := Raised(costs, l, line, receivedAfter, perUnit);
    var k := PositionOf(scopes, l.scope);
    assert LayerWorths(after, n) == LayerWorths(costs, n);
    assert AverageWorths(after, scopes) == AverageWorths(costs, scopes)[k := AverageWorth(after, l.scope)];
    SumUpdate(AverageWorths(costs, scopes), k, AverageWorth(after, l.scope));
  }

  lemma LineRaisesTheTables(
      costs: CostState, l: TargetLine, line: nat, receivedAfter: int, perUnit: int, n: nat, scopes: seq<Scope>)
    requires line < n && DistinctScopes(scopes) && (l.usesWac ==> l.scope in scopes)
    ensures var rise := Worth(Raised(costs, l, line, receivedAfter, perUnit), n, scopes) - Worth(costs, n, scopes);
      Abs(2 * (rise - Absorbed(costs, l, line, receivedAfter, perUnit) * SCALE)) <= Slack(costs, l)
  {
    if l.usesWac {
      AverageMoves(costs, l, line, receivedAfter, perUnit, n, scopes);
      AverageGains(costs, l, line, receivedAfter, perUnit);
    } else {
      LayerMoves(costs, l, line, receivedAfter, perUnit, n, scopes);
      LayerGains(costs, l, line, receivedAfter, perUnit);
    }
  }

  // ------------------------------------------------------------------ the whole posting

  /** The lines' slack together; what is on hand stays as it was while costs move. */
  function SlackTotal(costs: CostState, lines: seq<TargetLine>, perLine: seq<Allotment>): int
    requires LandedCostAbsorption.Within(perLine, |lines|)
  {
    if perLine == [] then 0
    else SlackTotal(costs, lines, perLine[..|perLine| - 1]) + Slack(costs, lines[perLine[|perLine| - 1].line])
  }

  lemma {:induction false} RaisingKeepsSlack(
      costs: CostState, lines: seq<TargetLine>, receivedAfter: seq<int>, perLine: seq<Allotment>, l: TargetLine)
    requires Loadable(lines, receivedAfter) && LandedCostAbsorption.Within(perLine, |lines|)
    ensures Slack(RaiseAll(costs, lines, receivedAfter, perLine).costs, l) == Slack(costs, l)
  {
    if perLine != [] {
      RaisingKeepsSlack(costs, lines, receivedAfter, perLine[..|perLine| - 1], l);
    }
  }

  /** Raising one line more adds its own slack to the distance between tables and effect. */
  lemma RaisedOneMore(
      b: Books, b': Books, lines: seq<TargetLine>, receivedAfter: seq<int>, a: Allotment, scopes: seq<Scope>)
    requires Loadable(lines, receivedAfter) && Loadable(b.lines, receivedAfter) && a.line < |lines|
    requires ScopesOf(lines, scopes)
    requires b' == RaiseOne(b, lines, receivedAfter, a)
    ensures var rise := Worth(b'.costs, |lines|, scopes) - Worth(b.costs, |lines|, scopes);
      Abs(2 * (rise - (b'.absorbed - b.absorbed) * SCALE)) <= Slack(b.costs, lines[a.line])
  {
    LineRaisesTheTables(b.costs, lines[a.line], a.line, receivedAfter[a.line], PerUnit(lines, a), |lines|, scopes);
  }

  /**
   The layers and the averages together rise by the effect the posting publishes, to half a
   unit for every layered line and half a unit of rate a unit on hand for every averaged one.
   */
  lemma {:induction false} TablesRiseByTheEffect(
      costs: CostState, lines: seq<TargetLine>, receivedAfter: seq<int>, perLine: seq<Allotment>, scopes: seq<Scope>,
      after: Books)
    requires Loadable(lines, receivedAfter) && LandedCostAbsorption.Within(perLine, |lines|) && ScopesOf(lines, scopes)
    requires after == RaiseAll(costs, lines, receivedAfter, perLine)
    ensures Abs(2 * (Worth(after.costs, |lines|, scopes) - Worth(costs, |lines|, scopes) - after.absorbed * SCALE))
      <= SlackTotal(costs, lines, perLine)
    decreases |perLine|
  {
    if perLine != [] {
      var k := |perLine| - 1;
      var b := RaiseAll(costs, lines, receivedAfter, perLine[..k]);
      TablesRiseByTheEffect(costs, lines, receivedAfter, perLine[..k], scopes, b);
      RaisingKeepsSlack(costs, lines, receivedAfter, perLine[..k], lines[perLine[k].line]);
      RaisedOneMore(b, after, lines, receivedAfter, perLine[k], scopes);
    }
  }

  // ------------------------------------------------------------------ layers of reachable tables

  /** The line is a receipt of the run, not reversed, and its layer is the run's. */
  ghost predicate LayerOfRun(s: LayerPool.Pool, entry: nat, costs: CostState, l: TargetLine, line: nat)
  {
    && entry < |s.book| && s.book[entry].inward && s.book[entry].live && l.baseQty == s.book[entry].qty
    && s.book[entry].layer < |s.rows|
    && (line in costs.layers ==> costs.layers[line].remaining == LayerReversal.Remaining(s.rows[s.book[entry].layer]))
  }

  /** On every run a layer holds no more than its receipt brought in. */
  lemma LayerIsWithinLine(es: seq<LayerPool.Event>, entry: nat, costs: CostState, l: TargetLine, line: nat)
    requires LayerPool.LegalRun(es) && LayerOfRun(LayerPool.Run(es), entry, costs, l, line)
    ensures LayerWithinLine(costs, l, line)
  {
    var s := LayerPool.Run(es);
    LayerPool.RunKeepsInv(es);
    assert LayerPool.ReceiptOk(s, entry);
    LayerPool.UsedIsNonNegative(s.uses, entry, s.book[entry].layer);
  }

  /** So on the layers of any run the bound on what a line absorbs holds as it stands. */
  lemma AbsorbedWithinAllotmentOnRuns(
      es: seq<LayerPool.Event>, entry: nat, costs: CostState, lines: seq<TargetLine>, receivedAfter: seq<int>,
      perLine: seq<Allotment>, after: seq<TargetLine>, i: nat)
    requires Loadable(lines, receivedAfter) && LandedCostAbsorption.Within(perLine, |lines|)
    requires DistinctAllotments(perLine)
    requires after == RaiseAll(costs, lines, receivedAfter, perLine).lines && i < |lines|
    requires lines[i].usesWac || (LayerPool.LegalRun(es) && LayerOfRun(LayerPool.Run(es), entry, costs, lines[i], i))
    ensures |after| == |lines|
    ensures after[i].amount - lines[i].amount == after[i].landed - lines[i].landed
    ensures 2 * SCALE * Abs(after[i].amount - lines[i].amount)
      <= 2 * SCALE * Abs(AllottedTo(perLine, i)) + lines[i].baseQty + SCALE
  {
    if !lines[i].usesWac {
      LayerIsWithinLine(es, entry, costs, lines[i], i);
    }
    AbsorbedWithinAllotment(costs, lines, receivedAfter, perLine, after, i);
  }
}
