/** What a posted landed cost does to the cost state and to the lines it was spread over. */
module LandedCostAbsorption {
  import opened Outcomes
  import opened FixedPoint
  import opened AllocationDetail
  import opened CostLayers
  import opened LandedCostPosting
  import ReceiptRemainder

  /** How much of a line is still there to take a cost: its layer, or the ledger's reading of it. */
  function AbsorbableQty(costs: CostState, l: TargetLine, line: nat, receivedAfter: int): int
  {
    if l.usesWac then
      if l.scope in costs.wac && 0 < costs.wac[l.scope].onHand
      then StillOnHand(l.baseQty, costs.wac[l.scope].onHand, receivedAfter) else 0
    else if line in costs.layers then Max(0, costs.layers[line].remaining)
    else 0
  }

  function Absorbed(costs: CostState, l: TargetLine, line: nat, receivedAfter: int, perUnit: int): int
  {
    Amount(AbsorbableQty(costs, l, line, receivedAfter), perUnit)
  }

  /** The cost state after one line has been raised: its layer re-priced, or its scope re-averaged. */
  function Raised(costs: CostState, l: TargetLine, line: nat, receivedAfter: int, perUnit: int): CostState
  {
    if l.usesWac then
      var absorbable := AbsorbableQty(costs, l, line, receivedAfter);
      if absorbable <= 0 then costs
      else
        var w := costs.wac[l.scope];
        costs.(wac := costs.wac[l.scope :=
          w.(average := RoundDiv(w.onHand * w.average + Amount(absorbable, perUnit) * SCALE, w.onHand))])
    else if line in costs.layers then
      costs.(layers := costs.layers[line := costs.layers[line].(cost := costs.layers[line].cost + perUnit)])
    else costs
  }

  /** A line is credited with what it absorbed, never with the whole allocation. */
  function Credited(l: TargetLine, absorbed: int): TargetLine
    requires 0 < l.baseQty
  {
    if absorbed == 0 then l
    else l.(amount := l.amount + absorbed, rate := UnitRate(l.amount + absorbed, l.baseQty),
            landed := l.landed + absorbed)
  }

  predicate Loadable(lines: seq<TargetLine>, receivedAfter: seq<int>)
  {
    |receivedAfter| == |lines| && forall i :: 0 <= i < |lines| ==> 0 < lines[i].baseQty
  }

  predicate Within(perLine: seq<Allotment>, n: nat) { forall a :: a in perLine ==> a.line < n }

  function PerUnit(lines: seq<TargetLine>, a: Allotment): int
    requires a.line < |lines| && 0 < lines[a.line].baseQty
  {
    UnitRate(a.amount, lines[a.line].baseQty)
  }

  /** The books after raising the lines in order: cost state, lines, and the running total absorbed. */
  datatype Books = Books(costs: CostState, lines: seq<TargetLine>, absorbed: int)

  function RaiseOne(b: Books, lines: seq<TargetLine>, receivedAfter: seq<int>, a: Allotment): (b': Books)
    requires Loadable(lines, receivedAfter) && a.line < |lines| && Loadable(b.lines, receivedAfter)
    ensures Loadable(b'.lines, receivedAfter)
  {
    var perUnit := PerUnit(lines, a);
    var absorbed := Absorbed(b.costs, lines[a.line], a.line, receivedAfter[a.line], perUnit);
    Books(Raised(b.costs, lines[a.line], a.line, receivedAfter[a.line], perUnit),
          b.lines[a.line := Credited(b.lines[a.line], absorbed)], b.absorbed + absorbed)
  }

  function RaiseAll(
      costs: CostState, lines: seq<TargetLine>, receivedAfter: seq<int>, perLine: seq<Allotment>): (b: Books)
    requires Loadable(lines, receivedAfter) && Within(perLine, |lines|)
    ensures Loadable(b.lines, receivedAfter)
  {
    if perLine == [] then Books(costs, lines, 0)
    else RaiseOne(RaiseAll(costs, lines, receivedAfter, perLine[..|perLine| - 1]), lines, receivedAfter,
                  perLine[|perLine| - 1])
  }

  class LoadedReceipts {
    var lines: seq<TargetLine>
    var costs: CostState

    method RaiseCostState(line: nat, l: TargetLine, receivedAfter: int, perUnit: int) returns (absorbed: int)
      modifies this`costs
      ensures absorbed == Absorbed(old(costs), l, line, receivedAfter, perUnit)
      ensures costs == Raised(old(costs), l, line, receivedAfter, perUnit)
    {
      if l.usesWac {
        if l.scope !in costs.wac || costs.wac[l.scope].onHand <= 0 {
          return 0;
        }
        var w := costs.wac[l.scope];
        var absorbable := StillOnHand(l.baseQty, w.onHand, receivedAfter);
        if absorbable <= 0 {
          return 0;
        }
        absorbed := Amount(absorbable, perUnit);
        var average := RoundDiv(w.onHand * w.average + absorbed * SCALE, w.onHand);
        costs := costs.(wac := costs.wac[l.scope := w.(average := average)]);
        return;
      }
      if line !in costs.layers {
        return 0;
      }
      var layer := costs.layers[line];
      costs := costs.(layers := costs.layers[line := layer.(cost := layer.cost + perUnit)]);
      absorbed := Amount(Max(0, layer.remaining), perUnit);
    }

    /** Raises the lines in the order they first took a share, each credited with what it absorbed. */
    method RaiseLines(perLine: seq<Allotment>, receivedAfter: seq<int>) returns (absorbedTotal: int)
      requires Loadable(lines, receivedAfter) && Within(perLine, |lines|)
      modifies this
      ensures Books(costs, lines, absorbedTotal) == RaiseAll(old(costs), old(lines), receivedAfter, perLine)
    {
      var targets := lines;
      absorbedTotal := 0;
      for i := 0 to |perLine|
        invariant Books(costs, lines, absorbedTotal) == RaiseAll(old(costs), targets, receivedAfter, perLine[..i])
      {
        assert perLine[..i + 1][..i] == perLine[..i];
        assert perLine[i] in perLine;
        var a := perLine[i];
        var absorbed :=
          RaiseCostState(a.line, targets[a.line], receivedAfter[a.line], UnitRate(a.amount, targets[a.line].baseQty));
        absorbedTotal := absorbedTotal + absorbed;
        lines := lines[a.line := Credited(lines[a.line], absorbed)];
      }
      assert perLine[..|perLine|] == perLine;
    }

    /** The effect published is what was absorbed; None when nothing was. */
    method ApplyLandedCost(
        charges: seq<Charge>, capitalisable: set<CostType>, receivedAfter: seq<int>, documentId: nat,
        table: AllocationTable)
      returns (r: Result<Option<int>, Refused>, ghost shares: seq<Share>, ghost spreads: seq<seq<int>>)
      requires Loadable(lines, receivedAfter)
      modifies this, table
      ensures r.Ok? <==>
        forall i :: 0 <= i < |charges| ==> Chargeable(charges[i], capitalisable) && Spreadable(charges[i], old(lines))
      ensures r.Err? ==> lines == old(lines) && costs == old(costs) && table.parents == old(table.parents)
      ensures r.Ok? ==> Ties(charges, old(lines), shares) && Within(PerLine(shares), |old(lines)|)
      ensures r.Ok? ==> SpreadOver(charges, old(lines), spreads, shares)
      ensures r.Ok? ==> documentId in table.parents && RowsTie(charges, old(lines), shares, table.parents[documentId])
      ensures r.Ok? ==>
        var after := RaiseAll(old(costs), old(lines), receivedAfter, PerLine(shares));
        && costs == after.costs && lines == after.lines
        && r.value == (if after.absorbed == 0 then None else Some(after.absorbed))
        && table.parents == old(table.parents)[documentId := Parents(Grouped(shares))]
    {
      shares, spreads := [], [];
      var refusal := CheckCharges(charges, capitalisable);
      if refusal.Some? {
        return Err(refusal.value), [], [];
      }
      var spread;
      spread, spreads := SpreadCharges(charges, lines);
      if spread.Err? {
        return Err(spread.error), [], [];
      }
      shares := spread.value;
      PerLineShape(spread.value, |lines|);
      ParentsTieToCharges(charges, lines, spread.value);
      var absorbedTotal := RaiseLines(PerLine(spread.value), receivedAfter);
      table.WriteLandedCostAllocation(documentId, spread.value);
      return Ok(if absorbedTotal == 0 then None else Some(absorbedTotal)), spread.value, spreads;
    }
  }

  // ------------------------------------------------------------------ conservation

  function Amounts(lines: seq<TargetLine>): (xs: seq<int>)
    ensures |xs| == |lines|
  {
    seq(|lines|, i requires 0 <= i < |lines| => lines[i].amount)
  }

  function LandedAmounts(lines: seq<TargetLine>): (xs: seq<int>)
    ensures |xs| == |lines|
  {
    seq(|lines|, i requires 0 <= i < |lines| => lines[i].landed)
  }

  lemma CreditTotals(lines: seq<TargetLine>, i: nat, absorbed: int)
    requires i < |lines| && 0 < lines[i].baseQty
    ensures var lines' := lines[i := Credited(lines[i], absorbed)];
      Sum(Amounts(lines')) == Sum(Amounts(lines)) + absorbed
        && Sum(LandedAmounts(lines')) == Sum(LandedAmounts(lines)) + absorbed
  {
    var lines' := lines[i := Credited(lines[i], absorbed)];
    assert Amounts(lines') == Amounts(lines)[i := lines[i].amount + absorbed];
    assert LandedAmounts(lines') == LandedAmounts(lines)[i := lines[i].landed + absorbed];
    SumUpdate(Amounts(lines), i, lines[i].amount + absorbed);
    SumUpdate(LandedAmounts(lines), i, lines[i].landed + absorbed);
  }

  /** The lines' valuation, their landed cost and the published effect rise by the same amount. */
  lemma {:induction false} AbsorptionConserves(
      costs: CostState, lines: seq<TargetLine>, receivedAfter: seq<int>, perLine: seq<Allotment>)
    requires Loadable(lines, receivedAfter) && Within(perLine, |lines|)
    ensures var after := RaiseAll(costs, lines, receivedAfter, perLine);
      && |after.lines| == |lines|
      && Sum(Amounts(after.lines)) - Sum(Amounts(lines)) == after.absorbed
      && Sum(LandedAmounts(after.lines)) - Sum(LandedAmounts(lines)) == after.absorbed
  {
    if perLine != [] {
      var k := |perLine| - 1;
      AbsorptionConserves(costs, lines, receivedAfter, perLine[..k]);
      var b := RaiseAll(costs, lines, receivedAfter, perLine[..k]);
      var a := perLine[k];
      CreditTotals(b.lines, a.line, Absorbed(b.costs, lines[a.line], a.line, receivedAfter[a.line], PerUnit(lines, a)));
    }
  }

  lemma {:induction false} RaisingAllKeepsQuantities(
      costs: CostState, lines: seq<TargetLine>, receivedAfter: seq<int>, perLine: seq<Allotment>, m: TargetLine,
      other: nat, after: int)
    requires Loadable(lines, receivedAfter) && Within(perLine, |lines|)
    ensures AbsorbableQty(RaiseAll(costs, lines, receivedAfter, perLine).costs, m, other, after)
      == AbsorbableQty(costs, m, other, after)
  {
    if perLine != [] {
      var k := |perLine| - 1;
      var a := perLine[k];
      var b := RaiseAll(costs, lines, receivedAfter, perLine[..k]);
      RaisingAllKeepsQuantities(costs, lines, receivedAfter, perLine[..k], m, other, after);
    }
  }

  /**
   Each line rises by what its own allotment is worth on the quantity it had when posting
   began: neither the order of the lines nor a shared average changes what one absorbs.
   */
  lemma {:induction false} EachLineAbsorbsItsOwn(
      costs: CostState, lines: seq<TargetLine>, receivedAfter: seq<int>, perLine: seq<Allotment>, i: nat)
    requires Loadable(lines, receivedAfter) && Within(perLine, |lines|) && DistinctAllotments(perLine) && i < |lines|
    ensures var after := RaiseAll(costs, lines, receivedAfter, perLine);
      |after.lines| == |lines| && after.lines[i] ==
        if exists a :: a in perLine && a.line == i
        then
          var perUnit := UnitRate(AllottedTo(perLine, i), lines[i].baseQty);
          Credited(lines[i], Absorbed(costs, lines[i], i, receivedAfter[i], perUnit))
        else lines[i]
  {
    if perLine != [] {
      var k := |perLine| - 1;
      var before, a := perLine[..k], perLine[k];
      EachLineAbsorbsItsOwn(costs, lines, receivedAfter, before, i);
      assert perLine == before + [a];
      if a.line == i {
        assert forall c :: c in before ==> c.line != i;
        RaisingAllKeepsQuantities(costs, lines, receivedAfter, before, lines[i], i, receivedAfter[i]);
        AllottedAt(perLine, k);
      } else {
        AllottedBefore(before, a, i);
      }
    }
  }

  lemma {:induction false} AllottedBefore(before: seq<Allotment>, a: Allotment, i: nat)
    requires a.line != i
    ensures AllottedTo(before + [a], i) == AllottedTo(before, i)
  {
    if before != [] {
      assert (before + [a])[1..] == before[1..] + [a];
      AllottedBefore(before[1..], a, i);
    }
  }

  lemma ProductWithin(qty: int, baseQty: int, perUnit: int)
    requires 0 <= qty <= baseQty
    ensures Abs(qty * perUnit) <= Abs(baseQty * perUnit)
  {
    if 0 <= perUnit {
      MulMonotone(qty, baseQty, perUnit);
      MulMonotone(0, qty, perUnit);
    } else {
      MulMonotone(qty, baseQty, -perUnit);
      MulMonotone(0, qty, -perUnit);
    }
  }

  lemma PartWithinAllotment(qty: int, baseQty: int, allotment: int)
    requires 0 <= qty <= baseQty && 0 < baseQty
    ensures var absorbed := Amount(qty, UnitRate(allotment, baseQty));
      2 * SCALE * Abs(absorbed) <= 2 * SCALE * Abs(allotment) + baseQty + SCALE
  {
    var perUnit := UnitRate(allotment, baseQty);
    ProductWithin(qty, baseQty, perUnit);
    assert perUnit * baseQty == baseQty * perUnit;
    RoundedTwice(Amount(qty, perUnit), allotment, baseQty, qty * perUnit, baseQty * perUnit);
  }

  lemma RoundedTwice(absorbed: int, allotment: int, baseQty: int, part: int, whole: int)
    requires Abs(2 * (absorbed * SCALE - part)) <= SCALE
    requires Abs(2 * (whole - allotment * SCALE)) <= baseQty
    requires Abs(part) <= Abs(whole)
    ensures 2 * SCALE * Abs(absorbed) <= 2 * SCALE * Abs(allotment) + baseQty + SCALE
  {
  }

  /** A line kept in layers has no more left in its layer than it brought in. */
  predicate LayerWithinLine(costs: CostState, l: TargetLine, line: nat)
  {
    !l.usesWac && line in costs.layers ==> costs.layers[line].remaining <= l.baseQty
  }

  lemma AbsorbableWithinLine(costs: CostState, l: TargetLine, line: nat, receivedAfter: int)
    requires 0 < l.baseQty && LayerWithinLine(costs, l, line)
    ensures 0 <= AbsorbableQty(costs, l, line, receivedAfter) <= l.baseQty
  {
  }

  /** What line i absorbs of its own allotment; nothing where it has none. */
  function OwnAbsorbed(
      costs: CostState, lines: seq<TargetLine>, receivedAfter: seq<int>, perLine: seq<Allotment>, i: nat): int
    requires Loadable(lines, receivedAfter) && i < |lines|
  {
    if exists a :: a in perLine && a.line == i
    then Absorbed(costs, lines[i], i, receivedAfter[i], UnitRate(AllottedTo(perLine, i), lines[i].baseQty))
    else 0
  }

  lemma OwnAbsorbedWithin(
      costs: CostState, lines: seq<TargetLine>, receivedAfter: seq<int>, perLine: seq<Allotment>, i: nat)
    requires Loadable(lines, receivedAfter) && i < |lines| && LayerWithinLine(costs, lines[i], i)
    ensures 2 * SCALE * Abs(OwnAbsorbed(costs, lines, receivedAfter, perLine, i))
      <= 2 * SCALE * Abs(AllottedTo(perLine, i)) + lines[i].baseQty + SCALE
  {
    AbsorbableWithinLine(costs, lines[i], i, receivedAfter[i]);
    PartWithinAllotment(AbsorbableQty(costs, lines[i], i, receivedAfter[i]), lines[i].baseQty, AllottedTo(perLine, i));
  }

  lemma LineGains(
      costs: CostState, lines: seq<TargetLine>, receivedAfter: seq<int>, perLine: seq<Allotment>,
      after: seq<TargetLine>, i: nat)
    requires Loadable(lines, receivedAfter) && Within(perLine, |lines|) && DistinctAllotments(perLine) && i < |lines|
    requires after == RaiseAll(costs, lines, receivedAfter, perLine).lines
    ensures |after| == |lines|
      && after[i] == Credited(lines[i], OwnAbsorbed(costs, lines, receivedAfter, perLine, i))
  {
    EachLineAbsorbsItsOwn(costs, lines, receivedAfter, perLine, i);
  }

  /**
   Whatever the charges and the other lines, no line's valuation or landed cost moves, in
   either direction, by more than its allotment + 0.00005 x (quantity + 1).
   */
  lemma AbsorbedWithinAllotment(
      costs: CostState, lines: seq<TargetLine>, receivedAfter: seq<int>, perLine: seq<Allotment>,
      after: seq<TargetLine>, i: nat)
    requires Loadable(lines, receivedAfter) && Within(perLine, |lines|) && DistinctAllotments(perLine) && i < |lines|
    requires LayerWithinLine(costs, lines[i], i)
    requires after == RaiseAll(costs, lines, receivedAfter, perLine).lines
    ensures |after| == |lines|
    ensures after[i].amount - lines[i].amount == after[i].landed - lines[i].landed
    ensures 2 * SCALE * Abs(after[i].amount - lines[i].amount)
      <= 2 * SCALE * Abs(AllottedTo(perLine, i)) + lines[i].baseQty + SCALE
  {
    LineGains(costs, lines, receivedAfter, perLine, after, i);
    OwnAbsorbedWithin(costs, lines, receivedAfter, perLine, i);
    CreditMoves(lines[i], OwnAbsorbed(costs, lines, receivedAfter, perLine, i));
  }

  lemma CreditMoves(l: TargetLine, absorbed: int)
    requires 0 < l.baseQty
    ensures Credited(l, absorbed).amount - l.amount == absorbed && Credited(l, absorbed).landed - l.landed == absorbed
  {
  }

  // ------------------------------------------------------------------ how much a line takes

  /**
   What of a line is still there: its layer's stock, or of an average its own quantity within
   what is on hand past later receipts.
   */
  function StillThere(costs: CostState, l: TargetLine, line: nat, receivedAfter: int): int
  {
    var held := if l.usesWac && l.scope in costs.wac && 0 < costs.wac[l.scope].onHand then
                  var left := costs.wac[l.scope].onHand - receivedAfter;
                  if left < l.baseQty then left else l.baseQty
                else if !l.usesWac && line in costs.layers then costs.layers[line].remaining
                else 0;
    if held < 0 then 0 else held
  }

  lemma AbsorbsInProportion(q: nat, baseQty: int, allotment: int, gained: int)
    requires 0 < baseQty && gained == Amount(q, UnitRate(allotment, baseQty))
    ensures 2 * Abs((gained * baseQty - q * allotment) * SCALE) <= (SCALE + q) * baseQty
  {
    var perUnit := UnitRate(allotment, baseQty);
    var e1, e2 := gained * SCALE - q * perUnit, perUnit * baseQty - allotment * SCALE;
    Scaled(e1, baseQty, SCALE);
    Scaled(e2, q, baseQty);
    ErrorsApart(q, baseQty, allotment, gained, perUnit);
  }

  lemma Scaled(e: int, times: nat, bound: int)
    requires 2 * Abs(e) <= bound
    ensures 2 * Abs(e * times) <= bound * times
  {
    MulMonotone(2 * e, bound, times);
    MulMonotone(-bound, 2 * e, times);
  }

  lemma ErrorsApart(q: int, baseQty: int, allotment: int, gained: int, perUnit: int)
    ensures (gained * baseQty - q * allotment) * SCALE
      == (gained * SCALE - q * perUnit) * baseQty + (perUnit * baseQty - allotment * SCALE) * q
    ensures (SCALE + q) * baseQty == SCALE * baseQty + baseQty * q
  {
    MulDistributes(gained * SCALE, -(q * perUnit), baseQty);
    MulDistributes(perUnit * baseQty, -(allotment * SCALE), q);
    assert gained * SCALE * baseQty == gained * baseQty * SCALE;
    assert q * perUnit * baseQty == perUnit * baseQty * q;
    assert allotment * SCALE * q == q * allotment * SCALE;
  }

  /**
   From l to l': a gain in proportion to the q of it still there, up to the rounding of the
   rate and of the amount, in value and in landed cost alike; the rate is the amount over the
   quantity; nothing else moves, and nothing at all where nothing is gained.
   */
  predicate TakesPart(l: TargetLine, l': TargetLine, q: int, allotment: int)
  {
    var gained := l'.amount - l.amount;
    && 2 * Abs((gained * l.baseQty - q * allotment) * SCALE) <= (SCALE + q) * l.baseQty
    && l'.landed - l.landed == gained
    && (gained != 0 ==> 2 * Abs(l'.rate * l.baseQty - l'.amount * SCALE) <= l.baseQty)
    && (gained == 0 ==> l' == l)
    && l' == TargetLine(l.target, l.scope, l.usesWac, l.baseQty, l'.rate, l'.amount, l'.landed)
  }

  lemma CreditTakesPart(l: TargetLine, gained: int, q: int, allotment: int)
    requires 0 < l.baseQty && 2 * Abs((gained * l.baseQty - q * allotment) * SCALE) <= (SCALE + q) * l.baseQty
    ensures TakesPart(l, Credited(l, gained), q, allotment)
  {
    assert Credited(l, gained).amount - l.amount == gained;
  }

  /** Every line takes its part of its own allotment, whatever the charges and the other lines. */
  lemma LineTakesItsPart(
      costs: CostState, lines: seq<TargetLine>, receivedAfter: seq<int>, perLine: seq<Allotment>,
      after: seq<TargetLine>, i: nat)
    requires Loadable(lines, receivedAfter) && Within(perLine, |lines|) && DistinctAllotments(perLine) && i < |lines|
    requires after == RaiseAll(costs, lines, receivedAfter, perLine).lines
    ensures |after| == |lines|
      && TakesPart(lines[i], after[i], StillThere(costs, lines[i], i, receivedAfter[i]), AllottedTo(perLine, i))
  {
    LineGains(costs, lines, receivedAfter, perLine, after, i);
    OwnPart(costs, lines, receivedAfter, perLine, i);
    CreditTakesPart(lines[i], OwnAbsorbed(costs, lines, receivedAfter, perLine, i),
                    StillThere(costs, lines[i], i, receivedAfter[i]), AllottedTo(perLine, i));
  }

  lemma StillIsAbsorbable(costs: CostState, l: TargetLine, line: nat, receivedAfter: int)
    ensures StillThere(costs, l, line, receivedAfter) == AbsorbableQty(costs, l, line, receivedAfter)
    ensures 0 <= StillThere(costs, l, line, receivedAfter)
  {
  }

  lemma OwnPart(costs: CostState, lines: seq<TargetLine>, receivedAfter: seq<int>, perLine: seq<Allotment>, i: nat)
    requires Loadable(lines, receivedAfter) && i < |lines|
    ensures var q := StillThere(costs, lines[i], i, receivedAfter[i]);
      var gained := OwnAbsorbed(costs, lines, receivedAfter, perLine, i);
      2 * Abs((gained * lines[i].baseQty - q * AllottedTo(perLine, i)) * SCALE) <= (SCALE + q) * lines[i].baseQty
  {
    StillIsAbsorbable(costs, lines[i], i, receivedAfter[i]);
    var q := StillThere(costs, lines[i], i, receivedAfter[i]);
    var gained := OwnAbsorbed(costs, lines, receivedAfter, perLine, i);
    if exists a :: a in perLine && a.line == i {
      AbsorbsInProportion(q, lines[i].baseQty, AllottedTo(perLine, i), gained);
    } else {
      NotAllotted(perLine, i);
      MulMonotone(0, SCALE + q, lines[i].baseQty);
    }
  }

  // ------------------------------------------------------------------ the two methods on the same facts

  /** A run's receipts as cost state: one layer each where layers are kept, one pool where they are not. */
  ghost predicate SameFacts(s: ReceiptRemainder.Stock, layered: CostState, averaged: CostState, scope: Scope)
    requires ReceiptRemainder.LedgerInv(s)
  {
    && (forall i :: 0 <= i < |s.rems| ==> i in layered.layers && layered.layers[i].remaining == s.rems[i])
    && scope in averaged.wac && averaged.wac[scope].onHand == s.onHand
  }

  /** Received after receipt i, as its movement reads it off the ledger. */
  function After(s: ReceiptRemainder.Stock, i: nat): int
    requires i < |s.own| && s.own[i] < |s.movements|
  {
    ReceiptRemainder.ReceivedAfter(s.movements, s.movements[s.own[i]].date, s.own[i])
  }

  /** The line of receipt i, its item keeping layers or an average. */
  function LineOf(s: ReceiptRemainder.Stock, i: nat, scope: Scope, usesWac: bool): TargetLine
    requires i < |s.received|
  {
    TargetLine(0, scope, usesWac, s.received[i], 0, 0, 0)
  }

  predicate AbsorbAlike(
      s: ReceiptRemainder.Stock, layered: CostState, averaged: CostState, scope: Scope, i: nat, perUnit: int)
    requires i < |s.received| == |s.own| && s.own[i] < |s.movements|
  {
    Absorbed(layered, LineOf(s, i, scope, false), i, After(s, i), perUnit)
    == Absorbed(averaged, LineOf(s, i, scope, true), i, After(s, i), perUnit)
  }

  lemma WholeAmount(qty: int)
    ensures Amount(qty, SCALE) == qty
  {
    RoundDivUnique(qty * SCALE, SCALE, qty);
  }

  /** A rate of one tells the quantities apart, and equal quantities absorb alike at every rate. */
  lemma AlikeIffSameQuantity(s: ReceiptRemainder.Stock, layered: CostState, averaged: CostState, scope: Scope, i: nat)
    requires ReceiptRemainder.Inv(s) && SameFacts(s, layered, averaged, scope) && i < |s.received|
    ensures (forall perUnit :: AbsorbAlike(s, layered, averaged, scope, i, perUnit))
      <==> s.rems[i] == ReceiptRemainder.LedgerReading(s, i)
  {
    assert ReceiptRemainder.LayerOk(s, i);
    assert AbsorbableQty(layered, LineOf(s, i, scope, false), i, After(s, i)) == s.rems[i];
    ReadingOfAverage(s, averaged, scope, i);
    WholeAmount(s.rems[i]);
    WholeAmount(ReceiptRemainder.LedgerReading(s, i));
    if forall perUnit :: AbsorbAlike(s, layered, averaged, scope, i, perUnit) {
      assert AbsorbAlike(s, layered, averaged, scope, i, SCALE);
    }
  }

  lemma ReadingOfAverage(s: ReceiptRemainder.Stock, averaged: CostState, scope: Scope, i: nat)
    requires ReceiptRemainder.Inv(s) && scope in averaged.wac && averaged.wac[scope].onHand == s.onHand
    requires i < |s.received|
    ensures AbsorbableQty(averaged, LineOf(s, i, scope, true), i, After(s, i)) == ReceiptRemainder.LedgerReading(s, i)
  {
    ReceiptRemainder.ReadingIsClosedForm(s, i);
    SumNonNegative(s.received[i + 1..]);
  }

  /**
   Over every run of receipts and issues, the layered and the averaged branch absorb the same
   on every receipt at every rate exactly when no issue left its last 0.0001 undrawn and no
   layer has been drawn while one dated before it still holds stock.
   */
  lemma BothMethodsAbsorbTheSame(
      es: seq<ReceiptRemainder.Event>, s: ReceiptRemainder.Stock, layered: CostState, averaged: CostState, scope: Scope)
    requires ReceiptRemainder.LegalRun(es) && s == ReceiptRemainder.Run(es)
    requires ReceiptRemainder.Inv(s) && SameFacts(s, layered, averaged, scope)
    ensures (forall i, perUnit :: 0 <= i < |s.received| ==> AbsorbAlike(s, layered, averaged, scope, i, perUnit))
      <==> ReceiptRemainder.NoIssueLeavesAUnit(es) && OldestFirst(s.received, s.rems)
  {
    ReceiptRemainder.ClosedFormOnRuns(es, s);
    AlikeIffReadingsAgree(s, layered, averaged, scope);
  }

  lemma AlikeIffReadingsAgree(s: ReceiptRemainder.Stock, layered: CostState, averaged: CostState, scope: Scope)
    requires ReceiptRemainder.Inv(s) && SameFacts(s, layered, averaged, scope)
    ensures (forall i, perUnit :: 0 <= i < |s.received| ==> AbsorbAlike(s, layered, averaged, scope, i, perUnit))
      <==> ReceiptRemainder.LayersAgreeWithLedger(s)
  {
    forall i | 0 <= i < |s.received|
      ensures (forall perUnit :: AbsorbAlike(s, layered, averaged, scope, i, perUnit))
        <==> s.rems[i] == ReceiptRemainder.LedgerReading(s, i)
    {
      AlikeIffSameQuantity(s, layered, averaged, scope, i);
    }
  }
}
