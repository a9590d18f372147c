/**
 A landed cost that arrives on the receipt itself: where entry lets it be carried, and what
 posting makes of it.
 */
module ReceiptLandedCost {
  import opened Outcomes
  import opened FixedPoint
  import opened Allocation
  import opened AllocationDetail
  import opened DocumentTypes

  datatype Part = Part(costType: CostType, basis: Basis, amount: int)

  /**
   One payload line: the quantity entered, the same in base units as the conversion rounded
   it, and the landed cost. direction is what a by-line type was told, Neither when it was
   told nothing.
   */
  datatype EntryLine = EntryLine(direction: Flow, qty: int, baseQty: int, amount: int, breakdown: seq<Part>)

  /** Base quantity of a quantity entered at a factor given in units of 0.0001. */
  function ToBaseQty(qty: int, factor: int): int { Amount(qty, if 0 < factor then factor else SCALE) }

  /** One stored row; its line id is its place in the document. */
  datatype StoredLine = StoredLine(direction: Flow, baseQty: int, landed: int, breakdown: seq<Part>)

  datatype Refusal =
    | QuantityMissing
    | NegativeAmount
    | BreakdownDoesNotTie
    | TypeNotCapitalised
    | NotAllowedHere
    | DirectionMissing

  /** One paisa, the tolerance a breakdown may miss its total by. */
  const PAISA := 100

  function PartAmounts(parts: seq<Part>): (xs: seq<int>)
    ensures |xs| == |parts|
  {
    seq(|parts|, i requires 0 <= i < |parts| => parts[i].amount)
  }

  // ------------------------------------------------------------------ entry

  predicate AmountsAreValid(l: EntryLine)
  {
    0 <= l.amount && forall i :: 0 <= i < |l.breakdown| ==> 0 <= l.breakdown[i].amount
  }

  predicate BreakdownTies(l: EntryLine)
  {
    l.breakdown == [] || Abs(Sum(PartAmounts(l.breakdown)) - l.amount) <= PAISA
  }

  /** The company's capitalisation policy, asked of one line: an amount with no breakdown is an 'other' charge. */
  predicate PolicyAllows(amount: int, breakdown: seq<Part>, capitalisable: set<CostType>)
  {
    && (forall i :: 0 <= i < |breakdown| ==> breakdown[i].costType in capitalisable)
    && (0 < amount && breakdown == [] ==> OtherCost in capitalisable)
  }

  /** Where a landed cost may be carried at all. */
  predicate AllowedAt(b: Behaviour, direction: Flow, amount: int)
  {
    amount <= 0 || (b.valuation && direction == In && Capitalises(b))
  }

  /** The rows one payload line becomes. Both legs of a transfer carry the amount and lose the breakdown. */
  function Emit(b: Behaviour, l: EntryLine): seq<StoredLine>
  {
    match b.lineMode
    case FixedIn => [StoredLine(In, l.baseQty, l.amount, l.breakdown)]
    case FixedOut => [StoredLine(Out, l.baseQty, l.amount, l.breakdown)]
    case Transfer => [StoredLine(Out, l.baseQty, l.amount, []), StoredLine(In, l.baseQty, l.amount, [])]
    case ByLine => [StoredLine(l.direction, l.baseQty, l.amount, l.breakdown)]
    case StatusOnly | PendingOnly => [StoredLine(b.statusDirection, l.baseQty, l.amount, l.breakdown)]
  }

  predicate Accepted(b: Behaviour, capitalisable: set<CostType>, l: EntryLine)
  {
    && 0 < l.qty && AmountsAreValid(l) && BreakdownTies(l) && PolicyAllows(l.amount, l.breakdown, capitalisable)
    && (b.lineMode.ByLine? ==> l.direction != Neither)
    && forall i :: 0 <= i < |Emit(b, l)| ==> AllowedAt(b, Emit(b, l)[i].direction, Emit(b, l)[i].landed)
  }

  function EmitAll(b: Behaviour, raw: seq<EntryLine>): seq<StoredLine>
  {
    if raw == [] then [] else EmitAll(b, raw[..|raw| - 1]) + Emit(b, raw[|raw| - 1])
  }

  predicate EntryAccepts(b: Behaviour, capitalisable: set<CostType>, raw: seq<EntryLine>)
  {
    forall i :: 0 <= i < |raw| ==> Accepted(b, capitalisable, raw[i])
  }

  method CheckLine(b: Behaviour, capitalisable: set<CostType>, line: EntryLine) returns (refusal: Option<Refusal>)
    ensures refusal.None? <==> Accepted(b, capitalisable, line)
  {
    if line.qty <= 0 {
      return Some(QuantityMissing);
    }
    if !AmountsAreValid(line) {
      return Some(NegativeAmount);
    }
    if !BreakdownTies(line) {
      return Some(BreakdownDoesNotTie);
    }
    if !PolicyAllows(line.amount, line.breakdown, capitalisable) {
      return Some(TypeNotCapitalised);
    }
    if b.lineMode.ByLine? && line.direction == Neither {
      return Some(DirectionMissing);
    }
    var emitted := Emit(b, line);
    for k := 0 to |emitted|
      invariant forall i :: 0 <= i < k ==> AllowedAt(b, emitted[i].direction, emitted[i].landed)
    {
      if !AllowedAt(b, emitted[k].direction, emitted[k].landed) {
        return Some(NotAllowedHere);
      }
    }
    return None;
  }

  method NormalizeLines(b: Behaviour, capitalisable: set<CostType>, raw: seq<EntryLine>)
    returns (r: Result<seq<StoredLine>, Refusal>)
    ensures r.Ok? <==> EntryAccepts(b, capitalisable, raw)
    ensures r.Ok? ==> r.value == EmitAll(b, raw)
  {
    var out: seq<StoredLine> := [];
    for idx := 0 to |raw|
      invariant forall i :: 0 <= i < idx ==> Accepted(b, capitalisable, raw[i])
      invariant out == EmitAll(b, raw[..idx])
    {
      assert raw[..idx + 1][..idx] == raw[..idx];
      var refusal := CheckLine(b, capitalisable, raw[idx]);
      if refusal.Some? {
        return Err(refusal.value);
      }
      out := out + Emit(b, raw[idx]);
    }
    assert raw[..|raw|] == raw;
    r := Ok(out);
  }

  /** A breakdown ties to its amount within a paisa, of one hundred units of 0.0001. */
  predicate TiesToAPaisa(l: EntryLine)
  {
    l.breakdown == [] || -100 <= Sum(PartAmounts(l.breakdown)) - l.amount <= 100
  }

  /** What entry asks of a line, in plain terms. */
  predicate MayBeEntered(b: Behaviour, capitalisable: set<CostType>, l: EntryLine)
  {
    && 0 < l.qty && 0 <= l.amount && (forall i :: 0 <= i < |l.breakdown| ==> 0 <= l.breakdown[i].amount)
    && TiesToAPaisa(l)
    && (forall i :: 0 <= i < |l.breakdown| ==> l.breakdown[i].costType in capitalisable)
    && (0 < l.amount && l.breakdown == [] ==> OtherCost in capitalisable)
    && (b.lineMode == ByLine ==> l.direction != Neither)
    && (0 < l.amount ==> b.valuation && b.moves && match b.lineMode
          case FixedIn => true
          case FixedOut | Transfer => false
          case ByLine => l.direction == In
          case StatusOnly | PendingOnly => b.statusDirection == In)
  }

  lemma EntryAsks(b: Behaviour, capitalisable: set<CostType>, l: EntryLine)
    ensures Accepted(b, capitalisable, l) <==> MayBeEntered(b, capitalisable, l)
  {
    var rows := Emit(b, l);
    if MayBeEntered(b, capitalisable, l) {
      forall i | 0 <= i < |rows|
        ensures AllowedAt(b, rows[i].direction, rows[i].landed)
      {
      }
    }
    if Accepted(b, capitalisable, l) {
      assert AllowedAt(b, rows[0].direction, rows[0].landed);
    }
  }

  /** The rows a line becomes: one in its type's or its own direction, a transfer's two, all of its base quantity. */
  lemma RowsOfLine(b: Behaviour, l: EntryLine)
    ensures var rows := Emit(b, l);
      && (if b.lineMode == Transfer then |rows| == 2 && rows[0].direction == Out && rows[1].direction == In
          else |rows| == 1)
      && (forall i :: 0 <= i < |rows| ==> rows[i].baseQty == l.baseQty && rows[i].landed == l.amount)
      && (b.lineMode == FixedIn ==> rows[0].direction == In) && (b.lineMode == FixedOut ==> rows[0].direction == Out)
      && (b.lineMode == ByLine ==> rows[0].direction == l.direction)
      && (b.lineMode == StatusOnly || b.lineMode == PendingOnly ==> rows[0].direction == b.statusDirection)
      && (b.lineMode != Transfer ==> rows[0].breakdown == l.breakdown)
  {
  }

  /** A quantity in base units is the quantity times its factor; a factor of nothing is one. */
  lemma BaseQtyIsNear(qty: int, factor: int)
    ensures var f := if factor <= 0 then 10000 else factor;
      Abs(2 * (ToBaseQty(qty, factor) * 10000 - qty * f)) <= 10000
  {
  }

  /** A line carrying an amount is accepted only where the goods it costs enter, valued, right now. */
  lemma AmountOnlyWhereCapitalised(b: Behaviour, capitalisable: set<CostType>, l: EntryLine)
    requires Registered(b) && Accepted(b, capitalisable, l) && 0 < l.amount
    ensures Capitalises(b) && (b.lineMode.FixedIn? || b.lineMode.ByLine?)
    ensures Emit(b, l) == [StoredLine(In, l.baseQty, l.amount, l.breakdown)]
  {
    assert AllowedAt(b, Emit(b, l)[0].direction, Emit(b, l)[0].landed);
  }

  /** Both legs of a transfer, every outward line and every document that defers its goods are refused an amount. */
  lemma RefusedPlaces(t: DocType, e: StockEffect, capitalisable: set<CostType>, l: EntryLine)
    requires 0 < l.amount
    requires t.StockTransfer? || LineModeOf(t).FixedOut? || (LineModeOf(t).ByLine? && l.direction == Out)
      || (t.PurchaseReceipt? && e.DeferInward?) || (t.SalesReturn? && e.FromPhysicalChallan?) || !CarriesValuation(t)
    ensures !Accepted(BehaviourOf(t, e), capitalisable, l)
  {
    EveryTypeIsRegistered(t, e);
    if Accepted(BehaviourOf(t, e), capitalisable, l) {
      AmountOnlyWhereCapitalised(BehaviourOf(t, e), capitalisable, l);
    }
  }

  // ------------------------------------------------------------------ posting

  /** The unit cost of an inward line with its landed cost loaded onto it. */
  function LoadedInwardUnitCost(unitCost: int, baseQty: int, landed: int): int
  {
    if baseQty <= 0 then unitCost else RoundDiv(unitCost * baseQty + landed * SCALE, baseQty)
  }

  /** What the line is valued at is the goods plus the landed cost, within 0.00005 x (quantity + 1). */
  lemma LoadedValueIsNear(unitCost: int, baseQty: int, landed: int)
    requires 0 < baseQty
    ensures var amount := Amount(baseQty, LoadedInwardUnitCost(unitCost, baseQty, landed));
      Abs(2 * (amount * SCALE - (unitCost * baseQty + landed * SCALE))) <= baseQty + SCALE
  {
    var exact, rate := unitCost * baseQty + landed * SCALE, LoadedInwardUnitCost(unitCost, baseQty, landed);
  }

  function LandedOnLine(b: Behaviour, l: StoredLine): int
  {
    if l.direction != In || !b.valuation then 0 else Max(0, l.landed)
  }

  function AsShares(parts: seq<Part>, amounts: seq<int>, line: nat, target: nat, baseQty: int): seq<Share>
    requires |amounts| == |parts|
  {
    if parts == [] then []
    else
      var k := |parts| - 1;
      AsShares(parts[..k], amounts[..k], line, target, baseQty)
      + if amounts[k] == 0 then [] else [Share(parts[k].costType, parts[k].basis, line, target, baseQty, amounts[k])]
  }

  /** The detail of one receipt line: its breakdown with the slack settled, or one direct 'other' charge. */
  ghost predicate Borne(l: StoredLine, line: nat, target: nat, landed: int, shares: seq<Share>)
  {
    if l.breakdown == [] then shares == [Share(OtherCost, Direct, line, target, l.baseQty, landed)]
    else exists amounts: seq<int> ::
      && Settles(PartAmounts(l.breakdown), landed, amounts) && |amounts| == |l.breakdown|
      && shares == AsShares(l.breakdown, amounts, line, target, l.baseQty)
  }

  /** The settled parts of these cost types. */
  function PartsOfTypes(parts: seq<Part>, amounts: seq<int>, q: CostType -> bool): int
    requires |amounts| == |parts|
  {
    if parts == [] then 0
    else
      var k := |parts| - 1;
      PartsOfTypes(parts[..k], amounts[..k], q) + if q(parts[k].costType) then amounts[k] else 0
  }

  /**
   The parts as entered but for one, which takes what they miss the amount by; all as entered
   where they miss nothing.
   */
  ghost predicate SettledParts(parts: seq<Part>, landed: int, amounts: seq<int>)
  {
    && |amounts| == |parts| && Sum(amounts) == landed
    && (Sum(PartAmounts(parts)) == landed ==> amounts == PartAmounts(parts))
    && exists k :: AsPartsBut(parts, amounts, k)
  }

  predicate AsPartsBut(parts: seq<Part>, amounts: seq<int>, k: nat)
  {
    |amounts| == |parts| && k < |parts| && forall i :: 0 <= i < |parts| && i != k ==> amounts[i] == parts[i].amount
  }

  /** What of a line's landed cost is of these types: its settled parts, or all of it under 'other'. */
  function BorneOfTypes(l: StoredLine, landed: int, amounts: seq<int>, q: CostType -> bool): int
    requires l.breakdown != [] ==> |amounts| == |l.breakdown|
  {
    if l.breakdown == [] then (if q(OtherCost) then landed else 0) else PartsOfTypes(l.breakdown, amounts, q)
  }

  /** Type by type the shares are the line's, and each of them names it. */
  ghost predicate BorneByType(l: StoredLine, line: nat, target: nat, landed: int, amounts: seq<int>, shares: seq<Share>)
  {
    && (l.breakdown != [] ==> SettledParts(l.breakdown, landed, amounts))
    && (forall q: CostType -> bool :: ShareTotal(shares, OfTypes(q)) == BorneOfTypes(l, landed, amounts, q))
    && (forall s :: s in shares ==> s.line == line && s.target == target && s.baseQty == l.baseQty)
  }

  method ReceiptBorneShares(l: StoredLine, line: nat, target: nat, landed: int)
    returns (shares: seq<Share>, ghost settled: seq<int>)
    ensures Borne(l, line, target, landed, shares)
    ensures BorneByType(l, line, target, landed, settled, shares)
  {
    if l.breakdown == [] {
      shares, settled := [Share(OtherCost, Direct, line, target, l.baseQty, landed)], [];
      assert shares[..0] == [];
      return;
    }
    assert PartAmounts(l.breakdown) != [];
    var amounts := SettleResidual(PartAmounts(l.breakdown), landed);
    shares, settled := [], amounts;
    for i := 0 to |l.breakdown|
      invariant shares == AsShares(l.breakdown[..i], amounts[..i], line, target, l.baseQty)
    {
      assert l.breakdown[..i + 1][..i] == l.breakdown[..i] && amounts[..i + 1][..i] == amounts[..i];
      if amounts[i] != 0 {
        shares := shares + [Share(l.breakdown[i].costType, l.breakdown[i].basis, line, target, l.baseQty, amounts[i])];
      }
    }
    assert l.breakdown[..|l.breakdown|] == l.breakdown && amounts[..|l.breakdown|] == amounts;
    PartsAreSettled(l.breakdown, landed, amounts);
    forall q: CostType -> bool
      ensures ShareTotal(shares, OfTypes(q)) == BorneOfTypes(l, landed, amounts, q)
    {
      AsSharesByType(l.breakdown, amounts, line, target, l.baseQty, q);
    }
    AsSharesByType(l.breakdown, amounts, line, target, l.baseQty, (c: CostType) => true);
  }

  lemma PartsAreSettled(parts: seq<Part>, landed: int, amounts: seq<int>)
    requires parts != [] && Settles(PartAmounts(parts), landed, amounts)
    ensures SettledParts(parts, landed, amounts)
  {
    var given := PartAmounts(parts);
    assert given != [];
    SettledSharesTie(given, landed, amounts);
    var k := ResidualKey(given, landed, amounts);
    assert forall i :: 0 <= i < |parts| ==> given[i] == parts[i].amount;
    assert AsPartsBut(parts, amounts, k);
  }

  lemma {:induction false} AsSharesByType(
      parts: seq<Part>, amounts: seq<int>, line: nat, target: nat, baseQty: int, q: CostType -> bool)
    requires |amounts| == |parts|
    ensures ShareTotal(AsShares(parts, amounts, line, target, baseQty), OfTypes(q)) == PartsOfTypes(parts, amounts, q)
    ensures forall s :: s in AsShares(parts, amounts, line, target, baseQty) ==>
      s.line == line && s.target == target && s.baseQty == baseQty
  {
    if parts != [] {
      var k := |parts| - 1;
      AsSharesByType(parts[..k], amounts[..k], line, target, baseQty, q);
      var before := AsShares(parts[..k], amounts[..k], line, target, baseQty);
      if amounts[k] == 0 {
        assert before + [] == before;
      } else {
        var s := Share(parts[k].costType, parts[k].basis, line, target, baseQty, amounts[k]);
        assert (before + [s])[..|before|] == before;
      }
    }
  }

  /** Every share, whatever it is filed under. */
  function All(): Filter { (c: CostType, t: nat, l: nat) => true }

  function EveryParent(): (CostType, nat) -> bool { (c: CostType, t: nat) => true }

  lemma {:induction false} AsSharesTotal(parts: seq<Part>, amounts: seq<int>, line: nat, target: nat, baseQty: int)
    requires |amounts| == |parts|
    ensures ShareTotal(AsShares(parts, amounts, line, target, baseQty), All()) == Sum(amounts)
  {
    if parts != [] {
      var k := |parts| - 1;
      AsSharesTotal(parts[..k], amounts[..k], line, target, baseQty);
      var before := AsShares(parts[..k], amounts[..k], line, target, baseQty);
      assert amounts[..k] + [amounts[k]] == amounts;
      SumAppend(amounts[..k], amounts[k]);
      if amounts[k] == 0 {
        assert before + [] == before;
      } else {
        var s := Share(parts[k].costType, parts[k].basis, line, target, baseQty, amounts[k]);
        assert (before + [s])[..|before|] == before;
      }
    }
  }

  lemma BorneTotal(l: StoredLine, line: nat, target: nat, landed: int, shares: seq<Share>)
    requires Borne(l, line, target, landed, shares)
    ensures ShareTotal(shares, All()) == landed
  {
    if l.breakdown == [] {
      assert shares[..0] == [];
    } else {
      var amounts: seq<int> :|
        && Settles(PartAmounts(l.breakdown), landed, amounts) && |amounts| == |l.breakdown|
        && shares == AsShares(l.breakdown, amounts, line, target, l.baseQty);
      AsSharesTotal(l.breakdown, amounts, line, target, l.baseQty);
      assert PartAmounts(l.breakdown) != [];
      SettledSharesTie(PartAmounts(l.breakdown), landed, amounts);
    }
  }

  lemma {:induction false} ShareTotalConcat(a: seq<Share>, b: seq<Share>, p: Filter)
    ensures ShareTotal(a + b, p) == ShareTotal(a, p) + ShareTotal(b, p)
  {
    if b == [] {
      assert a + b == a;
    } else {
      assert (a + b)[..|a + b| - 1] == a + b[..|b| - 1];
      ShareTotalConcat(a, b[..|b| - 1], p);
    }
  }

  /** A stored landed cost that posting has no way to capitalise. */
  predicate CannotCapitalise(b: Behaviour, lines: seq<StoredLine>)
  {
    !Capitalises(b) && exists i :: 0 <= i < |lines| && 0 < lines[i].landed
  }

  predicate AgainstPolicy(b: Behaviour, capitalisable: set<CostType>, lines: seq<StoredLine>)
  {
    && !b.allocation && Capitalises(b)
    && exists i :: 0 <= i < |lines| && lines[i].direction == In && 0 < lines[i].landed
        && !PolicyAllows(lines[i].landed, lines[i].breakdown, capitalisable)
  }

  /** Posting values a line when the document moves its stock now, values it, and the line has a quantity. */
  predicate IsValued(b: Behaviour, l: StoredLine)
  {
    b.moves && b.valuesLines && l.direction == In && 0 < l.baseQty
  }

  function CapitalisedOn(b: Behaviour, l: StoredLine): int
  {
    if IsValued(b, l) then LandedOnLine(b, l) else 0
  }

  function CapitalisedTotal(b: Behaviour, lines: seq<StoredLine>): int
  {
    if lines == [] then 0
    else CapitalisedTotal(b, lines[..|lines| - 1]) + CapitalisedOn(b, lines[|lines| - 1])
  }

  /** What the lines posting values carry of these cost types, each breakdown as it was settled. */
  ghost function CapitalisedOfTypes(
      b: Behaviour, lines: seq<StoredLine>, settled: seq<seq<int>>, q: CostType -> bool): int
    requires SettledLines(b, lines, settled)
  {
    if lines == [] then 0
    else
      var k := |lines| - 1;
      CapitalisedOfTypes(b, lines[..k], settled[..k], q)
      + if 0 < CapitalisedOn(b, lines[k]) then BorneOfTypes(lines[k], CapitalisedOn(b, lines[k]), settled[k], q) else 0
  }

  ghost predicate SettledLines(b: Behaviour, lines: seq<StoredLine>, settled: seq<seq<int>>)
  {
    && |settled| == |lines|
    && forall i :: 0 <= i < |lines| && 0 < CapitalisedOn(b, lines[i]) && lines[i].breakdown != [] ==>
         SettledParts(lines[i].breakdown, CapitalisedOn(b, lines[i]), settled[i])
  }

  function StoredTotal(lines: seq<StoredLine>): int
  {
    if lines == [] then 0 else StoredTotal(lines[..|lines| - 1]) + lines[|lines| - 1].landed
  }

  function EnteredTotal(raw: seq<EntryLine>): int
  {
    if raw == [] then 0 else EnteredTotal(raw[..|raw| - 1]) + raw[|raw| - 1].amount
  }

  /** What each line is valued at; a line posting does not value keeps nothing. */
  function LineValues(b: Behaviour, lines: seq<StoredLine>, unitCosts: seq<int>): (vs: seq<int>)
    requires |unitCosts| == |lines|
    ensures |vs| == |lines|
  {
    if lines == [] then []
    else
      var k := |lines| - 1;
      LineValues(b, lines[..k], unitCosts[..k])
      + [if !IsValued(b, lines[k]) then 0
         else Amount(lines[k].baseQty, LoadedInwardUnitCost(unitCosts[k], lines[k].baseQty, LandedOnLine(b, lines[k])))]
  }

  /**
   A valued line is worth its goods at their cost with its landed cost on top, near enough; any
   other keeps nothing.
   */
  lemma {:induction false} LinesAreWorth(b: Behaviour, lines: seq<StoredLine>, unitCosts: seq<int>, i: nat)
    requires |unitCosts| == |lines| && i < |lines|
    ensures var l, v := lines[i], LineValues(b, lines, unitCosts)[i];
      if b.moves && b.valuesLines && l.direction == In && 0 < l.baseQty then
        var landed := if b.valuation && 0 < l.landed then l.landed else 0;
        Abs(2 * (v * SCALE - (unitCosts[i] * l.baseQty + landed * SCALE))) <= l.baseQty + SCALE
      else v == 0
  {
    var k := |lines| - 1;
    if i < k {
      LinesAreWorth(b, lines[..k], unitCosts[..k], i);
    } else if IsValued(b, lines[k]) {
      LoadedValueIsNear(unitCosts[k], lines[k].baseQty, LandedOnLine(b, lines[k]));
    }
  }

  /** What posting refuses in the rows as stored, in plain terms. */
  lemma StoredRowsRefused(b: Behaviour, capitalisable: set<CostType>, lines: seq<StoredLine>)
    ensures CannotCapitalise(b, lines)
      <==> !(b.valuation && b.moves) && exists i :: 0 <= i < |lines| && 0 < lines[i].landed
    ensures AgainstPolicy(b, capitalisable, lines)
      <==> !b.allocation && b.valuation && b.moves
           && exists i :: 0 <= i < |lines| && StoredAgainst(capitalisable, lines[i])
  {
    if i :| 0 <= i < |lines| && StoredAgainst(capitalisable, lines[i]) {
      assert 0 < lines[i].landed && !PolicyAllows(lines[i].landed, lines[i].breakdown, capitalisable);
    }
    if AgainstPolicy(b, capitalisable, lines) {
      var i :| 0 <= i < |lines| && lines[i].direction == In && 0 < lines[i].landed
        && !PolicyAllows(lines[i].landed, lines[i].breakdown, capitalisable);
      assert StoredAgainst(capitalisable, lines[i]);
    }
  }

  /** An inward row carries a cost, and a type of it is not among those the company capitalises. */
  predicate StoredAgainst(capitalisable: set<CostType>, l: StoredLine)
  {
    && l.direction == In && 0 < l.landed
    && if l.breakdown == [] then OtherCost !in capitalisable
       else exists k :: 0 <= k < |l.breakdown| && l.breakdown[k].costType !in capitalisable
  }

  /** Asks the rows as stored what entry asked of the payload. */
  method CheckStored(b: Behaviour, capitalisable: set<CostType>, lines: seq<StoredLine>)
    returns (refusal: Option<Refusal>)
    ensures refusal.None?
      <==> !CannotCapitalise(b, lines) && !AgainstPolicy(b, capitalisable, lines)
  {
    if !Capitalises(b) {
      for i := 0 to |lines|
        invariant forall k :: 0 <= k < i ==> lines[k].landed <= 0
      {
        if 0 < lines[i].landed {
          return Some(NotAllowedHere);
        }
      }
      return None;
    }
    if !b.allocation {
      for i := 0 to |lines|
        invariant forall k :: 0 <= k < i && lines[k].direction == In && 0 < lines[k].landed ==>
          PolicyAllows(lines[k].landed, lines[k].breakdown, capitalisable)
      {
        if lines[i].direction == In && 0 < lines[i].landed
          && !PolicyAllows(lines[i].landed, lines[i].breakdown, capitalisable) {
          return Some(TypeNotCapitalised);
        }
      }
    }
    return None;
  }

  /** The shares are what the lines carry, type by type, and each names a line of the document. */
  ghost predicate SharesOf(
      b: Behaviour, documentId: nat, lines: seq<StoredLine>, settled: seq<seq<int>>, shares: seq<Share>)
  {
    && SettledLines(b, lines, settled)
    && (forall q: CostType -> bool :: ShareTotal(shares, OfTypes(q)) == CapitalisedOfTypes(b, lines, settled, q))
    && (forall s :: s in shares ==> s.line < |lines| && s.target == documentId && s.baseQty == lines[s.line].baseQty)
  }

  lemma OneLineMore(
      b: Behaviour, documentId: nat, lines: seq<StoredLine>, i: nat, settled: seq<seq<int>>, shares: seq<Share>,
      parts: seq<int>, borne: seq<Share>)
    requires i < |lines| && SharesOf(b, documentId, lines[..i], settled, shares)
    requires var landed := CapitalisedOn(b, lines[i]);
      if 0 < landed then BorneByType(lines[i], i, documentId, landed, parts, borne) else borne == []
    ensures SharesOf(b, documentId, lines[..i + 1], settled + [parts], shares + borne)
  {
    assert lines[..i + 1][..i] == lines[..i] && (settled + [parts])[..i] == settled;
    forall q: CostType -> bool
      ensures ShareTotal(shares + borne, OfTypes(q)) == CapitalisedOfTypes(b, lines[..i + 1], settled + [parts], q)
    {
      ShareTotalConcat(shares, borne, OfTypes(q));
    }
  }

  /** Loads every valued line and collects the shares its landed cost is made of. */
  method LoadLines(b: Behaviour, documentId: nat, lines: seq<StoredLine>, unitCosts: seq<int>)
    returns (amounts: seq<int>, landedShares: seq<Share>, ghost settled: seq<seq<int>>)
    requires |unitCosts| == |lines|
    ensures amounts == LineValues(b, lines, unitCosts)
    ensures ShareTotal(landedShares, All()) == CapitalisedTotal(b, lines)
    ensures SharesOf(b, documentId, lines, settled, landedShares)
  {
    landedShares, amounts, settled := [], [], [];
    for i := 0 to |lines|
      invariant amounts == LineValues(b, lines[..i], unitCosts[..i])
      invariant ShareTotal(landedShares, All()) == CapitalisedTotal(b, lines[..i])
      invariant SharesOf(b, documentId, lines[..i], settled, landedShares)
    {
      assert lines[..i + 1][..i] == lines[..i] && unitCosts[..i + 1][..i] == unitCosts[..i];
      var amount := 0;
      var borne: seq<Share> := [];
      ghost var parts: seq<int> := [];
      if IsValued(b, lines[i]) {
        var landed := LandedOnLine(b, lines[i]);
        amount := Amount(lines[i].baseQty, LoadedInwardUnitCost(unitCosts[i], lines[i].baseQty, landed));
        if 0 < landed {
          borne, parts := ReceiptBorneShares(lines[i], i, documentId, landed);
          BorneTotal(lines[i], i, documentId, landed, borne);
        }
      }
      ShareTotalConcat(landedShares, borne, All());
      OneLineMore(b, documentId, lines, i, settled, landedShares, parts, borne);
      landedShares := landedShares + borne;
      settled := settled + [parts];
      amounts := amounts + [amount];
    }
    assert lines[..|lines|] == lines && unitCosts[..|lines|] == unitCosts;
  }

  /** The landed-cost half of posting a document: refuse, or load the lines and write the detail. */
  method PostReceiptBorne(b: Behaviour, capitalisable: set<CostType>, documentId: nat,
                          lines: seq<StoredLine>, unitCosts: seq<int>, table: AllocationTable)
    returns (r: Result<seq<int>, Refusal>, ghost shares: seq<Share>, ghost settled: seq<seq<int>>)
    requires |unitCosts| == |lines|
    modifies table
    ensures r.Err? <==> CannotCapitalise(b, lines) || AgainstPolicy(b, capitalisable, lines)
    ensures r.Ok? ==> r.value == LineValues(b, lines, unitCosts)
    ensures ShareTotal(shares, All()) == if r.Ok? then CapitalisedTotal(b, lines) else 0
    ensures r.Ok? ==> SharesOf(b, documentId, lines, settled, shares)
    ensures table.parents ==
      if r.Ok? && b.valuesLines && b.moves && !b.allocation
      then old(table.parents)[documentId := Parents(Grouped(shares))] else old(table.parents)
    ensures r.Ok? && b.valuesLines && b.moves && !b.allocation ==> forall q: CostType -> bool ::
      ParentTotal(table.parents[documentId], ParentsOfTypes(q)) == CapitalisedOfTypes(b, lines, settled, q)
  {
    shares, settled := [], [];
    var refusal := CheckStored(b, capitalisable, lines);
    if refusal.Some? {
      return Err(refusal.value), [], [];
    }
    var amounts, landedShares;
    amounts, landedShares, settled := LoadLines(b, documentId, lines, unitCosts);
    if b.valuesLines && b.moves && !b.allocation {
      table.WriteLandedCostAllocation(documentId, landedShares);
      forall q: CostType -> bool
        ensures ParentTotal(Parents(Grouped(landedShares)), ParentsOfTypes(q)) == ShareTotal(landedShares, OfTypes(q))
      {
        ParentsOfTypesTie(landedShares, q);
      }
    }
    return Ok(amounts), landedShares, settled;
  }

  lemma ParentsOfTypesTie(shares: seq<Share>, q: CostType -> bool)
    ensures ParentTotal(Parents(Grouped(shares)), ParentsOfTypes(q)) == ShareTotal(shares, OfTypes(q))
  {
    ParentsTieToShares(shares, ParentsOfTypes(q));
    SamePicking(shares, Under(ParentsOfTypes(q)), OfTypes(q));
  }

  // ------------------------------------------------------------------ nothing is dropped

  lemma {:induction false} StoredTotalConcat(xs: seq<StoredLine>, ys: seq<StoredLine>)
    ensures StoredTotal(xs + ys) == StoredTotal(xs) + StoredTotal(ys)
  {
    if ys == [] {
      assert xs + ys == xs;
    } else {
      assert (xs + ys)[..|xs + ys| - 1] == xs + ys[..|ys| - 1];
      StoredTotalConcat(xs, ys[..|ys| - 1]);
    }
  }

  lemma EmitKeepsTheAmount(b: Behaviour, capitalisable: set<CostType>, l: EntryLine)
    requires Registered(b) && Accepted(b, capitalisable, l)
    ensures StoredTotal(Emit(b, l)) == l.amount
  {
    var rows := Emit(b, l);
    if 0 < l.amount {
      AmountOnlyWhereCapitalised(b, capitalisable, l);
    }
    if |rows| == 2 {
      StoredTotalConcat([rows[0]], [rows[1]]);
      assert rows == [rows[0]] + [rows[1]];
    }
  }

  lemma {:induction false} EntryKeepsTheTotal(b: Behaviour, capitalisable: set<CostType>, raw: seq<EntryLine>)
    requires Registered(b) && EntryAccepts(b, capitalisable, raw)
    ensures StoredTotal(EmitAll(b, raw)) == EnteredTotal(raw)
  {
    if raw != [] {
      var k := |raw| - 1;
      EntryKeepsTheTotal(b, capitalisable, raw[..k]);
      EmitKeepsTheAmount(b, capitalisable, raw[k]);
      StoredTotalConcat(EmitAll(b, raw[..k]), Emit(b, raw[k]));
    }
  }

  predicate RowIsAllowed(b: Behaviour, capitalisable: set<CostType>, l: StoredLine)
  {
    && 0 <= l.landed && AllowedAt(b, l.direction, l.landed)
    && (0 < l.landed ==> PolicyAllows(l.landed, l.breakdown, capitalisable))
  }

  lemma EmitsAllowedRows(b: Behaviour, capitalisable: set<CostType>, l: EntryLine)
    requires Registered(b) && Accepted(b, capitalisable, l)
    ensures forall i :: 0 <= i < |Emit(b, l)| ==> RowIsAllowed(b, capitalisable, Emit(b, l)[i])
  {
    forall i | 0 <= i < |Emit(b, l)|
      ensures RowIsAllowed(b, capitalisable, Emit(b, l)[i])
    {
      assert AllowedAt(b, Emit(b, l)[i].direction, Emit(b, l)[i].landed);
      if 0 < l.amount {
        AmountOnlyWhereCapitalised(b, capitalisable, l);
      }
    }
  }

  lemma {:induction false} EntryStoresAllowedRows(b: Behaviour, capitalisable: set<CostType>, raw: seq<EntryLine>)
    requires Registered(b) && EntryAccepts(b, capitalisable, raw)
    ensures forall i :: 0 <= i < |EmitAll(b, raw)| ==> RowIsAllowed(b, capitalisable, EmitAll(b, raw)[i])
  {
    if raw != [] {
      var k := |raw| - 1;
      EntryStoresAllowedRows(b, capitalisable, raw[..k]);
      EmitsAllowedRows(b, capitalisable, raw[k]);
    }
  }

  lemma {:induction false} CapitalisedTotalConcat(b: Behaviour, xs: seq<StoredLine>, ys: seq<StoredLine>)
    ensures CapitalisedTotal(b, xs + ys) == CapitalisedTotal(b, xs) + CapitalisedTotal(b, ys)
  {
    if ys == [] {
      assert xs + ys == xs;
    } else {
      assert (xs + ys)[..|xs + ys| - 1] == xs + ys[..|ys| - 1];
      CapitalisedTotalConcat(b, xs, ys[..|ys| - 1]);
    }
  }

  /** The whole amount reaches a layer, or none of it: none where the base quantity rounded away. */
  lemma CapitalisedOfOne(b: Behaviour, capitalisable: set<CostType>, l: EntryLine)
    requires Registered(b) && Accepted(b, capitalisable, l)
    ensures CapitalisedTotal(b, Emit(b, l)) == if 0 < l.baseQty then l.amount else 0
  {
    if 0 < l.amount {
      AmountOnlyWhereCapitalised(b, capitalisable, l);
    } else {
      NothingCapitalised(b, Emit(b, l));
    }
  }

  lemma {:induction false} NothingCapitalised(b: Behaviour, rows: seq<StoredLine>)
    requires forall i :: 0 <= i < |rows| ==> rows[i].landed <= 0
    ensures CapitalisedTotal(b, rows) == 0
  {
    if rows != [] {
      NothingCapitalised(b, rows[..|rows| - 1]);
    }
  }

  predicate CarriedByAQuantity(l: EntryLine) { 0 < l.amount ==> 0 < l.baseQty }

  predicate AllCarried(raw: seq<EntryLine>)
  {
    raw == [] || (AllCarried(raw[..|raw| - 1]) && CarriedByAQuantity(raw[|raw| - 1]))
  }

  lemma {:induction false} CapitalisedIffCarried(b: Behaviour, capitalisable: set<CostType>, raw: seq<EntryLine>)
    requires Registered(b) && EntryAccepts(b, capitalisable, raw)
    ensures CapitalisedTotal(b, EmitAll(b, raw)) <= EnteredTotal(raw)
    ensures CapitalisedTotal(b, EmitAll(b, raw)) == EnteredTotal(raw)
      <==> AllCarried(raw)
  {
    if raw != [] {
      var k := |raw| - 1;
      CapitalisedIffCarried(b, capitalisable, raw[..k]);
      CapitalisedOfOne(b, capitalisable, raw[k]);
      CapitalisedTotalConcat(b, EmitAll(b, raw[..k]), Emit(b, raw[k]));
    }
  }

  lemma {:induction false} AllCarriedMeans(raw: seq<EntryLine>)
    ensures AllCarried(raw) <==> forall l :: l in raw ==> CarriedByAQuantity(l)
  {
    if raw != [] {
      AllCarriedMeans(raw[..|raw| - 1]);
      assert raw == raw[..|raw| - 1] + [raw[|raw| - 1]];
    }
  }

  /** 0.0001 of a unit worth 0.4 base units is an accepted quantity with nothing of it in base units. */
  lemma QuantityCanRoundAway(b: Behaviour, amount: int)
    requires Registered(b) && Capitalises(b) && b.lineMode.FixedIn? && 0 < amount
    ensures var l := EntryLine(In, 1, ToBaseQty(1, 4000), amount, []);
      Accepted(b, {OtherCost}, l) && !CarriedByAQuantity(l)
  {
    RoundDivUnique(4000, SCALE, 0);
  }

  /** All parent rows, all detail rows and all shares are one amount. */
  lemma DetailTiesInAll(shares: seq<Share>)
    ensures ParentTotal(Parents(Grouped(shares)), EveryParent()) == ShareTotal(shares, All())
    ensures DetailTotal(Parents(Grouped(shares)), All()) == ShareTotal(shares, All())
  {
    DetailTiesToShares(shares, All());
    ParentsTieToShares(shares, EveryParent());
    SamePicking(shares, Under(EveryParent()), All());
  }

  /** Posting finds nothing to refuse in what entry accepted under the same policy. */
  lemma EntryIsPostable(b: Behaviour, capitalisable: set<CostType>, raw: seq<EntryLine>)
    requires Registered(b) && EntryAccepts(b, capitalisable, raw)
    ensures !CannotCapitalise(b, EmitAll(b, raw)) && !AgainstPolicy(b, capitalisable, EmitAll(b, raw))
  {
    EntryStoresAllowedRows(b, capitalisable, raw);
    assert forall i :: 0 <= i < |EmitAll(b, raw)| ==> RowIsAllowed(b, capitalisable, EmitAll(b, raw)[i]);
  }

  predicate WritesDetail(b: Behaviour) { b.valuesLines && b.moves && !b.allocation }

  lemma {:induction false} NothingEntered(b: Behaviour, capitalisable: set<CostType>, raw: seq<EntryLine>)
    requires Registered(b) && EntryAccepts(b, capitalisable, raw) && !WritesDetail(b)
    ensures EnteredTotal(raw) == 0
  {
    if raw != [] {
      NothingEntered(b, capitalisable, raw[..|raw| - 1]);
      if 0 < raw[|raw| - 1].amount {
        AmountOnlyWhereCapitalised(b, capitalisable, raw[|raw| - 1]);
      }
    }
  }

  /**
   What entry accepted is what posting capitalises, what the detail rows hold and what the
   parent rows hold, exactly when every line that carries an amount has a base quantity.
   Entry asks for a quantity in the entered unit only, so that is not always so.
   */
  lemma NothingIsDropped(b: Behaviour, capitalisable: set<CostType>, raw: seq<EntryLine>, shares: seq<Share>)
    requires Registered(b) && EntryAccepts(b, capitalisable, raw)
    requires ShareTotal(shares, All()) == CapitalisedTotal(b, EmitAll(b, raw))
    ensures StoredTotal(EmitAll(b, raw)) == EnteredTotal(raw)
    ensures ParentTotal(Parents(Grouped(shares)), EveryParent()) == DetailTotal(Parents(Grouped(shares)), All())
    ensures DetailTotal(Parents(Grouped(shares)), All()) == EnteredTotal(raw)
      <==> forall l :: l in raw ==> CarriedByAQuantity(l)
  {
    EntryKeepsTheTotal(b, capitalisable, raw);
    CapitalisedIffCarried(b, capitalisable, raw);
    AllCarriedMeans(raw);
    DetailTiesInAll(shares);
  }

  /** What was entered of these cost types, an amount without a breakdown being 'other'. */
  function EnteredOfTypes(raw: seq<EntryLine>, q: CostType -> bool): int
  {
    if raw == [] then 0
    else
      var l := raw[|raw| - 1];
      EnteredOfTypes(raw[..|raw| - 1], q)
      + if l.breakdown == [] then (if q(OtherCost) then l.amount else 0)
        else PartsOfTypes(l.breakdown, PartAmounts(l.breakdown), q)
  }

  /** Every amount has a quantity to lie on, and every breakdown adds up to its amount. */
  predicate TiesExactly(raw: seq<EntryLine>) { forall i :: 0 <= i < |raw| ==> LineTiesExactly(raw[i]) }

  predicate LineTiesExactly(l: EntryLine)
  {
    CarriedByAQuantity(l) && (l.breakdown != [] ==> Sum(PartAmounts(l.breakdown)) == l.amount)
  }

  lemma {:induction false} CapitalisedOfTypesConcat(
      b: Behaviour, xs: seq<StoredLine>, ys: seq<StoredLine>, sx: seq<seq<int>>, sy: seq<seq<int>>, q: CostType -> bool)
    requires SettledLines(b, xs, sx) && SettledLines(b, ys, sy) && SettledLines(b, xs + ys, sx + sy)
    ensures CapitalisedOfTypes(b, xs + ys, sx + sy, q)
      == CapitalisedOfTypes(b, xs, sx, q) + CapitalisedOfTypes(b, ys, sy, q)
  {
    if ys == [] {
      assert xs + ys == xs && sx + sy == sx;
    } else {
      var k := |ys| - 1;
      assert (xs + ys)[..|xs + ys| - 1] == xs + ys[..k] && (sx + sy)[..|sx + sy| - 1] == sx + sy[..k];
      CapitalisedOfTypesConcat(b, xs, ys[..k], sx, sy[..k], q);
    }
  }

  lemma {:induction false} ZeroParts(parts: seq<Part>, q: CostType -> bool)
    requires forall i :: 0 <= i < |parts| ==> parts[i].amount == 0
    ensures PartsOfTypes(parts, PartAmounts(parts), q) == 0
  {
    if parts != [] {
      assert PartAmounts(parts)[..|parts| - 1] == PartAmounts(parts[..|parts| - 1]);
      ZeroParts(parts[..|parts| - 1], q);
    }
  }

  lemma {:induction false} NoneIsNothing(xs: seq<int>)
    requires Sum(xs) == 0 && forall i :: 0 <= i < |xs| ==> 0 <= xs[i]
    ensures forall i :: 0 <= i < |xs| ==> xs[i] == 0
  {
    if xs != [] {
      SumNonNegative(xs[1..]);
      NoneIsNothing(xs[1..]);
      assert forall i :: 1 <= i < |xs| ==> xs[i] == xs[1..][i - 1];
    }
  }

  lemma {:induction false} NothingOfTypes(
      b: Behaviour, lines: seq<StoredLine>, settled: seq<seq<int>>, q: CostType -> bool)
    requires SettledLines(b, lines, settled) && forall i :: 0 <= i < |lines| ==> lines[i].landed <= 0
    ensures CapitalisedOfTypes(b, lines, settled, q) == 0
  {
    if lines != [] {
      NothingOfTypes(b, lines[..|lines| - 1], settled[..|lines| - 1], q);
    }
  }

  lemma OneLineOfTypes(
      b: Behaviour, capitalisable: set<CostType>, l: EntryLine, settled: seq<seq<int>>, q: CostType -> bool)
    requires Registered(b) && Accepted(b, capitalisable, l) && LineTiesExactly(l)
    requires SettledLines(b, Emit(b, l), settled)
    ensures CapitalisedOfTypes(b, Emit(b, l), settled, q)
      == if l.breakdown == [] then (if q(OtherCost) then l.amount else 0)
         else PartsOfTypes(l.breakdown, PartAmounts(l.breakdown), q)
  {
    if 0 < l.amount {
      AmountOnlyWhereCapitalised(b, capitalisable, l);
      assert Emit(b, l)[..0] == [];
    } else {
      NothingOfTypes(b, Emit(b, l), settled, q);
      if l.breakdown != [] {
        NoneIsNothing(PartAmounts(l.breakdown));
        assert forall i :: 0 <= i < |l.breakdown| ==> PartAmounts(l.breakdown)[i] == l.breakdown[i].amount;
        ZeroParts(l.breakdown, q);
      }
    }
  }

  /** Where everything ties exactly, what posting capitalises of any cost types is what was entered of them. */
  lemma {:induction false} TypesAreKept(
      b: Behaviour, capitalisable: set<CostType>, raw: seq<EntryLine>, settled: seq<seq<int>>, q: CostType -> bool)
    requires Registered(b) && EntryAccepts(b, capitalisable, raw) && TiesExactly(raw)
    requires SettledLines(b, EmitAll(b, raw), settled)
    ensures CapitalisedOfTypes(b, EmitAll(b, raw), settled, q) == EnteredOfTypes(raw, q)
  {
    if raw != [] {
      var k := |raw| - 1;
      var xs, ys := EmitAll(b, raw[..k]), Emit(b, raw[k]);
      SettledApart(b, xs, ys, settled, q);
      TypesAreKept(b, capitalisable, raw[..k], settled[..|xs|], q);
      OneLineOfTypes(b, capitalisable, raw[k], settled[|xs|..], q);
    }
  }

  lemma SettledApart(
      b: Behaviour, xs: seq<StoredLine>, ys: seq<StoredLine>, settled: seq<seq<int>>, q: CostType -> bool)
    requires SettledLines(b, xs + ys, settled)
    ensures SettledLines(b, xs, settled[..|xs|]) && SettledLines(b, ys, settled[|xs|..])
    ensures CapitalisedOfTypes(b, xs + ys, settled, q)
      == CapitalisedOfTypes(b, xs, settled[..|xs|], q) + CapitalisedOfTypes(b, ys, settled[|xs|..], q)
  {
    var sx, sy := settled[..|xs|], settled[|xs|..];
    assert forall i :: 0 <= i < |xs| ==> (xs + ys)[i] == xs[i] && sx[i] == settled[i];
    assert forall i :: 0 <= i < |ys| ==> (xs + ys)[|xs| + i] == ys[i] && sy[i] == settled[|xs| + i];
    assert sx + sy == settled;
    CapitalisedOfTypesConcat(b, xs, ys, sx, sy, q);
  }

  /**
   From the payload to the rows: posting refuses what entry accepted only where the policy has
   changed in between. Stored is entered, parent rows are detail rows, and they are what was
   entered exactly when every line that carries an amount has a base quantity.
   */
  method EnterAndPost(b: Behaviour, capitalisable: set<CostType>, now: set<CostType>, documentId: nat,
                      raw: seq<EntryLine>, unitCosts: seq<int>, table: AllocationTable)
    returns (r: Result<seq<StoredLine>, Refusal>)
    requires Registered(b) && |unitCosts| == |EmitAll(b, raw)|
    modifies table
    ensures r.Ok? <==> EntryAccepts(b, capitalisable, raw) && !AgainstPolicy(b, now, EmitAll(b, raw))
    ensures now == capitalisable ==> (r.Ok? <==> EntryAccepts(b, capitalisable, raw))
    ensures r.Ok? ==> StoredTotal(r.value) == EnteredTotal(raw)
    ensures r.Ok? && WritesDetail(b) ==>
      && documentId in table.parents
      && table.parents == old(table.parents)[documentId := table.parents[documentId]]
      && var rows := table.parents[documentId];
         && ParentTotal(rows, EveryParent()) == DetailTotal(rows, All())
         && (DetailTotal(rows, All()) == EnteredTotal(raw) <==> forall l :: l in raw ==> CarriedByAQuantity(l))
    ensures r.Ok? && WritesDetail(b) && TiesExactly(raw) ==> forall q: CostType -> bool ::
      ParentTotal(table.parents[documentId], ParentsOfTypes(q)) == EnteredOfTypes(raw, q)
    ensures r.Ok? && !WritesDetail(b) ==> EnteredTotal(raw) == 0
    ensures r.Err? || !WritesDetail(b) ==> table.parents == old(table.parents)
  {
    var stored := NormalizeLines(b, capitalisable, raw);
    if stored.Err? {
      return stored;
    }
    EntryIsPostable(b, capitalisable, raw);
    var amounts, shares, settled := PostReceiptBorne(b, now, documentId, stored.value, unitCosts, table);
    if amounts.Err? {
      return Err(amounts.error);
    }
    NothingIsDropped(b, capitalisable, raw, shares);
    if TiesExactly(raw) {
      forall q: CostType -> bool
        ensures CapitalisedOfTypes(b, EmitAll(b, raw), settled, q) == EnteredOfTypes(raw, q)
      {
        TypesAreKept(b, capitalisable, raw, settled, q);
      }
    }
    if !WritesDetail(b) {
      NothingEntered(b, capitalisable, raw);
    }
    return stored;
  }
}
