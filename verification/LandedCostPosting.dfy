/**
 Posting a LANDED_COST document: charges that arrive after the receipts they load. Target
 lines are numbered by their place among the valued inward lines of the receipts loaded.
 */
module LandedCostPosting {
  import opened Outcomes
  import opened FixedPoint
  import opened Allocation
  import opened AllocationDetail
  import opened ReceiptLandedCost

  datatype Given = Given(line: nat, amount: int)

  /** given is the per-line shares a manual or direct charge was entered with, one entry per line. */
  datatype Charge = Charge(costType: CostType, amount: int, basis: Basis, given: seq<Given>)

  type Scope = (nat, nat)

  /** A valued inward line of a receipt; scope is its item and valuation warehouse. */
  datatype TargetLine = TargetLine(
    target: nat, scope: Scope, usesWac: bool, baseQty: int, rate: int, amount: int, landed: int)

  datatype ReceiptLayer = ReceiptLayer(remaining: int, cost: int)

  datatype Wac = Wac(onHand: int, average: int)

  datatype CostState = CostState(layers: map<nat, ReceiptLayer>, wac: map<Scope, Wac>)

  datatype Refused = ChargeInvalid | TypeNotCapitalisable | LineNotLoaded | NegativeShare | NothingToWeigh

  // ------------------------------------------------------------------ spreading the charges

  function GivenAmounts(given: seq<Given>): (xs: seq<int>)
    ensures |xs| == |given|
  {
    seq(|given|, i requires 0 <= i < |given| => given[i].amount)
  }

  predicate ByHand(c: Charge) { c.basis.Manual? || c.basis.Direct? }

  /** What a charge must satisfy to be allocated at all. */
  predicate ValidCharge(c: Charge)
  {
    && 0 < c.amount
    && (ByHand(c) ==> c.given != [])
    && (c.basis.Direct? ==> |c.given| == 1)
    && (c.given != [] ==> Abs(Sum(GivenAmounts(c.given)) - c.amount) <= PAISA)
  }

  function BasisWeight(basis: Basis, l: TargetLine): int
  {
    match basis
    case ByQty => l.baseQty
    case Equal => SCALE
    case _ => l.amount
  }

  function BasisWeights(basis: Basis, lines: seq<TargetLine>): (ws: seq<int>)
    ensures |ws| == |lines|
  {
    seq(|lines|, i requires 0 <= i < |lines| => BasisWeight(basis, lines[i]))
  }

  /** The lines a charge is spread over, in order. */
  function ChargedLines(c: Charge, n: nat): (ls: seq<nat>)
    ensures |ls| == if ByHand(c) then |c.given| else n
  {
    if ByHand(c) then seq(|c.given|, i requires 0 <= i < |c.given| => c.given[i].line)
    else seq(n, i requires 0 <= i < n => i)
  }

  /** Whether the charge can be spread over these lines. */
  predicate Spreadable(c: Charge, lines: seq<TargetLine>)
  {
    if ByHand(c) then forall i :: 0 <= i < |c.given| ==> c.given[i].line < |lines| && 0 <= c.given[i].amount
    else 0 < TotalWeight(BasisWeights(c.basis, lines))
  }

  /** The allocator's contract for one charge: typed shares settled, or pro-rata shares settled. */
  ghost predicate Spread(c: Charge, lines: seq<TargetLine>, amounts: seq<int>)
    requires Spreadable(c, lines)
  {
    && |amounts| == |ChargedLines(c, |lines|)|
    && if ByHand(c) then Settles(GivenAmounts(c.given), c.amount, amounts)
       else var ws := BasisWeights(c.basis, lines); Settles(Rounded(c.amount, ws, TotalWeight(ws)), c.amount, amounts)
  }

  // ------------------------------------------------------------------ what a basis means

  /** What each line brought in, and what it is worth; less than nothing counts as nothing. */
  function Quantities(lines: seq<TargetLine>): (xs: seq<int>)
    ensures |xs| == |lines|
  {
    seq(|lines|, i requires 0 <= i < |lines| => if lines[i].baseQty < 0 then 0 else lines[i].baseQty)
  }

  function WorthOf(lines: seq<TargetLine>): (xs: seq<int>)
    ensures |xs| == |lines|
  {
    seq(|lines|, i requires 0 <= i < |lines| => if lines[i].amount < 0 then 0 else lines[i].amount)
  }

  /** Share k bears what rounding left over; every other is its exact proportion of the parts, rounded. */
  predicate InProportionBut(charge: int, parts: seq<int>, shares: seq<int>, k: nat)
  {
    && |shares| == |parts| && k < |shares|
    && (forall i :: 0 <= i < |shares| && i != k ==> Abs(2 * (shares[i] * Sum(parts) - charge * parts[i])) <= Sum(parts))
    && Abs(2 * (shares[k] * Sum(parts) - charge * parts[k])) <= (|shares| - 1) * Sum(parts)
  }

  predicate EvenlyBut(charge: int, n: nat, shares: seq<int>, k: nat)
  {
    && |shares| == n && k < n
    && (forall i :: 0 <= i < n && i != k ==> Abs(2 * (shares[i] * n - charge)) <= n)
    && Abs(2 * (shares[k] * n - charge)) <= (n - 1) * n
  }

  predicate AsEnteredBut(charge: int, given: seq<Given>, shares: seq<int>, k: nat)
  {
    |shares| == |given| && k < |given| && forall i :: 0 <= i < |given| && i != k ==> shares[i] == given[i].amount
  }

  /** By quantity, by value, evenly, or as entered by hand; the shares add up to the charge. */
  ghost predicate SpreadByBasis(c: Charge, lines: seq<TargetLine>, shares: seq<int>)
  {
    && Sum(shares) == c.amount
    && match c.basis
       case ByQty => exists k :: InProportionBut(c.amount, Quantities(lines), shares, k)
       case ByValue => exists k :: InProportionBut(c.amount, WorthOf(lines), shares, k)
       case Equal => exists k :: EvenlyBut(c.amount, |lines|, shares, k)
       case Manual | Direct => exists k :: AsEnteredBut(c.amount, c.given, shares, k)
  }

  lemma {:induction false} TotalOfPositives(ws: seq<int>, parts: seq<int>)
    requires |ws| == |parts| && forall i :: 0 <= i < |ws| ==> parts[i] == if ws[i] < 0 then 0 else ws[i]
    ensures TotalWeight(ws) == Sum(parts)
  {
    if ws != [] {
      assert forall i :: 0 <= i < |ws| - 1 ==> ws[1..][i] == ws[i + 1] && parts[1..][i] == parts[i + 1];
      TotalOfPositives(ws[1..], parts[1..]);
    }
  }

  lemma ProRataOf(charge: int, ws: seq<int>, parts: seq<int>, shares: seq<int>) returns (k: nat)
    requires |ws| == |parts| && forall i :: 0 <= i < |ws| ==> parts[i] == if ws[i] < 0 then 0 else ws[i]
    requires 0 < TotalWeight(ws) && Settles(Rounded(charge, ws, TotalWeight(ws)), charge, shares)
    ensures InProportionBut(charge, parts, shares, k)
  {
    TotalOfPositives(ws, parts);
    k := SharesAreNearProRata(charge, ws, shares);
    forall i | 0 <= i < |ws|
      ensures parts[i] == Weight(ws[i])
    {
    }
  }

  lemma EvenOf(charge: int, ws: seq<int>, shares: seq<int>) returns (k: nat)
    requires forall i :: 0 <= i < |ws| ==> ws[i] == SCALE
    requires 0 < TotalWeight(ws) && Settles(Rounded(charge, ws, TotalWeight(ws)), charge, shares)
    ensures EvenlyBut(charge, |ws|, shares, k)
  {
    k := ProRataOf(charge, ws, ws, shares);
    SumOfEquals(ws, SCALE);
    forall i | 0 <= i < |ws|
      ensures Abs(2 * (shares[i] * |ws| - charge)) <= if i == k then (|ws| - 1) * |ws| else |ws|
    {
      OutOfScale(shares[i], |ws|, charge, if i == k then |ws| - 1 else 1);
    }
  }

  lemma OutOfScale(share: int, n: nat, charge: int, times: nat)
    requires Abs(2 * (share * (n * SCALE) - charge * SCALE)) <= times * (n * SCALE)
    ensures Abs(2 * (share * n - charge)) <= times * n
  {
    assert share * (n * SCALE) == share * n * SCALE;
    assert times * (n * SCALE) == times * n * SCALE;
  }

  lemma {:induction false} SumOfEquals(ws: seq<int>, w: int)
    requires forall i :: 0 <= i < |ws| ==> ws[i] == w
    ensures Sum(ws) == |ws| * w
  {
    if ws != [] {
      assert forall i :: 0 <= i < |ws| - 1 ==> ws[1..][i] == ws[i + 1];
      SumOfEquals(ws[1..], w);
      MulDistributes(1, |ws| - 1, w);
    }
  }

  lemma EnteredOf(c: Charge, shares: seq<int>) returns (k: nat)
    requires c.given != [] && Settles(GivenAmounts(c.given), c.amount, shares)
    ensures AsEnteredBut(c.amount, c.given, shares, k)
  {
    assert GivenAmounts(c.given) != [];
    k := ResidualKey(GivenAmounts(c.given), c.amount, shares);
    assert forall i :: 0 <= i < |c.given| ==> GivenAmounts(c.given)[i] == c.given[i].amount;
  }

  lemma SpreadIsByBasis(c: Charge, lines: seq<TargetLine>, shares: seq<int>)
    requires ValidCharge(c) && Spreadable(c, lines) && Spread(c, lines, shares) && Sum(shares) == c.amount
    ensures SpreadByBasis(c, lines, shares)
  {
    match c.basis {
      case ByQty => var k := ProRataOf(c.amount, BasisWeights(ByQty, lines), Quantities(lines), shares);
      case ByValue => var k := ProRataOf(c.amount, BasisWeights(ByValue, lines), WorthOf(lines), shares);
      case Equal => var k := EvenOf(c.amount, BasisWeights(Equal, lines), shares);
      case _ => var k := EnteredOf(c, shares);
    }
  }

  /** When a charge can be spread, in plain terms. */
  ghost predicate HasSomewhereToGo(c: Charge, lines: seq<TargetLine>)
  {
    match c.basis
    case ByQty => exists i :: 0 <= i < |lines| && 0 < lines[i].baseQty
    case ByValue => exists i :: 0 <= i < |lines| && 0 < lines[i].amount
    case Equal => lines != []
    case Manual | Direct => forall i :: 0 <= i < |c.given| ==> c.given[i].line < |lines| && 0 <= c.given[i].amount
  }

  lemma {:induction false} WeighsSomething(ws: seq<int>)
    ensures 0 < TotalWeight(ws) <==> exists i :: 0 <= i < |ws| && 0 < ws[i]
  {
    if ws != [] {
      WeighsSomething(ws[1..]);
      if i :| 0 <= i < |ws| && 0 < ws[i] {
        assert i == 0 || 0 < ws[1..][i - 1];
      }
      if i :| 0 <= i < |ws[1..]| && 0 < ws[1..][i] {
        assert 0 < ws[i + 1];
      }
    }
  }

  lemma SpreadableMeans(c: Charge, lines: seq<TargetLine>)
    ensures Spreadable(c, lines) <==> HasSomewhereToGo(c, lines)
  {
    if !ByHand(c) {
      var ws := BasisWeights(c.basis, lines);
      WeighsSomething(ws);
      if c.basis.Equal? && lines != [] {
        assert 0 < ws[0];
      }
      if i :| 0 <= i < |lines| && 0 < (if c.basis.ByQty? then lines[i].baseQty else lines[i].amount) {
        assert !c.basis.Equal? ==> 0 < ws[i];
      }
      if i :| 0 <= i < |ws| && 0 < ws[i] {
        assert !c.basis.Equal? ==> 0 < (if c.basis.ByQty? then lines[i].baseQty else lines[i].amount);
      }
    }
  }

  method AllocateChargeOverLines(c: Charge, lines: seq<TargetLine>) returns (r: Result<seq<int>, Refused>)
    requires ValidCharge(c)
    ensures r.Ok? <==> Spreadable(c, lines)
    ensures r.Ok? <==> HasSomewhereToGo(c, lines)
    ensures r.Ok? ==> Spread(c, lines, r.value) && Sum(r.value) == c.amount
    ensures r.Ok? ==> SpreadByBasis(c, lines, r.value)
  {
    SpreadableMeans(c, lines);
    if ByHand(c) {
      for i := 0 to |c.given|
        invariant forall k :: 0 <= k < i ==> c.given[k].line < |lines| && 0 <= c.given[k].amount
      {
        if |lines| <= c.given[i].line {
          return Err(LineNotLoaded);
        }
        if c.given[i].amount < 0 {
          return Err(NegativeShare);
        }
      }
      var amounts := SettleResidual(GivenAmounts(c.given), c.amount);
      assert GivenAmounts(c.given) != [];
      SpreadIsByBasis(c, lines, amounts);
      return Ok(amounts);
    }
    var weights := BasisWeights(c.basis, lines);
    var spread := AllocateCharge(c.amount, weights);
    if spread.Err? {
      return Err(NothingToWeigh);
    }
    SpreadIsByBasis(c, lines, spread.value);
    return Ok(spread.value);
  }

  /** The shares one charge adds; a line that takes nothing gets no row. */
  function ChargeShares(c: Charge, ls: seq<nat>, amounts: seq<int>, lines: seq<TargetLine>): seq<Share>
    requires |amounts| == |ls| && forall i :: 0 <= i < |ls| ==> ls[i] < |lines|
  {
    if ls == [] then []
    else
      var k := |ls| - 1;
      ChargeShares(c, ls[..k], amounts[..k], lines)
      + if amounts[k] == 0 then []
        else [Share(c.costType, c.basis, ls[k], lines[ls[k]].target, lines[ls[k]].baseQty, amounts[k])]
  }

  function OfLine(line: nat): Filter { (c: CostType, t: nat, l: nat) => l == line }

  lemma ShareTotalAppend(shares: seq<Share>, s: Share, p: Filter)
    ensures ShareTotal(shares + [s], p)
      == ShareTotal(shares, p) + if p(s.costType, s.target, s.line) then s.amount else 0
  {
    assert (shares + [s])[..|shares|] == shares;
  }

  lemma {:induction false} ChargeSharesTotal(
      c: Charge, ls: seq<nat>, amounts: seq<int>, lines: seq<TargetLine>, q: CostType -> bool)
    requires |amounts| == |ls| && forall i :: 0 <= i < |ls| ==> ls[i] < |lines|
    ensures ShareTotal(ChargeShares(c, ls, amounts, lines), OfTypes(q)) == if q(c.costType) then Sum(amounts) else 0
  {
    if ls != [] {
      var k := |ls| - 1;
      ChargeSharesTotal(c, ls[..k], amounts[..k], lines, q);
      var before := ChargeShares(c, ls[..k], amounts[..k], lines);
      SumAppend(amounts[..k], amounts[k]);
      assert amounts[..k] + [amounts[k]] == amounts;
      if amounts[k] == 0 {
        assert before + [] == before;
      } else {
        var share := Share(c.costType, c.basis, ls[k], lines[ls[k]].target, lines[ls[k]].baseQty, amounts[k]);
        ShareTotalAppend(before, share, OfTypes(q));
      }
    }
  }

  lemma {:induction false} ChargeSharesNameLines(c: Charge, ls: seq<nat>, amounts: seq<int>, lines: seq<TargetLine>)
    requires |amounts| == |ls| && forall i :: 0 <= i < |ls| ==> ls[i] < |lines|
    ensures forall s :: s in ChargeShares(c, ls, amounts, lines) ==>
      s.line < |lines| && s.target == lines[s.line].target
  {
    if ls != [] {
      ChargeSharesNameLines(c, ls[..|ls| - 1], amounts[..|ls| - 1], lines);
    }
  }

  // ------------------------------------------------------------------ which line takes which share

  /** Shares of these cost types on one line. */
  function On(q: CostType -> bool, line: nat): Filter { (c: CostType, t: nat, l: nat) => q(c) && l == line }

  /** What one line takes of a charge: what was entered against it by hand, or its place among all the lines. */
  function AmountOn(c: Charge, amounts: seq<int>, line: nat): int
    requires ByHand(c) ==> |amounts| == |c.given|
  {
    if c.basis.Manual? || c.basis.Direct? then GivenTo(c.given, amounts, line)
    else if line < |amounts| then amounts[line] else 0
  }

  function GivenTo(given: seq<Given>, amounts: seq<int>, line: nat): int
    requires |amounts| == |given|
  {
    if given == [] then 0
    else
      var k := |given| - 1;
      GivenTo(given[..k], amounts[..k], line) + if given[k].line == line then amounts[k] else 0
  }

  predicate SpreadsFit(charges: seq<Charge>, spreads: seq<seq<int>>)
  {
    && |spreads| == |charges|
    && forall i :: 0 <= i < |charges| && ByHand(charges[i]) ==> |spreads[i]| == |charges[i].given|
  }

  function LineTotal(charges: seq<Charge>, spreads: seq<seq<int>>, q: CostType -> bool, line: nat): int
    requires SpreadsFit(charges, spreads)
  {
    if charges == [] then 0
    else
      var k := |charges| - 1;
      LineTotal(charges[..k], spreads[..k], q, line)
      + if q(charges[k].costType) then AmountOn(charges[k], spreads[k], line) else 0
  }

  /** The charges each spread on its own basis, and every line with exactly its own share of each. */
  ghost predicate SpreadOver(charges: seq<Charge>, lines: seq<TargetLine>, spreads: seq<seq<int>>, shares: seq<Share>)
  {
    && SpreadsFit(charges, spreads)
    && (forall i :: 0 <= i < |charges| ==> SpreadByBasis(charges[i], lines, spreads[i]))
    && (forall q: CostType -> bool, line: nat ::
        ShareTotal(shares, On(q, line)) == LineTotal(charges, spreads, q, line))
    && (forall s ::
        s in shares ==> s.line < |lines| && s.target == lines[s.line].target && s.baseQty == lines[s.line].baseQty)
  }

  function TakenBy(ls: seq<nat>, amounts: seq<int>, line: nat): int
    requires |amounts| == |ls|
  {
    if ls == [] then 0
    else
      var k := |ls| - 1;
      TakenBy(ls[..k], amounts[..k], line) + if ls[k] == line then amounts[k] else 0
  }

  lemma {:induction false} ChargeSharesOn(
      c: Charge, ls: seq<nat>, amounts: seq<int>, lines: seq<TargetLine>, q: CostType -> bool, line: nat)
    requires |amounts| == |ls| && forall i :: 0 <= i < |ls| ==> ls[i] < |lines|
    ensures ShareTotal(ChargeShares(c, ls, amounts, lines), On(q, line))
      == if q(c.costType) then TakenBy(ls, amounts, line) else 0
    ensures forall s ::
      s in ChargeShares(c, ls, amounts, lines) ==> s.line < |lines| && s.baseQty == lines[s.line].baseQty
  {
    if ls != [] {
      var k := |ls| - 1;
      ChargeSharesOn(c, ls[..k], amounts[..k], lines, q, line);
      var before := ChargeShares(c, ls[..k], amounts[..k], lines);
      if amounts[k] == 0 {
        assert before + [] == before;
      } else {
        var share := Share(c.costType, c.basis, ls[k], lines[ls[k]].target, lines[ls[k]].baseQty, amounts[k]);
        ShareTotalAppend(before, share, On(q, line));
      }
    }
  }

  lemma {:induction false} TakenByHand(given: seq<Given>, ls: seq<nat>, amounts: seq<int>, line: nat)
    requires |amounts| == |ls| == |given| && forall i :: 0 <= i < |given| ==> ls[i] == given[i].line
    ensures TakenBy(ls, amounts, line) == GivenTo(given, amounts, line)
  {
    if ls != [] {
      var k := |ls| - 1;
      TakenByHand(given[..k], ls[..k], amounts[..k], line);
    }
  }

  lemma {:induction false} TakenInPlace(ls: seq<nat>, amounts: seq<int>, line: nat)
    requires |amounts| == |ls| && forall i :: 0 <= i < |ls| ==> ls[i] == i
    ensures TakenBy(ls, amounts, line) == if line < |amounts| then amounts[line] else 0
  {
    if ls != [] {
      var k := |ls| - 1;
      TakenInPlace(ls[..k], amounts[..k], line);
    }
  }

  lemma ChargeTakenOn(c: Charge, amounts: seq<int>, lines: seq<TargetLine>, q: CostType -> bool, line: nat)
    requires Spreadable(c, lines) && |amounts| == |ChargedLines(c, |lines|)|
    ensures ShareTotal(ChargeShares(c, ChargedLines(c, |lines|), amounts, lines), On(q, line))
      == if q(c.costType) then AmountOn(c, amounts, line) else 0
  {
    var ls := ChargedLines(c, |lines|);
    ChargeSharesOn(c, ls, amounts, lines, q, line);
    if ByHand(c) {
      TakenByHand(c.given, ls, amounts, line);
    } else {
      TakenInPlace(ls, amounts, line);
    }
  }

  lemma SpreadOneMore(
      charges: seq<Charge>, c: Charge, lines: seq<TargetLine>, spreads: seq<seq<int>>, shares: seq<Share>,
      amounts: seq<int>)
    requires SpreadOver(charges, lines, spreads, shares) && Spreadable(c, lines) && SpreadByBasis(c, lines, amounts)
    requires |amounts| == |ChargedLines(c, |lines|)|
    ensures SpreadOver(charges + [c], lines, spreads + [amounts],
                       shares + ChargeShares(c, ChargedLines(c, |lines|), amounts, lines))
  {
    var ls := ChargedLines(c, |lines|);
    var more := ChargeShares(c, ls, amounts, lines);
    ChargeSharesNameLines(c, ls, amounts, lines);
    ChargeSharesOn(c, ls, amounts, lines, (t: CostType) => true, 0);
    assert (charges + [c])[..|charges|] == charges && (spreads + [amounts])[..|spreads|] == spreads;
    forall q: CostType -> bool, line: nat
      ensures ShareTotal(shares + more, On(q, line)) == LineTotal(charges + [c], spreads + [amounts], q, line)
    {
      ChargeTakenOn(c, amounts, lines, q, line);
      ShareTotalConcat(shares, more, On(q, line));
    }
  }

  // ------------------------------------------------------------------ the charges as totals

  function ChargeTotal(charges: seq<Charge>, q: CostType -> bool): int
  {
    if charges == [] then 0
    else
      var c := charges[|charges| - 1];
      ChargeTotal(charges[..|charges| - 1], q) + if q(c.costType) then c.amount else 0
  }

  /** The shares tie to the charges, type by type, and name loaded lines. */
  ghost predicate Ties(charges: seq<Charge>, lines: seq<TargetLine>, shares: seq<Share>)
  {
    && (forall s :: s in shares ==> s.line < |lines| && s.target == lines[s.line].target)
    && (forall q: CostType -> bool :: ShareTotal(shares, OfTypes(q)) == ChargeTotal(charges, q))
  }

  /** Parent rows filed against one receipt. */
  function ParentsOn(receipt: nat): (CostType, nat) -> bool { (c: CostType, t: nat) => t == receipt }

  /** Shares of the lines of one receipt. */
  function OnLinesOf(lines: seq<TargetLine>, receipt: nat): Filter
  {
    (c: CostType, t: nat, l: nat) => l < |lines| && lines[l].target == receipt
  }

  /** The parent rows carry the charges, type by type, and on each receipt the shares of its lines. */
  ghost predicate RowsTie(charges: seq<Charge>, lines: seq<TargetLine>, shares: seq<Share>, parents: seq<Parent>)
  {
    && (forall q: CostType -> bool :: ParentTotal(parents, ParentsOfTypes(q)) == ChargeTotal(charges, q))
    && (forall t: nat :: ParentTotal(parents, ParentsOn(t)) == ShareTotal(shares, OnLinesOf(lines, t)))
  }

  lemma ParentsTieToCharges(charges: seq<Charge>, lines: seq<TargetLine>, shares: seq<Share>)
    requires Ties(charges, lines, shares)
    ensures RowsTie(charges, lines, shares, Parents(Grouped(shares)))
  {
    forall q: CostType -> bool
      ensures ParentTotal(Parents(Grouped(shares)), ParentsOfTypes(q)) == ChargeTotal(charges, q)
    {
      ParentsTieToShares(shares, ParentsOfTypes(q));
      SamePicking(shares, Under(ParentsOfTypes(q)), OfTypes(q));
    }
    forall t: nat
      ensures ParentTotal(Parents(Grouped(shares)), ParentsOn(t)) == ShareTotal(shares, OnLinesOf(lines, t))
    {
      ParentsTieToShares(shares, ParentsOn(t));
      SamePicking(shares, Under(ParentsOn(t)), OnLinesOf(lines, t));
    }
  }

  predicate Chargeable(c: Charge, capitalisable: set<CostType>) { ValidCharge(c) && c.costType in capitalisable }

  method CheckCharges(charges: seq<Charge>, capitalisable: set<CostType>) returns (refusal: Option<Refused>)
    ensures refusal.None?
      <==> forall i :: 0 <= i < |charges| ==> Chargeable(charges[i], capitalisable)
    ensures refusal.None? ==> forall i :: 0 <= i < |charges| ==>
      0 < charges[i].amount && charges[i].costType in capitalisable
  {
    for i := 0 to |charges|
      invariant forall k :: 0 <= k < i ==> Chargeable(charges[k], capitalisable)
    {
      if !ValidCharge(charges[i]) {
        return Some(ChargeInvalid);
      }
      if charges[i].costType !in capitalisable {
        return Some(TypeNotCapitalisable);
      }
    }
    return None;
  }

  /**
   What a charge must be: something, by hand with its shares, direct with one, and entered
   shares within a paisa of it.
   */
  lemma ChargesMustBe(c: Charge, capitalisable: set<CostType>)
    ensures Chargeable(c, capitalisable)
      <==> && c.costType in capitalisable && 0 < c.amount
           && (c.basis == Manual ==> c.given != []) && (c.basis == Direct ==> |c.given| == 1)
           && (c.given != [] ==> -100 <= Sum(GivenAmounts(c.given)) - c.amount <= 100)
  {
  }

  /** Every charge over the lines, before anything is written. */
  method SpreadCharges(charges: seq<Charge>, lines: seq<TargetLine>)
    returns (r: Result<seq<Share>, Refused>, ghost spreads: seq<seq<int>>)
    requires forall i :: 0 <= i < |charges| ==> ValidCharge(charges[i])
    ensures r.Ok? <==> forall i :: 0 <= i < |charges| ==> Spreadable(charges[i], lines)
    ensures r.Ok? ==> Spreads(charges, lines, spreads, r.value)
  {
    var shares: seq<Share> := [];
    spreads := [];
    for i := 0 to |charges|
      invariant forall k :: 0 <= k < i ==> Spreadable(charges[k], lines)
      invariant Spreads(charges[..i], lines, spreads, shares)
    {
      var more;
      more, spreads := SpreadNext(charges, i, lines, spreads, shares);
      if more.Err? {
        return Err(more.error), [];
      }
      shares := shares + more.value;
    }
    assert charges[..|charges|] == charges;
    r := Ok(shares);
  }

  method SpreadNext(
      charges: seq<Charge>, i: nat, lines: seq<TargetLine>, ghost spreads: seq<seq<int>>, ghost shares: seq<Share>)
    returns (more: Result<seq<Share>, Refused>, ghost spreads': seq<seq<int>>)
    requires i < |charges| && ValidCharge(charges[i]) && Spreads(charges[..i], lines, spreads, shares)
    ensures more.Ok? <==> Spreadable(charges[i], lines)
    ensures more.Ok? ==> Spreads(charges[..i + 1], lines, spreads', shares + more.value)
  {
    var amounts := AllocateChargeOverLines(charges[i], lines);
    if amounts.Err? {
      return Err(amounts.error), [];
    }
    SpreadUpTo(charges, i, lines, spreads, shares, amounts.value);
    more := Ok(ChargeShares(charges[i], ChargedLines(charges[i], |lines|), amounts.value, lines));
    spreads' := spreads + [amounts.value];
  }

  ghost predicate Spreads(charges: seq<Charge>, lines: seq<TargetLine>, spreads: seq<seq<int>>, shares: seq<Share>)
  {
    Ties(charges, lines, shares) && SpreadOver(charges, lines, spreads, shares)
  }

  lemma SpreadUpTo(
      charges: seq<Charge>, i: nat, lines: seq<TargetLine>, spreads: seq<seq<int>>, shares: seq<Share>,
      amounts: seq<int>)
    requires i < |charges| && Spreads(charges[..i], lines, spreads, shares)
    requires Spreadable(charges[i], lines) && SpreadByBasis(charges[i], lines, amounts)
    requires |amounts| == |ChargedLines(charges[i], |lines|)|
    ensures Spreads(charges[..i + 1], lines, spreads + [amounts],
                    shares + ChargeShares(charges[i], ChargedLines(charges[i], |lines|), amounts, lines))
  {
    TieOneMore(charges[..i], charges[i], lines, shares, amounts);
    SpreadOneMore(charges[..i], charges[i], lines, spreads, shares, amounts);
    assert charges[..i + 1] == charges[..i] + [charges[i]];
  }

  lemma TieOneMore(charges: seq<Charge>, c: Charge, lines: seq<TargetLine>, shares: seq<Share>, amounts: seq<int>)
    requires Ties(charges, lines, shares) && Spreadable(c, lines)
    requires |amounts| == |ChargedLines(c, |lines|)| && Sum(amounts) == c.amount
    ensures Ties(charges + [c], lines, shares + ChargeShares(c, ChargedLines(c, |lines|), amounts, lines))
  {
    var ls := ChargedLines(c, |lines|);
    var more := ChargeShares(c, ls, amounts, lines);
    assert (charges + [c])[..|charges|] == charges;
    ChargeSharesNameLines(c, ls, amounts, lines);
    forall q: CostType -> bool
      ensures ShareTotal(shares + more, OfTypes(q)) == ChargeTotal(charges + [c], q)
    {
      ChargeSharesTotal(c, ls, amounts, lines, q);
      ShareTotalConcat(shares, more, OfTypes(q));
    }
  }

  // ------------------------------------------------------------------ what each line takes

  datatype Allotment = Allotment(line: nat, amount: int)

  function AddAllotment(perLine: seq<Allotment>, line: nat, amount: int): seq<Allotment>
  {
    if perLine == [] then [Allotment(line, amount)]
    else if perLine[0].line == line then [Allotment(line, perLine[0].amount + amount)] + perLine[1..]
    else [perLine[0]] + AddAllotment(perLine[1..], line, amount)
  }

  /** Each line's total over all charges, lines in the order they first took a share. */
  function PerLine(shares: seq<Share>): seq<Allotment>
  {
    if shares == [] then []
    else
      var s := shares[|shares| - 1];
      AddAllotment(PerLine(shares[..|shares| - 1]), s.line, s.amount)
  }

  function AllottedTo(perLine: seq<Allotment>, line: nat): int
  {
    if perLine == [] then 0
    else (if perLine[0].line == line then perLine[0].amount else 0) + AllottedTo(perLine[1..], line)
  }

  lemma {:induction false} AddedAllotment(perLine: seq<Allotment>, line: nat, amount: int, other: nat)
    ensures AllottedTo(AddAllotment(perLine, line, amount), other)
      == AllottedTo(perLine, other) + if other == line then amount else 0
  {
    if perLine == [] {
      assert AddAllotment(perLine, line, amount)[1..] == [];
    } else if perLine[0].line == line {
      assert AddAllotment(perLine, line, amount)[1..] == perLine[1..];
    } else {
      AddedAllotment(perLine[1..], line, amount, other);
      assert AddAllotment(perLine, line, amount)[1..] == AddAllotment(perLine[1..], line, amount);
    }
  }

  /** A line's allotment is the sum of its shares. */
  lemma {:induction false} PerLineIsShares(shares: seq<Share>, line: nat)
    ensures AllottedTo(PerLine(shares), line) == ShareTotal(shares, OfLine(line))
  {
    if shares != [] {
      var k := |shares| - 1;
      PerLineIsShares(shares[..k], line);
      AddedAllotment(PerLine(shares[..k]), shares[k].line, shares[k].amount, line);
    }
  }

  ghost predicate DistinctAllotments(perLine: seq<Allotment>)
  {
    forall i, j :: 0 <= i < j < |perLine| ==> perLine[i].line != perLine[j].line
  }

  lemma {:induction false} AddedStaysDistinct(perLine: seq<Allotment>, line: nat, amount: int)
    requires DistinctAllotments(perLine)
    ensures DistinctAllotments(AddAllotment(perLine, line, amount))
    ensures forall a :: a in AddAllotment(perLine, line, amount) ==>
      a.line == line || exists b :: b in perLine && b.line == a.line
  {
    if perLine != [] && perLine[0].line != line {
      AddedStaysDistinct(perLine[1..], line, amount);
      var rest := AddAllotment(perLine[1..], line, amount);
      forall a | a in rest
        ensures a.line != perLine[0].line
        ensures a.line == line || exists b :: b in perLine && b.line == a.line
      {
        if a.line != line {
          var b :| b in perLine[1..] && b.line == a.line;
          assert b in perLine;
        }
      }
    }
  }

  lemma {:induction false} PerLineShape(shares: seq<Share>, n: nat)
    requires forall s :: s in shares ==> s.line < n
    ensures DistinctAllotments(PerLine(shares))
    ensures forall a :: a in PerLine(shares) ==> a.line < n
  {
    if shares != [] {
      var k := |shares| - 1;
      PerLineShape(shares[..k], n);
      AddedStaysDistinct(PerLine(shares[..k]), shares[k].line, shares[k].amount);
    }
  }

  lemma {:induction false} AllottedAt(perLine: seq<Allotment>, i: nat)
    requires DistinctAllotments(perLine) && i < |perLine|
    ensures AllottedTo(perLine, perLine[i].line) == perLine[i].amount
  {
    if i == 0 {
      NotAllotted(perLine[1..], perLine[0].line);
    } else {
      AllottedAt(perLine[1..], i - 1);
    }
  }

  lemma {:induction false} NotAllotted(perLine: seq<Allotment>, line: nat)
    requires forall a :: a in perLine ==> a.line != line
    ensures AllottedTo(perLine, line) == 0
  {
    if perLine != [] {
      NotAllotted(perLine[1..], line);
    }
  }
}
