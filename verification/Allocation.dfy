/**
 Spreading one charge over weighted lines. An array keyed by line id is modelled as a
 sequence in the array's own order; the ids play no part in the arithmetic.
 */
module Allocation {
  import opened Outcomes
  import opened FixedPoint

  /** A negative weight weighs nothing. */
  function Weight(w: int): nat { Max(0, w) }

  function TotalWeight(ws: seq<int>): nat
  {
    if ws == [] then 0 else Weight(ws[0]) + TotalWeight(ws[1..])
  }

  /** Every share rounded on its own, before anything is done about what rounding left over. */
  function Rounded(amount: int, ws: seq<int>, total: int): (shares: seq<int>)
    requires 0 < total
    ensures |shares| == |ws|
  {
    if ws == [] then [] else [RoundDiv(amount * Weight(ws[0]), total)] + Rounded(amount, ws[1..], total)
  }

  lemma {:induction false} RoundedAt(amount: int, ws: seq<int>, total: int, i: nat)
    requires 0 < total && i < |ws|
    ensures Rounded(amount, ws, total)[i] == RoundDiv(amount * Weight(ws[i]), total)
  {
    if i != 0 {
      RoundedAt(amount, ws[1..], total, i - 1);
    }
  }

  /** k is the first position holding the largest share in absolute value. */
  predicate FirstLargest(shares: seq<int>, k: nat)
  {
    && k < |shares|
    && (forall i :: 0 <= i < k ==> Abs(shares[i]) < Abs(shares[k]))
    && (forall i :: 0 <= i < |shares| ==> Abs(shares[i]) <= Abs(shares[k]))
  }

  /** What the allocator promises of one set of shares: the given ones with the residual on the largest. */
  ghost predicate Settles(given: seq<int>, amount: int, shares: seq<int>)
  {
    if given == [] then shares == []
    else exists k: nat :: FirstLargest(given, k) && shares == given[k := given[k] + amount - Sum(given)]
  }

  method Total(figures: seq<int>) returns (sum: int)
    ensures sum == Sum(figures)
  {
    sum := 0;
    for i := 0 to |figures|
      invariant sum == Sum(figures[..i])
    {
      SumPrefix(figures, i);
      sum := sum + figures[i];
    }
    assert figures[..|figures|] == figures;
  }

  method LargestKey(shares: seq<int>) returns (biggestKey: nat)
    requires shares != []
    ensures FirstLargest(shares, biggestKey)
  {
    var biggest := -1;
    biggestKey := 0;
    for i := 0 to |shares|
      invariant biggestKey < |shares|
      invariant i == 0 ==> biggest == -1
      invariant 0 < i ==> biggestKey < i && biggest == Abs(shares[biggestKey])
      invariant forall j :: 0 <= j < i ==> Abs(shares[j]) <= biggest
      invariant forall j :: 0 <= j < i && j < biggestKey ==> Abs(shares[j]) < biggest
    {
      if biggest < Abs(shares[i]) {
        biggest, biggestKey := Abs(shares[i]), i;
      }
    }
  }

  /** Puts whatever rounding left over onto the largest share. */
  method SettleResidual(given: seq<int>, amount: int) returns (shares: seq<int>)
    ensures Settles(given, amount, shares)
    ensures given != [] ==> |shares| == |given| && Sum(shares) == amount
    ensures given == [] ==> shares == []
  {
    if given == [] {
      return given;
    }
    var sum := Total(given);
    var residual := amount - sum;
    var k := LargestKey(given);
    shares := given;
    if residual != 0 {
      shares := shares[k := shares[k] + residual];
    }
    assert shares == given[k := given[k] + amount - Sum(given)];
    SettledSharesTie(given, amount, shares);
  }

  /** Every weight's share of the charge, rounded on its own. */
  method RoundShares(amount: int, weights: seq<int>, total: int) returns (shares: seq<int>)
    requires 0 < total
    ensures shares == Rounded(amount, weights, total) && |shares| == |weights|
  {
    shares := [];
    for i := 0 to |weights|
      invariant |shares| == i
      invariant forall j :: 0 <= j < i ==> shares[j] == RoundDiv(amount * Weight(weights[j]), total)
    {
      shares := shares + [RoundDiv(amount * Weight(weights[i]), total)];
    }
    forall j | 0 <= j < |weights|
      ensures shares[j] == Rounded(amount, weights, total)[j]
    {
      RoundedAt(amount, weights, total, j);
    }
  }

  /** Spreads a charge in proportion to the weights, or refuses when nothing weighs anything. */
  method AllocateCharge(amount: int, weights: seq<int>) returns (r: Result<seq<int>, ()>)
    ensures r.Err? <==> TotalWeight(weights) == 0
    ensures r.Ok? ==> Settles(Rounded(amount, weights, TotalWeight(weights)), amount, r.value)
    ensures r.Ok? ==> |r.value| == |weights| && Sum(r.value) == amount
  {
    var total := 0;
    for i := 0 to |weights|
      invariant total + TotalWeight(weights[i..]) == TotalWeight(weights)
    {
      assert weights[i..][1..] == weights[i + 1..];
      total := total + Weight(weights[i]);
    }
    if total <= 0 {
      return Err(());
    }
    var rounded := RoundShares(amount, weights, total);
    var shares := SettleResidual(rounded, amount);
    r := Ok(shares);
  }

  /** How far each share is from its exact pro-rata value, in units of 0.0001 / total weight. */
  function Errors(amount: int, ws: seq<int>, total: int, shares: seq<int>): (es: seq<int>)
    requires |shares| == |ws|
    ensures |es| == |ws|
  {
    if ws == [] then [] else [shares[0] * total - amount * Weight(ws[0])] + Errors(amount, ws[1..], total, shares[1..])
  }

  lemma {:induction false} ErrorAt(amount: int, ws: seq<int>, total: int, shares: seq<int>, i: nat)
    requires |shares| == |ws| && i < |ws|
    ensures Errors(amount, ws, total, shares)[i] == shares[i] * total - amount * Weight(ws[i])
  {
    if i != 0 {
      ErrorAt(amount, ws[1..], total, shares[1..], i - 1);
    }
  }

  lemma {:induction false} SumErrors(amount: int, ws: seq<int>, total: int, shares: seq<int>)
    requires |shares| == |ws|
    ensures Sum(Errors(amount, ws, total, shares)) == Sum(shares) * total - amount * TotalWeight(ws)
  {
    if ws != [] {
      SumErrors(amount, ws[1..], total, shares[1..]);
      MulDistributes(shares[0], Sum(shares[1..]), total);
      MulDistributes(Weight(ws[0]), TotalWeight(ws[1..]), amount);
      assert Errors(amount, ws, total, shares)[1..] == Errors(amount, ws[1..], total, shares[1..]);
    }
  }

  /** All but one of n figures are within half a unit, so what remains after it is within (n - 1) halves. */
  lemma {:induction false} SumWithin(es: seq<int>, unit: int)
    requires forall i :: 0 <= i < |es| ==> Abs(2 * es[i]) <= unit
    ensures Abs(2 * Sum(es)) <= |es| * unit
  {
    if es != [] {
      assert forall i :: 0 <= i < |es| - 1 ==> es[1..][i] == es[i + 1];
      SumWithin(es[1..], unit);
      assert |es| * unit == unit + (|es| - 1) * unit;
    }
  }

  lemma SumAllButOneWithin(es: seq<int>, k: nat, unit: int)
    requires k < |es|
    requires forall i :: 0 <= i < |es| && i != k ==> Abs(2 * es[i]) <= unit
    ensures Abs(2 * (Sum(es) - es[k])) <= (|es| - 1) * unit
  {
    var before, after := es[..k], es[k + 1..];
    SumSplit(es, k);
    assert es[k..] == [es[k]] + after;
    assert Sum(es[k..]) == es[k] + Sum(after) by {
      assert es[k..][1..] == after;
    }
    SumWithin(before, unit);
    SumWithin(after, unit);
    MulDistributes(|before|, |after|, unit);
  }

  lemma ResidualKey(given: seq<int>, amount: int, shares: seq<int>) returns (k: nat)
    requires given != [] && Settles(given, amount, shares)
    ensures FirstLargest(given, k)
      && shares == given[k := given[k] + amount - Sum(given)]
  {
    k :| FirstLargest(given, k) && shares == given[k := given[k] + amount - Sum(given)];
  }

  lemma ResidualOntoTies(given: seq<int>, amount: int, k: nat)
    requires k < |given|
    ensures Sum(given[k := given[k] + amount - Sum(given)]) == amount
  {
    SumUpdate(given, k, given[k] + amount - Sum(given));
  }

  /** Any shares this allocator hands out add up to the charge. */
  lemma SettledSharesTie(given: seq<int>, amount: int, shares: seq<int>)
    requires given != [] && Settles(given, amount, shares)
    ensures |shares| == |given| && Sum(shares) == amount
  {
    var k := ResidualKey(given, amount, shares);
    ResidualOntoTies(given, amount, k);
  }

  /** A share that is its own rounding is within half a unit of its exact value. */
  lemma RoundedError(amount: int, ws: seq<int>, total: int, shares: seq<int>, i: nat)
    requires 0 < total && |shares| == |ws| && i < |ws|
    requires shares[i] == Rounded(amount, ws, total)[i]
    ensures Abs(2 * Errors(amount, ws, total, shares)[i]) <= total
  {
    RoundedAt(amount, ws, total, i);
    ErrorAt(amount, ws, total, shares, i);
  }

  /** The residual-bearing share k moves; every other share is its own rounding. */
  lemma SharesAreNearProRata(amount: int, ws: seq<int>, shares: seq<int>) returns (k: nat)
    requires 0 < TotalWeight(ws)
    requires Settles(Rounded(amount, ws, TotalWeight(ws)), amount, shares)
    ensures |shares| == |ws| && k < |ws|
    ensures FirstLargest(Rounded(amount, ws, TotalWeight(ws)), k)
    ensures forall i :: 0 <= i < |ws| && i != k ==>
      Abs(2 * (shares[i] * TotalWeight(ws) - amount * Weight(ws[i]))) <= TotalWeight(ws)
    ensures Abs(2 * (shares[k] * TotalWeight(ws) - amount * Weight(ws[k]))) <= (|ws| - 1) * TotalWeight(ws)
  {
    var total := TotalWeight(ws);
    var rounded := Rounded(amount, ws, total);
    assert rounded != [];
    k := ResidualKey(rounded, amount, shares);
    var es := Errors(amount, ws, total, shares);
    assert Sum(es) == 0 by {
      SettledSharesTie(rounded, amount, shares);
      SumErrors(amount, ws, total, shares);
    }
    forall i | 0 <= i < |ws| && i != k
      ensures Abs(2 * es[i]) <= total
    {
      RoundedError(amount, ws, total, shares, i);
    }
    SumAllButOneWithin(es, k, total);
    forall i | 0 <= i < |ws|
      ensures es[i] == shares[i] * total - amount * Weight(ws[i])
    {
      ErrorAt(amount, ws, total, shares, i);
    }
  }

  lemma CancelFactor(gap: int, n: nat, total: int)
    requires 0 < total && Abs(2 * (gap * total)) <= n * total
    ensures Abs(2 * gap) <= n
  {
    if 2 * gap > n {
      MulMonotone(n + 1, 2 * gap, total);
      MulDistributes(n, 1, total);
      MulDistributes(gap, gap, total);
    }
    if -2 * gap > n {
      MulMonotone(n + 1, -2 * gap, total);
      MulDistributes(n, 1, total);
      MulDistributes(-gap, -gap, total);
    }
  }

  lemma RoundedSum(amount: int, ws: seq<int>)
    requires 0 < TotalWeight(ws)
    ensures Abs(2 * (Sum(Rounded(amount, ws, TotalWeight(ws))) - amount)) <= |ws|
  {
    var total := TotalWeight(ws);
    var rounded := Rounded(amount, ws, total);
    var es := Errors(amount, ws, total, rounded);
    var gap := Sum(rounded) - amount;
    assert Sum(es) == gap * total by {
      SumErrors(amount, ws, total, rounded);
      MulDistributes(gap, amount, total);
    }
    forall i | 0 <= i < |ws|
      ensures Abs(2 * es[i]) <= total
    {
      RoundedError(amount, ws, total, rounded, i);
    }
    SumWithin(es, total);
    CancelFactor(gap, |ws|, total);
  }

  lemma {:induction false} SumAtMost(s: seq<int>, most: int)
    requires forall i :: 0 <= i < |s| ==> s[i] <= most
    ensures Sum(s) <= |s| * most
  {
    if s != [] {
      assert forall i :: 0 <= i < |s| - 1 ==> s[1..][i] == s[i + 1];
      SumAtMost(s[1..], most);
      assert |s| * most == most + (|s| - 1) * most;
    }
  }

  lemma RoundedNonNegative(amount: nat, ws: seq<int>, total: int)
    requires 0 < total
    ensures var rounded := Rounded(amount, ws, total);
      forall i :: 0 <= i < |rounded| ==> 0 <= rounded[i]
  {
    forall i | 0 <= i < |ws|
      ensures 0 <= Rounded(amount, ws, total)[i]
    {
      RoundedAt(amount, ws, total, i);
      MulMonotone(0, amount, Weight(ws[i]));
      RoundDivSign(amount * Weight(ws[i]), total);
    }
  }

  /** n shares of at most `big` come within n/2 of the amount: what is left of `big` after the residual. */
  lemma ResidualFits(amount: int, n: nat, big: int, sum: int)
    requires 0 < n && n * (n + 1) <= 2 * amount
    requires sum <= n * big && Abs(2 * (sum - amount)) <= n
    ensures 0 <= big + amount - sum
  {
    if big + amount - sum < 0 {
      assert 2 * big <= n - 2;
      MulMonotone(2 * big, n - 2, n);
      MulDistributes(big, big, n);
      MulDistributes(n - 2, 3, n);
      assert false;
    }
  }

  /** No share is negative once the charge is at least n(n+1)/2 units of 0.0001. */
  lemma SharesAreNonNegative(amount: int, ws: seq<int>, shares: seq<int>)
    requires 0 < TotalWeight(ws)
    requires Settles(Rounded(amount, ws, TotalWeight(ws)), amount, shares)
    requires |ws| * (|ws| + 1) <= 2 * amount
    ensures forall i :: 0 <= i < |shares| ==> 0 <= shares[i]
  {
    var total := TotalWeight(ws);
    var rounded := Rounded(amount, ws, total);
    assert rounded != [];
    var k := ResidualKey(rounded, amount, shares);
    assert 0 <= amount by { MulMonotone(0, |ws|, |ws| + 1); }
    RoundedNonNegative(amount, ws, total);
    assert 0 <= shares[k] by {
      RoundedSum(amount, ws);
      SumAtMost(rounded, rounded[k]);
      ResidualFits(amount, |ws|, rounded[k], Sum(rounded));
    }
  }

  /**
   Below the threshold a share can be negative: 0.0002 over four equal lines rounds to
   0.0001 each, and the first line is left with -0.0001 so that the four still tie.
   */
  lemma TinyChargeLeavesANegativeShare(shares: seq<int>)
    requires Settles(Rounded(2, [1, 1, 1, 1], 4), 2, shares)
    ensures shares == [-1, 1, 1, 1]
  {
    var rounded := Rounded(2, [1, 1, 1, 1], 4);
    assert rounded == [1, 1, 1, 1];
    assert rounded[1..] == [1, 1, 1] && rounded[1..][1..] == [1, 1] && rounded[1..][1..][1..] == [1];
    assert Sum(rounded) == 4;
    var k := ResidualKey(rounded, 2, shares);
    assert k == 0;
  }
}
