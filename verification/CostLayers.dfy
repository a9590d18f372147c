/**
 Drawing an issue from cost layers, and the closed form that stands in for the oldest-first
 reading of it where a valuation method keeps no layers.
 */
module CostLayers {
  import opened FixedPoint
  import opened Sequences

  datatype Direction = Fifo | Lifo

  /** The step-th layer an issue looks at, of n layers held oldest first. */
  function Position(dir: Direction, n: nat, step: nat): (p: nat)
    requires step < n
    ensures p < n
  {
    if dir == Fifo then step else n - 1 - step
  }

  datatype Take = Take(layer: nat, qty: int)

  datatype Draw = Draw(left: seq<int>, unmet: int, takes: seq<Take>)

  /**
   What an issue of `want` leaves in the layers from the given step on. A want of one unit
   or less is not pursued, so a last 0.0001 is neither drawn nor recorded as a shortfall.
   */
  function DrawFrom(rems: seq<int>, dir: Direction, step: nat, want: int): (d: Draw)
    requires step <= |rems|
    ensures |d.left| == |rems|
    decreases |rems| - step
  {
    if step == |rems| || want <= 1 then Draw(rems, want, [])
    else
      var p := Position(dir, |rems|, step);
      if rems[p] <= 0 then DrawFrom(rems, dir, step + 1, want)
      else
        var take := Min(rems[p], want);
        var rest := DrawFrom(rems[p := rems[p] - take], dir, step + 1, want - take);
        Draw(rest.left, rest.unmet, [Take(p, take)] + rest.takes)
  }

  /** One step that draws: the rest of the walk sees the layer reduced and the want met by as much. */
  lemma DrawStep(rems: seq<int>, dir: Direction, step: nat, want: int) returns (take: Take, next: seq<int>, rest: Draw)
    requires step < |rems| && 1 < want && 0 < rems[Position(dir, |rems|, step)]
    ensures take.layer == Position(dir, |rems|, step)
    ensures take.qty == Min(rems[take.layer], want)
      && next == rems[take.layer := rems[take.layer] - take.qty]
    ensures rest == DrawFrom(next, dir, step + 1, want - take.qty)
    ensures DrawFrom(rems, dir, step, want) == Draw(rest.left, rest.unmet, [take] + rest.takes)
  {
    var p := Position(dir, |rems|, step);
    take := Take(p, Min(rems[p], want));
    next := rems[p := rems[p] - take.qty];
    rest := DrawFrom(next, dir, step + 1, want - take.qty);
  }

  /** Walks the layers in the method's order, as posting an issue does. */
  method ConsumeLayers(layers: seq<int>, qty: int, dir: Direction) returns (d: Draw)
    ensures d == DrawFrom(layers, dir, 0, qty)
  {
    var left, remaining, step := layers, qty, 0;
    var takes: seq<Take> := [];
    ghost var whole := DrawFrom(layers, dir, 0, qty);
    ghost var rest := whole;
    while step < |layers|
      invariant 0 <= step <= |layers| == |left|
      invariant rest == DrawFrom(left, dir, step, remaining)
      invariant whole.left == rest.left && whole.unmet == rest.unmet
      invariant whole.takes == takes + rest.takes
    {
      if remaining <= 1 {
        break;
      }
      var idx := Position(dir, |layers|, step);
      if 0 < left[idx] {
        var take := Min(left[idx], remaining);
        ghost var first, next, after := DrawStep(left, dir, step, remaining);
        Shift(takes, first, after.takes);
        rest := after;
        left := left[idx := left[idx] - take];
        remaining := remaining - take;
        takes := takes + [Take(idx, take)];
      }
      step := step + 1;
    }
    d := Draw(left, remaining, takes);
  }

  lemma Shift<T>(before: seq<T>, x: T, after: seq<T>)
    ensures before + ([x] + after) == before + [x] + after
  {
  }

  function TakenTotal(takes: seq<Take>): int
  {
    if takes == [] then 0 else takes[0].qty + TakenTotal(takes[1..])
  }

  function TakenFrom(takes: seq<Take>, layer: nat): int
  {
    if takes == [] then 0
    else (if takes[0].layer == layer then takes[0].qty else 0) + TakenFrom(takes[1..], layer)
  }

  lemma {:induction false} DrawTotals(rems: seq<int>, dir: Direction, step: nat, want: int)
    requires step <= |rems|
    ensures var d := DrawFrom(rems, dir, step, want);
      Sum(d.left) == Sum(rems) - (want - d.unmet) && TakenTotal(d.takes) == want - d.unmet
    decreases |rems| - step
  {
    if step < |rems| && 1 < want {
      if rems[Position(dir, |rems|, step)] <= 0 {
        DrawTotals(rems, dir, step + 1, want);
      } else {
        var take, next, rest := DrawStep(rems, dir, step, want);
        DrawTotals(next, dir, step + 1, want - take.qty);
        SumUpdate(rems, take.layer, rems[take.layer] - take.qty);
        assert ([take] + rest.takes)[1..] == rest.takes;
      }
    }
  }

  lemma {:induction false} DrawPerLayer(rems: seq<int>, dir: Direction, step: nat, want: int, j: nat)
    requires step <= |rems| && j < |rems|
    ensures var d := DrawFrom(rems, dir, step, want);
      TakenFrom(d.takes, j) == rems[j] - d.left[j]
    decreases |rems| - step
  {
    if step < |rems| && 1 < want {
      if rems[Position(dir, |rems|, step)] <= 0 {
        DrawPerLayer(rems, dir, step + 1, want, j);
      } else {
        var take, next, rest := DrawStep(rems, dir, step, want);
        DrawPerLayer(next, dir, step + 1, want - take.qty, j);
        assert ([take] + rest.takes)[1..] == rest.takes;
      }
    }
  }

  /** What leaves the layers is what was wanted less what was not met, and each take says from where. */
  lemma DrawConserves(rems: seq<int>, dir: Direction, want: int)
    ensures var d := DrawFrom(rems, dir, 0, want);
      && Sum(d.left) == Sum(rems) - (want - d.unmet)
      && TakenTotal(d.takes) == want - d.unmet
      && (forall j :: 0 <= j < |rems| ==> TakenFrom(d.takes, j) == rems[j] - d.left[j])
  {
    DrawTotals(rems, dir, 0, want);
    forall j | 0 <= j < |rems| {
      DrawPerLayer(rems, dir, 0, want, j);
    }
  }

  /** A layer without stock is never touched, and a drawn layer keeps at least nothing. */
  lemma {:induction false} DrawTouchesStockOnly(rems: seq<int>, dir: Direction, step: nat, want: int, j: nat)
    requires step <= |rems| && j < |rems|
    ensures var left := DrawFrom(rems, dir, step, want).left;
      if rems[j] <= 0 then left[j] == rems[j] else 0 <= left[j] <= rems[j]
    decreases |rems| - step
  {
    if step < |rems| && 1 < want {
      if rems[Position(dir, |rems|, step)] <= 0 {
        DrawTouchesStockOnly(rems, dir, step + 1, want, j);
      } else {
        var take, next, rest := DrawStep(rems, dir, step, want);
        DrawTouchesStockOnly(next, dir, step + 1, want - take.qty, j);
      }
    }
  }

  /** Every take names a layer that held stock. */
  lemma {:induction false} TakesNameStock(rems: seq<int>, dir: Direction, step: nat, want: int, k: nat)
    requires step <= |rems| && k < |DrawFrom(rems, dir, step, want).takes|
    ensures var t := DrawFrom(rems, dir, step, want).takes[k];
      t.layer < |rems| && 0 < rems[t.layer] && 0 < t.qty
    decreases |rems| - step
  {
    if rems[Position(dir, |rems|, step)] <= 0 {
      TakesNameStock(rems, dir, step + 1, want, k);
    } else if 0 < k {
      var take, next, rest := DrawStep(rems, dir, step, want);
      TakesNameStock(next, dir, step + 1, want - take.qty, k - 1);
    }
  }

  // ------------------------------------------------------------------ the closed form

  /** Layers oldest first: what each received, and what each still holds. */
  ghost predicate Layers(received: seq<int>, rems: seq<int>)
  {
    |rems| == |received| && forall i :: 0 <= i < |rems| ==> 0 <= rems[i] <= received[i]
  }

  /** Stock left in a layer means no younger layer has been touched. */
  ghost predicate OldestFirst(received: seq<int>, rems: seq<int>)
    requires |rems| == |received|
  {
    forall i, j :: 0 <= i < j < |rems| && 0 < rems[i] ==> rems[j] == received[j]
  }

  /** max(0, min(line quantity, on hand - received after)). */
  function StillOnHand(lineQty: int, onHand: int, receivedAfter: int): int
  {
    Max(0, Min(lineQty, onHand - receivedAfter))
  }

  function ClosedForm(received: seq<int>, onHand: int, i: nat): int
    requires i < |received|
  {
    StillOnHand(received[i], onHand, Sum(received[i + 1..]))
  }

  ghost predicate ClosedFormHolds(received: seq<int>, rems: seq<int>, onHand: int)
    requires |rems| == |received|
  {
    forall i :: 0 <= i < |rems| ==> rems[i] == ClosedForm(received, onHand, i)
  }

  lemma {:induction false} SumOrdered(a: seq<int>, b: seq<int>)
    requires |a| == |b| && forall i :: 0 <= i < |a| ==> a[i] <= b[i]
    ensures Sum(a) <= Sum(b)
  {
    if a != [] {
      assert forall i :: 0 <= i < |a| - 1 ==> a[1..][i] == a[i + 1] && b[1..][i] == b[i + 1];
      SumOrdered(a[1..], b[1..]);
    }
  }

  lemma SumAround(s: seq<int>, i: nat)
    requires i < |s|
    ensures Sum(s) == Sum(s[..i]) + s[i] + Sum(s[i + 1..])
  {
    SumSplit(s, i);
    assert s[i..][1..] == s[i + 1..];
  }

  /** One layer agrees with the closed form wherever the layers were drawn oldest first. */
  lemma OldestFirstAt(received: seq<int>, rems: seq<int>, i: nat)
    requires Layers(received, rems) && OldestFirst(received, rems) && i < |rems|
    ensures rems[i] == ClosedForm(received, Sum(rems), i)
  {
    SumAround(rems, i);
    SumNonNegative(rems[..i]);
    if j :| 0 <= j < i && 0 < rems[j] {
      assert rems[i + 1..] == received[i + 1..];
    } else {
      SumZero(rems[..i]);
      if 0 < rems[i] {
        assert rems[i + 1..] == received[i + 1..];
      } else {
        SumOrdered(rems[i + 1..], received[i + 1..]);
      }
    }
  }

  lemma SuffixSums(received: seq<int>, i: nat, j: nat)
    requires i < j < |received| && forall k :: 0 <= k < |received| ==> 0 <= received[k]
    ensures Sum(received[i + 1..]) >= received[j] + Sum(received[j + 1..])
  {
    var s := received[i + 1..];
    SumAround(s, j - i - 1);
    assert s[j - i..] == received[j + 1..];
    SumNonNegative(s[..j - i - 1]);
  }

  /**
   The closed form names what every layer holds exactly when the layers have been drawn
   oldest first, whatever order of postings led there.
   */
  lemma ClosedFormIffOldestFirst(received: seq<int>, rems: seq<int>)
    requires Layers(received, rems)
    ensures ClosedFormHolds(received, rems, Sum(rems)) <==> OldestFirst(received, rems)
  {
    if OldestFirst(received, rems) {
      forall i | 0 <= i < |rems|
        ensures rems[i] == ClosedForm(received, Sum(rems), i)
      {
        OldestFirstAt(received, rems, i);
      }
    }
    if ClosedFormHolds(received, rems, Sum(rems)) {
      forall i, j | 0 <= i < j < |rems| && 0 < rems[i]
        ensures rems[j] == received[j]
      {
        assert rems[i] == ClosedForm(received, Sum(rems), i);
        SuffixSums(received, i, j);
      }
    }
  }

  function ClosedForms(received: seq<int>, onHand: int, from: nat): (cs: seq<int>)
    requires from <= |received|
    ensures |cs| == |received| - from
    ensures forall i :: 0 <= i < |cs| ==>
      cs[i] == ClosedForm(received, onHand, from + i)
    decreases |received| - from
  {
    if from == |received| then [] else [ClosedForm(received, onHand, from)] + ClosedForms(received, onHand, from + 1)
  }

  /** Whatever is on hand is spread over the receipts with nothing lost and nothing counted twice. */
  lemma {:induction false} ClosedFormsSumToOnHand(received: seq<int>, onHand: int, from: nat)
    requires from <= |received| && 0 <= onHand
    requires forall k :: 0 <= k < |received| ==> 0 <= received[k]
    ensures Sum(ClosedForms(received, onHand, from)) == Min(onHand, Sum(received[from..]))
    decreases |received| - from
  {
    if from < |received| {
      ClosedFormsSumToOnHand(received, onHand, from + 1);
      assert received[from..][1..] == received[from + 1..];
      SumNonNegative(received[from + 1..]);
      assert ClosedForms(received, onHand, from)[1..] == ClosedForms(received, onHand, from + 1);
    }
  }

  // ------------------------------------------------------------------ what keeps the layers oldest first

  /** An issue, whatever its quantity, leaves the layers drawn oldest first. */
  lemma {:induction false} IssueKeepsOldestFirst(received: seq<int>, rems: seq<int>, step: nat, want: int)
    requires Layers(received, rems) && OldestFirst(received, rems) && step <= |rems|
    requires 1 < want ==> forall j :: 0 <= j < step ==> rems[j] == 0
    ensures var left := DrawFrom(rems, Fifo, step, want).left;
      Layers(received, left) && OldestFirst(received, left)
    decreases |rems| - step
  {
    if step < |rems| && 1 < want {
      if rems[step] <= 0 {
        IssueKeepsOldestFirst(received, rems, step + 1, want);
      } else {
        var take := Min(rems[step], want);
        IssueKeepsOldestFirst(received, rems[step := rems[step] - take], step + 1, want - take);
      }
    }
  }

  /** A receipt dated into place p keeps the closed form exactly when nothing dated after it has been drawn. */
  lemma ReceiptKeepsOldestFirst(received: seq<int>, rems: seq<int>, p: nat, qty: int)
    requires Layers(received, rems) && OldestFirst(received, rems) && p <= |rems| && 0 < qty
    ensures OldestFirst(InsertAt(received, p, qty), InsertAt(rems, p, qty))
      <==> rems[p..] == received[p..]
  {
    var received', rems' := InsertAt(received, p, qty), InsertAt(rems, p, qty);
    assert forall i :: 0 <= i < p ==> rems'[i] == rems[i] && received'[i] == received[i];
    assert forall i :: p < i < |rems'| ==> rems'[i] == rems[i - 1] && received'[i] == received[i - 1];
    if OldestFirst(received', rems') {
      assert rems'[p] == qty;
      forall j | p <= j < |rems|
        ensures rems[j] == received[j]
      {
        assert rems'[j + 1] == received'[j + 1];
      }
      assert rems[p..] == received[p..];
    }
    if rems[p..] == received[p..] {
      assert forall j :: p <= j < |rems| ==> rems[j] == rems[p..][j - p] && received[j] == received[p..][j - p];
    }
  }

  /** Stock held by the layers from one position up to another. */
  function Held(rems: seq<int>, from: nat, to: nat): int
    requires from <= to <= |rems|
  {
    Sum(rems[from..to])
  }

  /**
   The last unit of an issue is left behind exactly when the layers it empties add up to
   one unit less than it asked for.
   */
  ghost predicate LeavesAUnit(rems: seq<int>, from: nat, want: int)
    requires from <= |rems|
  {
    exists k :: from <= k <= |rems| && Held(rems, from, k) == want - 1
  }

  lemma HeldStep(rems: seq<int>, from: nat, to: nat)
    requires from < to <= |rems|
    ensures Held(rems, from, to) == rems[from] + Held(rems, from + 1, to)
  {
    assert rems[from..to][1..] == rems[from + 1..to];
  }

  lemma LeavesAUnitStep(rems: seq<int>, from: nat, want: int)
    requires from < |rems| && 1 < want
    ensures LeavesAUnit(rems, from, want)
      <==> LeavesAUnit(rems, from + 1, want - rems[from])
  {
    if k :| from <= k <= |rems| && Held(rems, from, k) == want - 1 {
      assert from < k;
      HeldStep(rems, from, k);
    }
    var next := from + 1;
    if k :| next <= k <= |rems| && Held(rems, next, k) == want - rems[from] - 1 {
      HeldStep(rems, from, k);
    }
  }

  lemma NoUnitLeftInside(rems: seq<int>, step: nat, want: int)
    requires step < |rems| && 1 < want < rems[step] && forall j :: 0 <= j < |rems| ==> 0 <= rems[j]
    ensures !LeavesAUnit(rems, step, want)
  {
    forall k | step <= k <= |rems|
      ensures Held(rems, step, k) != want - 1
    {
      if step < k {
        HeldStep(rems, step, k);
        SumNonNegative(rems[step + 1..k]);
      }
    }
  }

  lemma HeldBeyond(rems: seq<int>, step: nat, want: int)
    requires step < |rems|
    ensures var next := rems[step := 0];
      Held(next, step + 1, |rems|) == Held(rems, step + 1, |rems|)
      && (LeavesAUnit(next, step + 1, want) <==> LeavesAUnit(rems, step + 1, want))
  {
    var next, after := rems[step := 0], step + 1;
    forall k | after <= k <= |rems|
      ensures Held(next, after, k) == Held(rems, after, k)
    {
      assert next[after..k] == rems[after..k];
    }
  }

  /** The outcome of a walk over stock it cannot exhaust. */
  lemma {:induction false} UnmetUnit(rems: seq<int>, step: nat, want: int)
    requires step <= |rems|
    requires forall j :: 0 <= j < |rems| ==> 0 <= rems[j]
    requires 0 <= want <= Held(rems, step, |rems|)
    ensures DrawFrom(rems, Fifo, step, want).unmet == if LeavesAUnit(rems, step, want) then 1 else 0
    decreases |rems| - step
  {
    if want <= 1 {
      assert Held(rems, step, step) == 0;
      if want == 0 {
        forall k | step <= k <= |rems|
          ensures Held(rems, step, k) != want - 1
        {
          SumNonNegative(rems[step..k]);
        }
      }
    } else if want < rems[step] {
      assert DrawFrom(rems[step := rems[step] - want], Fifo, step + 1, 0).unmet == 0;
      NoUnitLeftInside(rems, step, want);
    } else {
      HeldStep(rems, step, |rems|);
      LeavesAUnitStep(rems, step, want);
      HeldBeyond(rems, step, want - rems[step]);
      UnmetUnit(rems[step := 0], step + 1, want - rems[step]);
      if rems[step] == 0 {
        assert rems[step := 0] == rems;
      }
    }
  }
}
