/** The order an issue reads the rows of a layer table in, and what it draws from each row. */
module LayerOrder {
  import opened FixedPoint
  import opened Sequences
  import opened CostLayers

  // ------------------------------------------------------------------ filing by date

  /** Where a date is filed: behind every date no later than it. */
  function Place(dates: seq<int>, date: int): (p: nat)
    ensures p <= |dates|
  {
    if dates == [] || dates[|dates| - 1] <= date then |dates| else Place(dates[..|dates| - 1], date)
  }

  predicate InDateOrder(dates: seq<int>) { forall i, j :: 0 <= i < j < |dates| ==> dates[i] <= dates[j] }

  lemma {:induction false} PlaceSplits(dates: seq<int>, date: int)
    requires InDateOrder(dates)
    ensures forall i :: 0 <= i < Place(dates, date) ==> dates[i] <= date
    ensures forall i :: Place(dates, date) <= i < |dates| ==> date < dates[i]
  {
    if dates != [] && date < dates[|dates| - 1] {
      var before := dates[..|dates| - 1];
      PlaceSplits(before, date);
      assert forall i :: 0 <= i < |before| ==> before[i] == dates[i];
    }
  }

  lemma PlaceIs(dates: seq<int>, date: int, p: nat)
    requires InDateOrder(dates) && p <= |dates|
    requires (forall i :: 0 <= i < p ==> dates[i] <= date) && (forall i :: p <= i < |dates| ==> date < dates[i])
    ensures Place(dates, date) == p
  {
    PlaceSplits(dates, date);
    var q := Place(dates, date);
    assert q < |dates| ==> date < dates[q];
    assert p < |dates| ==> date < dates[p];
  }

  lemma Filed(dates: seq<int>, date: int, p: nat, dates': seq<int>)
    requires InDateOrder(dates) && p == Place(dates, date) && dates' == InsertAt(dates, p, date)
    ensures forall i :: 0 <= i < p ==> dates'[i] == dates[i] && dates[i] <= date
    ensures dates'[p] == date
    ensures forall i :: p < i < |dates'| ==> dates'[i] == dates[i - 1] && date < dates[i - 1]
  {
    PlaceSplits(dates, date);
  }

  lemma FilingKeepsOrder(dates: seq<int>, date: int)
    requires InDateOrder(dates)
    ensures InDateOrder(InsertAt(dates, Place(dates, date), date))
  {
    Filed(dates, date, Place(dates, date), InsertAt(dates, Place(dates, date), date));
  }

  /** Filing a date moves the places of the dates from it on, by one. */
  lemma FilingMovesPlaces(dates: seq<int>, date: int, d: int)
    requires InDateOrder(dates)
    ensures Place(InsertAt(dates, Place(dates, date), date), d) == Place(dates, d) + (if date <= d then 1 else 0)
    ensures if date <= d then Place(dates, date) <= Place(dates, d) else Place(dates, d) <= Place(dates, date)
  {
    var p, q := Place(dates, date), Place(dates, d);
    var dates' := InsertAt(dates, p, date);
    Filed(dates, date, p, dates');
    FilingKeepsOrder(dates, date);
    PlaceSplits(dates, date);
    PlaceSplits(dates, d);
    assert p < |dates| ==> date < dates[p];
    assert q < |dates| ==> d < dates[q];
    PlaceIs(dates', d, if date <= d then q + 1 else q);
  }

  // ------------------------------------------------------------------ rows by date and id

  predicate Within(ids: seq<nat>, n: nat) { forall i :: 0 <= i < |ids| ==> ids[i] < n }

  predicate Distinct(ids: seq<nat>) { forall i, j :: 0 <= i < j < |ids| ==> ids[i] != ids[j] }

  function Picked(xs: seq<int>, ids: seq<nat>): (ys: seq<int>)
    requires Within(ids, |xs|)
    ensures |ys| == |ids|
  {
    seq(|ids|, i requires 0 <= i < |ids| => xs[ids[i]])
  }

  /** The ids of the rows, oldest first, rows of one date in the order of their ids. */
  function Oldest(dates: seq<int>): (ids: seq<nat>)
    ensures |ids| == |dates| && Within(ids, |dates|)
  {
    if dates == [] then []
    else
      var id := |dates| - 1;
      var ids := Oldest(dates[..id]);
      InsertAt(ids, Place(Picked(dates, ids), dates[id]), id)
  }

  predicate ReadBefore(dates: seq<int>, a: nat, b: nat)
    requires a < |dates| && b < |dates|
  {
    dates[a] < dates[b] || (dates[a] == dates[b] && a < b)
  }

  predicate ReadsByDate(dates: seq<int>, ids: seq<nat>)
    requires Within(ids, |dates|)
  {
    forall i, j :: 0 <= i < j < |ids| ==> ReadBefore(dates, ids[i], ids[j])
  }

  /** Every row is read, and read after every row dated before it. */
  lemma {:induction false} OldestReadsEveryRowByDate(dates: seq<int>)
    ensures var ids := Oldest(dates);
      ReadsByDate(dates, ids) && Distinct(ids) && forall r :: 0 <= r < |dates| ==> r in ids
  {
    if dates != [] {
      var id := |dates| - 1;
      var ids := Oldest(dates[..id]);
      OldestReadsEveryRowByDate(dates[..id]);
      assert forall i, j :: 0 <= i < j < |ids| ==> ReadBefore(dates[..id], ids[i], ids[j]);
      assert ReadsByDate(dates, ids);
      FileRow(dates, ids, id, Place(Picked(dates, ids), dates[id]));
    }
  }

  lemma FileRow(dates: seq<int>, ids: seq<nat>, id: nat, p: nat)
    requires id < |dates| && Within(ids, id) && ReadsByDate(dates, ids) && p == Place(Picked(dates, ids), dates[id])
    ensures var ids' := InsertAt(ids, p, id);
      Within(ids', |dates|) && ReadsByDate(dates, ids') && (forall r :: r in ids || r == id ==> r in ids')
  {
    var ids' := InsertAt(ids, p, id);
    FiledRows(dates, ids, id, p, ids');
    forall i, j | 0 <= i < j < |ids'|
      ensures ReadBefore(dates, ids'[i], ids'[j])
    {
      FiledPair(dates, ids, id, p, ids', i, j);
    }
    FiledHoldsAll(ids, p, id);
  }

  ghost predicate FiledAt(dates: seq<int>, ids: seq<nat>, id: nat, p: nat, ids': seq<nat>)
    requires id < |dates| && Within(ids, id)
  {
    && p <= |ids| && |ids'| == |ids| + 1 && ids'[p] == id
    && (forall i :: 0 <= i < p ==> ids'[i] == ids[i] && dates[ids[i]] <= dates[id])
    && (forall i :: p < i < |ids'| ==> ids'[i] == ids[i - 1] && dates[id] < dates[ids[i - 1]])
  }

  lemma FiledRows(dates: seq<int>, ids: seq<nat>, id: nat, p: nat, ids': seq<nat>)
    requires id < |dates| && Within(ids, id) && ReadsByDate(dates, ids) && p == Place(Picked(dates, ids), dates[id])
    requires ids' == InsertAt(ids, p, id)
    ensures FiledAt(dates, ids, id, p, ids')
  {
    PlaceSplitsRows(dates, ids, id);
    assert forall i :: p < i < |ids'| ==> ids'[i] == ids[i - 1];
  }

  lemma PlaceSplitsRows(dates: seq<int>, ids: seq<nat>, id: nat)
    requires id < |dates| && Within(ids, id) && ReadsByDate(dates, ids)
    ensures var p := Place(Picked(dates, ids), dates[id]);
      && (forall k :: 0 <= k < p ==> dates[ids[k]] <= dates[id])
      && (forall k :: p <= k < |ids| ==> dates[id] < dates[ids[k]])
  {
    var filed := Picked(dates, ids);
    assert forall k :: 0 <= k < |ids| ==> filed[k] == dates[ids[k]];
    PlaceSplits(filed, dates[id]);
  }

  lemma FiledPair(dates: seq<int>, ids: seq<nat>, id: nat, p: nat, ids': seq<nat>, i: nat, j: nat)
    requires id < |dates| && Within(ids, id) && ReadsByDate(dates, ids) && FiledAt(dates, ids, id, p, ids')
    requires i < j < |ids'|
    ensures ids'[i] < |dates| && ids'[j] < |dates| && ReadBefore(dates, ids'[i], ids'[j])
  {
    if i != p && j != p {
      assert ReadBefore(dates, ids[if i < p then i else i - 1], ids[if j < p then j else j - 1]);
    }
  }

  lemma FiledHoldsAll(ids: seq<nat>, p: nat, id: nat)
    requires p <= |ids|
    ensures forall r :: r in ids || r == id ==> r in InsertAt(ids, p, id)
  {
    assert ids == ids[..p] + ids[p..];
  }

  // ------------------------------------------------------------------ drawing on rows in a given order

  /** The rows with the listed ones overwritten. */
  function Scatter(xs: seq<int>, ids: seq<nat>, vals: seq<int>): (ys: seq<int>)
    requires Within(ids, |xs|) && |vals| == |ids|
    ensures |ys| == |xs|
  {
    if ids == [] then xs
    else
      var k := |ids| - 1;
      Scatter(xs, ids[..k], vals[..k])[ids[k] := vals[k]]
  }

  predicate TakesWithin(takes: seq<Take>, n: nat) { forall k :: 0 <= k < |takes| ==> takes[k].layer < n }

  lemma TakesStayWithin(rems: seq<int>, dir: Direction, want: int)
    ensures TakesWithin(DrawFrom(rems, dir, 0, want).takes, |rems|)
  {
    forall k | 0 <= k < |DrawFrom(rems, dir, 0, want).takes| {
      TakesNameStock(rems, dir, 0, want, k);
    }
  }

  function ByRow(takes: seq<Take>, ids: seq<nat>): (rows: seq<Take>)
    requires TakesWithin(takes, |ids|)
    ensures |rows| == |takes|
  {
    if takes == [] then [] else [Take(ids[takes[0].layer], takes[0].qty)] + ByRow(takes[1..], ids)
  }

  /** An issue against rows read in the order of ids: each draw is written back to its own row. */
  function DrawRows(rems: seq<int>, ids: seq<nat>, dir: Direction, want: int): (d: Draw)
    requires Within(ids, |rems|)
    ensures |d.left| == |rems|
  {
    TakesStayWithin(Picked(rems, ids), dir, want);
    var d := DrawFrom(Picked(rems, ids), dir, 0, want);
    Draw(Scatter(rems, ids, d.left), d.unmet, ByRow(d.takes, ids))
  }

  lemma {:induction false} ScatterAt(xs: seq<int>, ids: seq<nat>, vals: seq<int>, k: nat)
    requires Within(ids, |xs|) && Distinct(ids) && |vals| == |ids| && k < |ids|
    ensures Scatter(xs, ids, vals)[ids[k]] == vals[k]
  {
    if k < |ids| - 1 {
      ScatterAt(xs, ids[..|ids| - 1], vals[..|ids| - 1], k);
    }
  }

  lemma {:induction false} ScatterElsewhere(xs: seq<int>, ids: seq<nat>, vals: seq<int>, r: nat)
    requires Within(ids, |xs|) && |vals| == |ids| && r < |xs| && r !in ids
    ensures Scatter(xs, ids, vals)[r] == xs[r]
  {
    if ids != [] {
      ScatterElsewhere(xs, ids[..|ids| - 1], vals[..|ids| - 1], r);
    }
  }

  lemma {:induction false} ScatterSum(xs: seq<int>, ids: seq<nat>, vals: seq<int>)
    requires Within(ids, |xs|) && Distinct(ids) && |vals| == |ids|
    ensures Sum(Scatter(xs, ids, vals)) == Sum(xs) - Sum(Picked(xs, ids)) + Sum(vals)
  {
    if ids != [] {
      var k := |ids| - 1;
      ScatterSum(xs, ids[..k], vals[..k]);
      ScatterElsewhere(xs, ids[..k], vals[..k], ids[k]);
      SumUpdate(Scatter(xs, ids[..k], vals[..k]), ids[k], vals[k]);
      assert Picked(xs, ids)[..k] == Picked(xs, ids[..k]);
      SumPrefix(Picked(xs, ids), k);
      SumPrefix(vals, k);
      assert Picked(xs, ids)[..k + 1] == Picked(xs, ids) && vals[..k + 1] == vals;
    }
  }

  lemma {:induction false} ByRowTotals(takes: seq<Take>, ids: seq<nat>)
    requires TakesWithin(takes, |ids|)
    ensures TakenTotal(ByRow(takes, ids)) == TakenTotal(takes)
    ensures forall k :: 0 <= k < |takes| ==> ByRow(takes, ids)[k] == Take(ids[takes[k].layer], takes[k].qty)
  {
    if takes != [] {
      ByRowTotals(takes[1..], ids);
      assert ByRow(takes, ids)[1..] == ByRow(takes[1..], ids);
    }
  }

  lemma {:induction false} ByRowFrom(takes: seq<Take>, ids: seq<nat>, k: nat)
    requires TakesWithin(takes, |ids|) && Distinct(ids) && k < |ids|
    ensures TakenFrom(ByRow(takes, ids), ids[k]) == TakenFrom(takes, k)
  {
    if takes != [] {
      ByRowFrom(takes[1..], ids, k);
      assert ByRow(takes, ids)[1..] == ByRow(takes[1..], ids);
    }
  }

  lemma {:induction false} ByRowElsewhere(takes: seq<Take>, ids: seq<nat>, r: nat)
    requires TakesWithin(takes, |ids|) && r !in ids
    ensures TakenFrom(ByRow(takes, ids), r) == 0
  {
    if takes != [] {
      ByRowElsewhere(takes[1..], ids, r);
      assert ByRow(takes, ids)[1..] == ByRow(takes[1..], ids);
    }
  }

  lemma RowTakesWithin(rems: seq<int>, ids: seq<nat>, dir: Direction, want: int)
    requires Within(ids, |rems|)
    ensures TakesWithin(DrawRows(rems, ids, dir, want).takes, |rems|)
  {
    forall k | 0 <= k < |DrawRows(rems, ids, dir, want).takes| {
      RowTakesNameStock(rems, ids, dir, want, k);
    }
  }

  /** Whatever the order of the rows, what they lose, what is recorded and what stays unmet add up. */
  lemma DrawRowsTotals(rems: seq<int>, ids: seq<nat>, dir: Direction, want: int)
    requires Within(ids, |rems|) && Distinct(ids)
    ensures var d := DrawRows(rems, ids, dir, want);
      Sum(d.left) == Sum(rems) - (want - d.unmet) && TakenTotal(d.takes) == want - d.unmet
  {
    var picked := Picked(rems, ids);
    TakesStayWithin(picked, dir, want);
    DrawTotals(picked, dir, 0, want);
    WrittenBackTotals(rems, ids, DrawFrom(picked, dir, 0, want));
  }

  lemma WrittenBackTotals(rems: seq<int>, ids: seq<nat>, d: Draw)
    requires Within(ids, |rems|) && Distinct(ids) && |d.left| == |ids| && TakesWithin(d.takes, |ids|)
    ensures Sum(Scatter(rems, ids, d.left)) == Sum(rems) - Sum(Picked(rems, ids)) + Sum(d.left)
    ensures TakenTotal(ByRow(d.takes, ids)) == TakenTotal(d.takes)
  {
    ScatterSum(rems, ids, d.left);
    ByRowTotals(d.takes, ids);
  }

  /** Each row loses what was recorded against it, and a row without stock is never touched. */
  lemma DrawRowsAt(rems: seq<int>, ids: seq<nat>, dir: Direction, want: int, r: nat)
    requires Within(ids, |rems|) && Distinct(ids) && r < |rems|
    ensures var d := DrawRows(rems, ids, dir, want);
      && TakenFrom(d.takes, r) == rems[r] - d.left[r]
      && if rems[r] <= 0 then d.left[r] == rems[r] else 0 <= d.left[r] <= rems[r]
  {
    var picked := Picked(rems, ids);
    var d := DrawFrom(picked, dir, 0, want);
    TakesStayWithin(picked, dir, want);
    if r in ids {
      var k := PositionOf(ids, r);
      DrawPerLayer(picked, dir, 0, want, k);
      DrawTouchesStockOnly(picked, dir, 0, want, k);
      ScatterAt(rems, ids, d.left, k);
      ByRowFrom(d.takes, ids, k);
    } else {
      ScatterElsewhere(rems, ids, d.left, r);
      ByRowElsewhere(d.takes, ids, r);
    }
  }

  lemma RowTakesNameStock(rems: seq<int>, ids: seq<nat>, dir: Direction, want: int, k: nat)
    requires Within(ids, |rems|) && k < |DrawRows(rems, ids, dir, want).takes|
    ensures var t := DrawRows(rems, ids, dir, want).takes[k];
      t.layer < |rems| && 0 < rems[t.layer] && 0 < t.qty
  {
    TakesStayWithin(Picked(rems, ids), dir, want);
    TakesNameStock(Picked(rems, ids), dir, 0, want, k);
    ByRowTotals(DrawFrom(Picked(rems, ids), dir, 0, want).takes, ids);
  }

  /** A row is drawn from only once every row that the method reads before it is empty. */
  lemma {:induction false} DrawsInTurn(rems: seq<int>, dates: seq<int>, dir: Direction, want: int, a: nat, b: nat)
    requires |rems| == |dates| && a < |rems| && b < |rems|
    requires if dir == Fifo then ReadBefore(dates, a, b) else ReadBefore(dates, b, a)
    ensures var left := DrawRows(rems, Oldest(dates), dir, want).left;
      left[b] != rems[b] ==> left[a] <= 0
  {
    OldestReadsEveryRowByDate(dates);
    DrawsInTurnOf(rems, dates, Oldest(dates), dir, want, a, b);
  }

  lemma ReadEarlier(dates: seq<int>, ids: seq<nat>, i: nat, j: nat)
    requires Within(ids, |dates|) && ReadsByDate(dates, ids) && i < |ids| && j < |ids|
    requires ReadBefore(dates, ids[i], ids[j])
    ensures i < j
  {
  }

  lemma DrawsInTurnOf(rems: seq<int>, dates: seq<int>, ids: seq<nat>, dir: Direction, want: int, a: nat, b: nat)
    requires |rems| == |dates| && Within(ids, |dates|) && ReadsByDate(dates, ids) && Distinct(ids)
    requires a in ids && b in ids
    requires if dir == Fifo then ReadBefore(dates, a, b) else ReadBefore(dates, b, a)
    ensures var left := DrawRows(rems, ids, dir, want).left;
      left[b] != rems[b] ==> left[a] <= 0
  {
    var i := PositionOf(ids, a);
    var j := PositionOf(ids, b);
    if dir == Fifo {
      ReadEarlier(dates, ids, i, j);
    } else {
      ReadEarlier(dates, ids, j, i);
    }
    DrawsInTurnAt(rems, ids, dir, want, i, j);
  }

  lemma DrawsInTurnAt(rems: seq<int>, ids: seq<nat>, dir: Direction, want: int, i: nat, j: nat)
    requires Within(ids, |rems|) && Distinct(ids) && i < |ids| && j < |ids|
    requires if dir == Fifo then i < j else j < i
    ensures var left := DrawRows(rems, ids, dir, want).left;
      left[ids[j]] != rems[ids[j]] ==> left[ids[i]] <= 0
  {
    var n := |ids|;
    LeftAt(rems, ids, dir, want, i);
    LeftAt(rems, ids, dir, want, j);
    if dir == Fifo {
      DrawnInOrder(Picked(rems, ids), dir, 0, want, i, j);
    } else {
      DrawnInOrder(Picked(rems, ids), dir, 0, want, n - 1 - i, n - 1 - j);
    }
  }

  lemma LeftAt(rems: seq<int>, ids: seq<nat>, dir: Direction, want: int, i: nat)
    requires Within(ids, |rems|) && Distinct(ids) && i < |ids|
    ensures DrawRows(rems, ids, dir, want).left[ids[i]] == DrawFrom(Picked(rems, ids), dir, 0, want).left[i]
  {
    ScatterAt(rems, ids, DrawFrom(Picked(rems, ids), dir, 0, want).left, i);
  }

  /** Of two layers on the way, the second is drawn from only once the first is empty. */
  lemma {:induction false} DrawnInOrder(rems: seq<int>, dir: Direction, step: nat, want: int, i: nat, j: nat)
    requires step <= i < j < |rems|
    ensures var d, p, q := DrawFrom(rems, dir, step, want), Position(dir, |rems|, i), Position(dir, |rems|, j);
      d.left[q] != rems[q] ==> d.left[p] <= 0
    decreases |rems| - step
  {
    if step == i {
      EmptiedFirst(rems, dir, step, want);
    } else if 1 < want {
      if rems[Position(dir, |rems|, step)] <= 0 {
        DrawnInOrder(rems, dir, step + 1, want, i, j);
      } else {
        var take, next, rest := DrawStep(rems, dir, step, want);
        DrawnInOrder(next, dir, step + 1, want - take.qty, i, j);
      }
    }
  }

  lemma EmptiedFirst(rems: seq<int>, dir: Direction, step: nat, want: int)
    requires step < |rems|
    ensures var d, p := DrawFrom(rems, dir, step, want), Position(dir, |rems|, step);
      d.left[p] <= 0 || forall q :: 0 <= q < |rems| && q != p ==> d.left[q] == rems[q]
  {
    var p := Position(dir, |rems|, step);
    if 1 < want && 0 < rems[p] {
      var take, next, rest := DrawStep(rems, dir, step, want);
      DrawTouchesStockOnly(next, dir, step + 1, want - take.qty, p);
    } else {
      DrawTouchesStockOnly(rems, dir, step, want, p);
    }
  }
}
