/**
 The cost layer table of one item in one scope, under receipts, issues and their reversals.
 A row's place is its layer_id; a deleted row leaves None behind.
 */
module LayerReversal {
  import opened Outcomes
  import opened FixedPoint
  import opened CostLayers
  import opened LayerOrder

  datatype Kind = Receipt | Backorder

  datatype Layer = Layer(kind: Kind, line: nat, date: int, received: int, remaining: int, cost: int)

  /** A consumption row: how much of a layer an issue line drew. */
  datatype Use = Use(line: nat, layer: nat, qty: int)

  type Table = seq<Option<Layer>>

  function Remaining(row: Option<Layer>): int { if row.Some? then row.value.remaining else 0 }

  function Rems(t: Table): (rems: seq<int>)
    ensures |rems| == |t|
  {
    seq(|t|, i requires 0 <= i < |t| => Remaining(t[i]))
  }

  function Total(t: Table): int { Sum(Rems(t)) }

  function Dates(t: Table): (dates: seq<int>)
    ensures |dates| == |t|
  {
    seq(|t|, i requires 0 <= i < |t| => if t[i].Some? then t[i].value.date else 0)
  }

  function Cost(row: Option<Layer>): int { if row.Some? then row.value.cost else 0 }

  function Values(t: Table): (vs: seq<int>)
    ensures |vs| == |t|
  {
    seq(|t|, i requires 0 <= i < |t| => Remaining(t[i]) * Cost(t[i]))
  }

  /** Stock value in units of 0.00000001. */
  function Value(t: Table): int { Sum(Values(t)) }

  // ------------------------------------------------------------------ the operations

  function SetRemaining(row: Option<Layer>, remaining: int): Option<Layer>
  {
    if row.Some? then Some(row.value.(remaining := remaining)) else None
  }

  function WithRems(t: Table, rems: seq<int>): (t': Table)
    requires |rems| == |t|
    ensures |t'| == |t|
  {
    seq(|t|, i requires 0 <= i < |t| => SetRemaining(t[i], rems[i]))
  }

  function UsesOf(line: nat, takes: seq<Take>): seq<Use>
  {
    if takes == [] then [] else [Use(line, takes[0].layer, takes[0].qty)] + UsesOf(line, takes[1..])
  }

  /** The cost of the last row read that has stock and a cost, else what the caller falls back on. */
  function LastKnownCost(t: Table, ids: seq<nat>, fallback: int): int
    requires LayerOrder.Within(ids, |t|)
  {
    if ids == [] then Max(0, fallback)
    else
      var last := t[ids[|ids| - 1]];
      if 0 < Remaining(last) && 0 < Cost(last) then Cost(last) else LastKnownCost(t, ids[..|ids| - 1], fallback)
  }

  function ShortfallCost(t: Table, fallback: int): int { LastKnownCost(t, Oldest(Dates(t)), fallback) }

  function AfterReceipt(t: Table, line: nat, date: int, qty: int, cost: int): Table
  {
    t + [Some(Layer(Receipt, line, date, qty, qty, cost))]
  }

  function BackorderRow(line: nat, date: int, qty: int, cost: int): Option<Layer>
  {
    Some(Layer(Backorder, line, date, -qty, -qty, cost))
  }

  /** What an issue draws, the rows read by date and then by layer_id. */
  function RowDraw(t: Table, dir: Direction, qty: int): (d: Draw)
    ensures |d.left| == |t|
  {
    DrawRows(Rems(t), Oldest(Dates(t)), dir, qty)
  }

  /** An issue draws on the layers; what no layer met becomes one negative layer. */
  function AfterIssue(t: Table, line: nat, date: int, qty: int, dir: Direction, fallback: int): Table
  {
    var d := RowDraw(t, dir, qty);
    WithRems(t, d.left) + if 1 < d.unmet then [BackorderRow(line, date, d.unmet, ShortfallCost(t, fallback))] else []
  }

  function UsesAfterIssue(t: Table, uses: seq<Use>, line: nat, qty: int, dir: Direction): seq<Use>
  {
    uses + UsesOf(line, RowDraw(t, dir, qty).takes)
  }

  /** Each quantity drawn at the cost of its layer. */
  function TakesCost(t: Table, takes: seq<Take>): int
    requires TakesWithin(takes, |t|)
  {
    if takes == [] then 0 else takes[0].qty * Cost(t[takes[0].layer]) + TakesCost(t, takes[1..])
  }

  /** What an issue costs, in units of 0.00000001: its draws, and what it is short at the shortfall's cost. */
  function IssueCost(t: Table, qty: int, dir: Direction, fallback: int): int
  {
    RowTakesWithin(Rems(t), Oldest(Dates(t)), dir, qty);
    var d := RowDraw(t, dir, qty);
    TakesCost(t, d.takes) + if 1 < d.unmet then d.unmet * ShortfallCost(t, fallback) else 0
  }

  function AddTo(t: Table, id: nat, qty: int): (t': Table)
    ensures |t'| == |t|
  {
    if id < |t| then t[id := SetRemaining(t[id], Remaining(t[id]) + qty)] else t
  }

  /** Consumed quantities go back to the layers they came from. */
  function GiveBack(t: Table, uses: seq<Use>, line: nat): (t': Table)
    ensures |t'| == |t|
    decreases |uses|
  {
    if uses == [] then t
    else GiveBack(if uses[0].line == line then AddTo(t, uses[0].layer, uses[0].qty) else t, uses[1..], line)
  }

  predicate BackorderOfLine(row: Option<Layer>, line: nat)
  {
    row.Some? && row.value.kind == Backorder && row.value.line == line
  }

  function DropBackorders(t: Table, line: nat): (t': Table)
    ensures |t'| == |t|
  {
    seq(|t|, i requires 0 <= i < |t| => if BackorderOfLine(t[i], line) then None else t[i])
  }

  function WithoutUses(uses: seq<Use>, line: nat): seq<Use>
  {
    if uses == [] then []
    else (if uses[0].line == line then [] else [uses[0]]) + WithoutUses(uses[1..], line)
  }

  function AfterIssueReversal(t: Table, uses: seq<Use>, line: nat): Table
  {
    DropBackorders(GiveBack(t, uses, line), line)
  }

  predicate ReceiptOfLine(row: Option<Layer>, line: nat)
  {
    row.Some? && row.value.kind == Receipt && row.value.line == line
  }

  /** The first receipt layer the line opened, or the length of the table. */
  function FindReceipt(t: Table, line: nat, from: nat): (p: nat)
    requires from <= |t|
    ensures from <= p <= |t|
    ensures p < |t| ==> ReceiptOfLine(t[p], line)
    decreases |t| - from
  {
    if from == |t| || ReceiptOfLine(t[from], line) then from else FindReceipt(t, line, from + 1)
  }

  /** What remains is withdrawn; what was consumed becomes a negative layer at the receipt's cost. */
  function AfterReceiptReversal(t: Table, line: nat, baseQty: int): Table
  {
    var p := FindReceipt(t, line, 0);
    if p == |t| then t
    else
      var consumed := baseQty - Remaining(t[p]);
      t[p := SetRemaining(t[p], 0)]
      + if 1 < consumed then [BackorderRow(line, t[p].value.date, consumed, t[p].value.cost)] else []
  }

  // ------------------------------------------------------------------ the table as posting updates it

  class CostLayerTable {
    var rows: Table
    var uses: seq<Use>

    constructor ()
      ensures rows == [] && uses == []
    {
      rows, uses := [], [];
    }

    method RecordReceipt(line: nat, date: int, qty: int, cost: int)
      modifies this
      ensures rows == AfterReceipt(old(rows), line, date, qty, cost) && uses == old(uses)
    {
      rows := rows + [Some(Layer(Receipt, line, date, qty, qty, cost))];
    }

    method WriteBack(ids: seq<nat>, left: seq<int>)
      requires LayerOrder.Within(ids, |rows|) && |left| == |ids|
      modifies this`rows
      ensures rows == WithRems(old(rows), Scatter(Rems(old(rows)), ids, left))
    {
      assert WithRems(rows, Rems(rows)) == rows;
      for k := 0 to |ids|
        invariant |rows| == |old(rows)|
        invariant rows == WithRems(old(rows), Scatter(Rems(old(rows)), ids[..k], left[..k]))
      {
        assert ids[..k + 1][..k] == ids[..k] && left[..k + 1][..k] == left[..k];
        rows := rows[ids[k] := SetRemaining(rows[ids[k]], left[k])];
      }
      assert ids[..|ids|] == ids && left[..|ids|] == left;
    }

    method CostOf(takes: seq<Take>) returns (total: int)
      requires TakesWithin(takes, |rows|)
      ensures total == TakesCost(rows, takes)
    {
      total := 0;
      for k := 0 to |takes|
        invariant total + TakesCost(rows, takes[k..]) == TakesCost(rows, takes)
      {
        assert takes[k..][1..] == takes[k + 1..];
        total := total + takes[k].qty * Cost(rows[takes[k].layer]);
      }
    }

    /** Draws on the layers in the method's order, and gives the issue's amount and rate. */
    method IssueStock(line: nat, date: int, qty: int, dir: Direction, fallback: int) returns (amount: int, rate: int)
      modifies this
      ensures rows == AfterIssue(old(rows), line, date, qty, dir, fallback)
      ensures uses == UsesAfterIssue(old(rows), old(uses), line, qty, dir)
      ensures amount == RoundDiv(IssueCost(old(rows), qty, dir, fallback), SCALE)
      ensures rate == if 0 < qty then UnitRate(amount, qty) else 0
    {
      var ids := Oldest(Dates(rows));
      var d := ConsumeLayers(Picked(Rems(rows), ids), qty, dir);
      TakesStayWithin(Picked(Rems(rows), ids), dir, qty);
      RowTakesWithin(Rems(rows), ids, dir, qty);
      var takes := ByRow(d.takes, ids);
      var total := CostOf(takes);
      var cost := ShortfallCost(rows, fallback);
      WriteBack(ids, d.left);
      if 1 < d.unmet {
        total := total + d.unmet * cost;
        rows := rows + [BackorderRow(line, date, d.unmet, cost)];
      } else {
        assert rows + [] == rows;
      }
      uses := uses + UsesOf(line, takes);
      amount := RoundDiv(total, SCALE);
      rate := if 0 < qty then UnitRate(amount, qty) else 0;
    }

    /** Reverses an outward line: gives back, forgets the consumption, drops the line's backorder. */
    method ReverseIssue(line: nat)
      modifies this
      ensures rows == AfterIssueReversal(old(rows), old(uses), line)
      ensures uses == WithoutUses(old(uses), line)
    {
      ghost var back := GiveBack(rows, uses, line);
      assert uses[0..] == uses;
      for k := 0 to |uses|
        invariant uses == old(uses)
        invariant GiveBack(rows, uses[k..], line) == back
      {
        assert uses[k..][1..] == uses[k + 1..];
        if uses[k].line == line {
          rows := AddTo(rows, uses[k].layer, uses[k].qty);
        }
      }
      assert rows == back;
      uses := WithoutUses(uses, line);
      var kept: Table := [];
      for i := 0 to |rows|
        invariant rows == back && uses == WithoutUses(old(uses), line)
        invariant kept == DropBackorders(rows, line)[..i]
      {
        kept := kept + [if BackorderOfLine(rows[i], line) then None else rows[i]];
      }
      rows := kept;
    }

    /** Reverses an inward line. */
    method ReverseReceipt(line: nat, baseQty: int)
      modifies this
      ensures rows == AfterReceiptReversal(old(rows), line, baseQty)
        && uses == old(uses)
    {
      var p := 0;
      while p < |rows| && !ReceiptOfLine(rows[p], line)
        invariant 0 <= p <= |rows| && rows == old(rows) && uses == old(uses)
        invariant FindReceipt(rows, line, 0) == FindReceipt(rows, line, p)
      {
        p := p + 1;
      }
      if p < |rows| {
        var consumed := baseQty - Remaining(rows[p]);
        var cost, date := rows[p].value.cost, rows[p].value.date;
        rows := rows[p := SetRemaining(rows[p], 0)];
        if 1 < consumed {
          rows := rows + [BackorderRow(line, date, consumed, cost)];
        } else {
          assert rows + [] == rows;
        }
      }
    }
  }
}
