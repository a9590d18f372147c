/**
 Runs of receipts, issues and reversals over one layer table, and what they conserve.
 */
module LayerPool {
  import opened Outcomes
  import opened FixedPoint
  import opened CostLayers
  import opened LayerOrder
  import opened LayerReversal

  // ------------------------------------------------------------------ sums over the table

  lemma TotalUpdate(t: Table, i: nat, row: Option<Layer>)
    requires i < |t|
    ensures Total(t[i := row]) == Total(t) - Remaining(t[i]) + Remaining(row)
  {
    assert Rems(t[i := row]) == Rems(t)[i := Remaining(row)];
    SumUpdate(Rems(t), i, Remaining(row));
  }

  lemma TotalAppend(t: Table, row: Option<Layer>)
    ensures Total(t + [row]) == Total(t) + Remaining(row)
  {
    assert Rems(t + [row]) == Rems(t) + [Remaining(row)];
    SumAppend(Rems(t), Remaining(row));
  }

  lemma {:induction false} SumOfDifferences(a: seq<int>, b: seq<int>, c: seq<int>)
    requires |a| == |b| == |c| && forall i :: 0 <= i < |a| ==> c[i] == a[i] - b[i]
    ensures Sum(c) == Sum(a) - Sum(b)
  {
    if a != [] {
      assert forall i :: 0 <= i < |a| - 1 ==> a[1..][i] == a[i + 1] && b[1..][i] == b[i + 1] && c[1..][i] == c[i + 1];
      SumOfDifferences(a[1..], b[1..], c[1..]);
    }
  }

  /** The negative layers a line left behind. */
  function BackorderPart(row: Option<Layer>, line: nat): int
  {
    if BackorderOfLine(row, line) then row.value.remaining else 0
  }

  function BackorderParts(t: Table, line: nat): (ps: seq<int>)
    ensures |ps| == |t|
  {
    seq(|t|, i requires 0 <= i < |t| => BackorderPart(t[i], line))
  }

  function BackorderOf(t: Table, line: nat): int { Sum(BackorderParts(t, line)) }

  lemma BackorderAppend(t: Table, row: Option<Layer>, line: nat)
    ensures BackorderOf(t + [row], line) == BackorderOf(t, line) + BackorderPart(row, line)
  {
    assert BackorderParts(t + [row], line) == BackorderParts(t, line) + [BackorderPart(row, line)];
    SumAppend(BackorderParts(t, line), BackorderPart(row, line));
  }

  lemma BackorderSame(t: Table, u: Table, line: nat)
    requires |t| == |u| && forall i :: 0 <= i < |t| ==> BackorderPart(t[i], line) == BackorderPart(u[i], line)
    ensures BackorderOf(t, line) == BackorderOf(u, line)
  {
    assert BackorderParts(t, line) == BackorderParts(u, line);
  }

  lemma BackorderAbsent(t: Table, line: nat)
    requires forall i :: 0 <= i < |t| ==> BackorderPart(t[i], line) == 0
    ensures BackorderOf(t, line) == 0
  {
    SumZero(BackorderParts(t, line));
  }

  lemma DropTotal(t: Table, line: nat)
    ensures Total(DropBackorders(t, line)) == Total(t) - BackorderOf(t, line)
  {
    SumOfDifferences(Rems(t), BackorderParts(t, line), Rems(DropBackorders(t, line)));
  }

  // ------------------------------------------------------------------ sums over the consumption rows

  /** What a line drew from a layer. */
  function Used(uses: seq<Use>, line: nat, layer: nat): int
  {
    if uses == [] then 0
    else (if uses[0].line == line && uses[0].layer == layer then uses[0].qty else 0) + Used(uses[1..], line, layer)
  }

  function UsedFrom(uses: seq<Use>, layer: nat): int
  {
    if uses == [] then 0
    else (if uses[0].layer == layer then uses[0].qty else 0) + UsedFrom(uses[1..], layer)
  }

  function UsedBy(uses: seq<Use>, line: nat): int
  {
    if uses == [] then 0
    else (if uses[0].line == line then uses[0].qty else 0) + UsedBy(uses[1..], line)
  }

  lemma {:induction false} UsesConcat(a: seq<Use>, b: seq<Use>, line: nat, layer: nat)
    ensures UsedFrom(a + b, layer) == UsedFrom(a, layer) + UsedFrom(b, layer)
    ensures UsedBy(a + b, line) == UsedBy(a, line) + UsedBy(b, line)
    ensures Used(a + b, line, layer) == Used(a, line, layer) + Used(b, line, layer)
  {
    if a == [] {
      assert a + b == b;
    } else {
      assert (a + b)[1..] == a[1..] + b;
      UsesConcat(a[1..], b, line, layer);
    }
  }

  lemma {:induction false} UsesOfTakes(line: nat, takes: seq<Take>, other: nat, layer: nat)
    ensures UsedFrom(UsesOf(line, takes), layer) == TakenFrom(takes, layer)
    ensures UsedBy(UsesOf(line, takes), other) == if other == line then TakenTotal(takes) else 0
    ensures |UsesOf(line, takes)| == |takes|
    ensures forall k :: 0 <= k < |takes| ==>
      UsesOf(line, takes)[k] == Use(line, takes[k].layer, takes[k].qty)
  {
    if takes != [] {
      UsesOfTakes(line, takes[1..], other, layer);
      assert UsesOf(line, takes)[1..] == UsesOf(line, takes[1..]);
    }
  }

  lemma {:induction false} WithoutUsesSums(uses: seq<Use>, line: nat, other: nat, layer: nat)
    ensures UsedFrom(WithoutUses(uses, line), layer) == UsedFrom(uses, layer) - Used(uses, line, layer)
    ensures UsedBy(WithoutUses(uses, line), other) == if other == line then 0 else UsedBy(uses, other)
    ensures forall u :: u in WithoutUses(uses, line) ==> u in uses && u.line != line
  {
    if uses != [] {
      WithoutUsesSums(uses[1..], line, other, layer);
      var rest := WithoutUses(uses[1..], line);
      if uses[0].line != line {
        assert ([uses[0]] + rest)[1..] == rest;
      } else {
        assert [] + rest == rest;
      }
    }
  }

  lemma {:induction false} UsedIsNonNegative(uses: seq<Use>, line: nat, layer: nat)
    requires forall u :: u in uses ==> 0 < u.qty
    ensures 0 <= Used(uses, line, layer) <= UsedFrom(uses, layer)
  {
    if uses != [] {
      UsedIsNonNegative(uses[1..], line, layer);
    }
  }

  // ------------------------------------------------------------------ giving back

  /** Every consumption row names a receipt layer that is still there. */
  predicate NamesReceipts(t: Table, uses: seq<Use>)
  {
    forall u :: u in uses ==> u.layer < |t| && t[u.layer].Some? && t[u.layer].value.kind == Receipt
  }

  lemma {:induction false} GiveBackAt(t: Table, uses: seq<Use>, line: nat, i: nat)
    requires i < |t|
    ensures GiveBack(t, uses, line)[i] == SetRemaining(t[i], Remaining(t[i]) + Used(uses, line, i))
    decreases |uses|
  {
    if uses != [] {
      GiveBackAt(if uses[0].line == line then AddTo(t, uses[0].layer, uses[0].qty) else t, uses[1..], line, i);
    }
  }

  lemma {:induction false} GiveBackTotal(t: Table, uses: seq<Use>, line: nat)
    requires NamesReceipts(t, uses)
    ensures Total(GiveBack(t, uses, line)) == Total(t) + UsedBy(uses, line)
    decreases |uses|
  {
    if uses != [] {
      var id := uses[0].layer;
      var next := if uses[0].line == line then AddTo(t, id, uses[0].qty) else t;
      assert uses[0] in uses;
      TotalUpdate(t, id, SetRemaining(t[id], Remaining(t[id]) + uses[0].qty));
      GiveBackTotal(next, uses[1..], line);
    }
  }

  // ------------------------------------------------------------------ runs

  /**
   What the lines say was done. slack is 1 where the code's tolerance of 0.0001 left a unit
   out: an issue whose last unit no layer gave up, or a reversed receipt of which exactly
   one unit had been consumed.
   */
  datatype Entry = Entry(inward: bool, qty: int, live: bool, slack: int, layer: nat)

  datatype Pool = Pool(rows: Table, uses: seq<Use>, book: seq<Entry>)

  datatype Event =
    | Receive(date: int, qty: int, cost: int)
    | Issue(date: int, qty: int, dir: Direction, fallback: int)
    | Reverse(line: nat)

  const EMPTY := Pool([], [], [])

  /** A line is reversed at most once, because its document is marked REVERSED. */
  predicate Legal(s: Pool, e: Event)
  {
    match e
    case Receive(_, qty, _) => 0 < qty
    case Issue(_, qty, _, _) => 0 < qty
    case Reverse(line) => line < |s.book| && s.book[line].live
  }

  function Step(s: Pool, e: Event): Pool
    requires Legal(s, e)
  {
    match e
    case Receive(date, qty, cost) =>
      Pool(AfterReceipt(s.rows, |s.book|, date, qty, cost), s.uses, s.book + [Entry(true, qty, true, 0, |s.rows|)])
    case Issue(date, qty, dir, fallback) =>
      var unmet := RowDraw(s.rows, dir, qty).unmet;
      Pool(AfterIssue(s.rows, |s.book|, date, qty, dir, fallback), UsesAfterIssue(s.rows, s.uses, |s.book|, qty, dir),
           s.book + [Entry(false, qty, true, if unmet == 1 then 1 else 0, 0)])
    case Reverse(line) => if s.book[line].inward then ReverseIn(s, line) else ReverseOut(s, line)
  }

  function ReverseIn(s: Pool, line: nat): Pool
    requires line < |s.book|
  {
    var entry := s.book[line];
    var p := FindReceipt(s.rows, line, 0);
    var slack := if p < |s.rows| && entry.qty - Remaining(s.rows[p]) == 1 then 1 else 0;
    Pool(AfterReceiptReversal(s.rows, line, entry.qty), s.uses, s.book[line := entry.(live := false, slack := slack)])
  }

  function ReverseOut(s: Pool, line: nat): Pool
    requires line < |s.book|
  {
    Pool(AfterIssueReversal(s.rows, s.uses, line), WithoutUses(s.uses, line),
         s.book[line := s.book[line].(live := false, slack := 0)])
  }

  predicate LegalRun(es: seq<Event>)
    decreases |es|, 0
  {
    es == [] || (LegalRun(es[..|es| - 1]) && Legal(Run(es[..|es| - 1]), es[|es| - 1]))
  }

  function Run(es: seq<Event>): Pool
    requires LegalRun(es)
    decreases |es|, 1
  {
    if es == [] then EMPTY else Step(Run(es[..|es| - 1]), es[|es| - 1])
  }

  /** Un-reversed received less un-reversed issued. */
  function Net(e: Entry): int
  {
    if !e.live then 0 else if e.inward then e.qty else -e.qty
  }

  function Expected(e: Entry): int { Net(e) + e.slack }

  function Expectations(book: seq<Entry>): (xs: seq<int>)
    ensures |xs| == |book|
  {
    seq(|book|, i requires 0 <= i < |book| => Expected(book[i]))
  }

  function ExpectedTotal(book: seq<Entry>): int { Sum(Expectations(book)) }

  lemma ExpectedAppend(book: seq<Entry>, e: Entry)
    ensures ExpectedTotal(book + [e]) == ExpectedTotal(book) + Expected(e)
  {
    assert Expectations(book + [e]) == Expectations(book) + [Expected(e)];
    SumAppend(Expectations(book), Expected(e));
  }

  lemma ExpectedUpdate(book: seq<Entry>, i: nat, e: Entry)
    requires i < |book|
    ensures ExpectedTotal(book[i := e]) == ExpectedTotal(book) - Expected(book[i]) + Expected(e)
  {
    assert Expectations(book[i := e]) == Expectations(book)[i := Expected(e)];
    SumUpdate(Expectations(book), i, Expected(e));
  }

  // ------------------------------------------------------------------ the invariant

  ghost predicate UsesOk(s: Pool)
  {
    && NamesReceipts(s.rows, s.uses)
    && forall u :: u in s.uses ==> 0 < u.qty && u.line < |s.book| && !s.book[u.line].inward && s.book[u.line].live
  }

  /** Row r belongs to a line: a receipt to the one inward line it was opened for, a negative layer to any. */
  predicate RowOk(s: Pool, r: nat)
    requires r < |s.rows|
  {
    s.rows[r].Some? ==>
      var l := s.rows[r].value;
      && l.line < |s.book|
      && (l.kind == Receipt ==> s.book[l.line].inward && s.book[l.line].layer == r)
      && (l.kind == Backorder ==> l.remaining < 0)
  }

  predicate ReceiptOk(s: Pool, line: nat)
    requires line < |s.book|
  {
    var e := s.book[line];
    e.inward && e.live ==>
      && e.layer < |s.rows| && ReceiptOfLine(s.rows[e.layer], line)
      && Remaining(s.rows[e.layer]) + UsedFrom(s.uses, e.layer) == e.qty && e.slack == 0
  }

  predicate IssueOk(s: Pool, line: nat)
    requires line < |s.book|
  {
    var e := s.book[line];
    !e.inward && e.live ==> UsedBy(s.uses, line) - BackorderOf(s.rows, line) == e.qty - e.slack
  }

  ghost predicate Inv(s: Pool)
  {
    && UsesOk(s)
    && (forall r :: 0 <= r < |s.rows| ==> RowOk(s, r))
    && (forall i :: 0 <= i < |s.book| ==> ReceiptOk(s, i) && IssueOk(s, i))
    && (forall i :: 0 <= i < |s.book| ==> 0 <= s.book[i].slack <= 1)
    && Total(s.rows) == ExpectedTotal(s.book)
  }

  // ------------------------------------------------------------------ a receipt

  lemma ReceiveKeepsInv(s: Pool, date: int, qty: int, cost: int)
    requires Inv(s) && 0 < qty
    ensures Inv(Step(s, Receive(date, qty, cost)))
  {
    var s' := Step(s, Receive(date, qty, cost));
    var row := Some(Layer(Receipt, |s.book|, date, qty, qty, cost));
    TotalAppend(s.rows, row);
    ExpectedAppend(s.book, s'.book[|s.book|]);
    NothingUsedFrom(s.uses, |s.rows|);
    forall i | 0 <= i < |s'.book|
      ensures ReceiptOk(s', i) && IssueOk(s', i)
    {
      if i < |s.book| {
        assert ReceiptOk(s, i) && IssueOk(s, i);
        BackorderAppend(s.rows, row, i);
      }
    }
    forall r | 0 <= r < |s'.rows|
      ensures RowOk(s', r)
    {
      if r < |s.rows| {
        assert RowOk(s, r);
      }
    }
  }

  lemma {:induction false} NothingUsedFrom(uses: seq<Use>, layer: nat)
    requires forall u :: u in uses ==> u.layer != layer
    ensures UsedFrom(uses, layer) == 0
  {
    if uses != [] {
      NothingUsedFrom(uses[1..], layer);
    }
  }

  lemma {:induction false} NothingUsedBy(uses: seq<Use>, line: nat)
    requires forall u :: u in uses ==> u.line != line
    ensures UsedBy(uses, line) == 0
  {
    if uses != [] {
      NothingUsedBy(uses[1..], line);
    }
  }

  // ------------------------------------------------------------------ an issue

  lemma {:induction false} UnmetFrom(rems: seq<int>, dir: Direction, step: nat, want: int)
    requires step <= |rems| && 0 <= want
    ensures 0 <= DrawFrom(rems, dir, step, want).unmet
    decreases |rems| - step
  {
    if step < |rems| && 1 < want {
      var p := Position(dir, |rems|, step);
      if rems[p] <= 0 {
        UnmetFrom(rems, dir, step + 1, want);
      } else {
        var take, next, rest := DrawStep(rems, dir, step, want);
        UnmetFrom(next, dir, step + 1, want - take.qty);
      }
    }
  }

  /** What the rows lose, what is recorded and what stays unmet add up, and no more is drawn than wanted. */
  lemma RowDrawTotals(t: Table, dir: Direction, qty: int)
    ensures var d := RowDraw(t, dir, qty);
      && Sum(d.left) == Total(t) - (qty - d.unmet) && TakenTotal(d.takes) == qty - d.unmet
      && (0 <= qty ==> 0 <= d.unmet)
  {
    var ids := Oldest(Dates(t));
    OldestReadsEveryRowByDate(Dates(t));
    DrawRowsTotals(Rems(t), ids, dir, qty);
    if 0 <= qty {
      UnmetFrom(Picked(Rems(t), ids), dir, 0, qty);
    }
  }

  lemma RowDrawAt(t: Table, dir: Direction, qty: int, r: nat)
    requires r < |t|
    ensures var d := RowDraw(t, dir, qty);
      && TakenFrom(d.takes, r) == Remaining(t[r]) - d.left[r]
      && if Remaining(t[r]) <= 0 then d.left[r] == Remaining(t[r]) else 0 <= d.left[r] <= Remaining(t[r])
  {
    OldestReadsEveryRowByDate(Dates(t));
    DrawRowsAt(Rems(t), Oldest(Dates(t)), dir, qty, r);
  }

  /** After the draw and before any negative layer: only stock moves, and only out of receipts. */
  lemma DrawnRows(s: Pool, qty: int, dir: Direction)
    requires Inv(s)
    ensures var d := RowDraw(s.rows, dir, qty);
      var t := WithRems(s.rows, d.left);
      && Rems(t) == d.left
      && (forall i :: 0 <= i < |t| && s.rows[i].Some? && s.rows[i].value.kind == Backorder ==> t[i] == s.rows[i])
  {
    var d := RowDraw(s.rows, dir, qty);
    forall i | 0 <= i < |s.rows|
      ensures Remaining(WithRems(s.rows, d.left)[i]) == d.left[i]
      ensures s.rows[i].Some? && s.rows[i].value.kind == Backorder ==>
        WithRems(s.rows, d.left)[i] == s.rows[i]
    {
      RowDrawAt(s.rows, dir, qty, i);
      assert RowOk(s, i);
    }
  }

  /** An issue with its line booked but the negative layer, if any, not yet written. */
  function Drawn(s: Pool, qty: int, dir: Direction): Pool
  {
    var unmet := RowDraw(s.rows, dir, qty).unmet;
    Pool(WithRems(s.rows, RowDraw(s.rows, dir, qty).left), UsesAfterIssue(s.rows, s.uses, |s.book|, qty, dir),
         s.book + [Entry(false, qty, true, if unmet == 1 then 1 else 0, 0)])
  }

  lemma DrawnUses(s: Pool, qty: int, dir: Direction)
    requires Inv(s) && 0 < qty
    ensures UsesOk(Drawn(s, qty, dir))
  {
    var s' := Drawn(s, qty, dir);
    var d := RowDraw(s.rows, dir, qty);
    UsesOfTakes(|s.book|, d.takes, 0, 0);
    forall k | 0 <= k < |d.takes|
      ensures var t := d.takes[k];
        t.layer < |s.rows| && 0 < t.qty && s.rows[t.layer].Some? && s.rows[t.layer].value.kind == Receipt
    {
      RowTakesNameStock(Rems(s.rows), Oldest(Dates(s.rows)), dir, qty, k);
      assert RowOk(s, d.takes[k].layer);
    }
    forall u | u in s'.uses
      ensures u.layer < |s.rows| && s.rows[u.layer].Some?
        && s.rows[u.layer].value.kind == Receipt
      ensures 0 < u.qty && u.line < |s'.book| && !s'.book[u.line].inward
        && s'.book[u.line].live
    {
      if u !in s.uses {
        assert u in UsesOf(|s.book|, d.takes);
      }
    }
  }

  lemma DrawnReceipt(s: Pool, qty: int, dir: Direction, line: nat)
    requires Inv(s) && line < |s.book|
    ensures ReceiptOk(Drawn(s, qty, dir), line)
  {
    assert ReceiptOk(s, line);
    var e := s.book[line];
    if e.inward && e.live {
      var d := RowDraw(s.rows, dir, qty);
      RowDrawAt(s.rows, dir, qty, e.layer);
      UsesOfTakes(|s.book|, d.takes, line, e.layer);
      UsesConcat(s.uses, UsesOf(|s.book|, d.takes), line, e.layer);
    }
  }

  /** The lines already booked keep what they drew; the new one drew what was met. */
  lemma DrawnIssues(s: Pool, qty: int, dir: Direction, line: nat)
    requires Inv(s) && line <= |s.book|
    ensures var s' := Drawn(s, qty, dir);
      if line < |s.book| then IssueOk(s', line)
      else UsedBy(s'.uses, line) == qty - RowDraw(s.rows, dir, qty).unmet && BackorderOf(s'.rows, line) == 0
  {
    var s' := Drawn(s, qty, dir);
    var d := RowDraw(s.rows, dir, qty);
    UsesOfTakes(|s.book|, d.takes, line, 0);
    UsesConcat(s.uses, UsesOf(|s.book|, d.takes), line, 0);
    DrawnRows(s, qty, dir);
    if line < |s.book| {
      assert IssueOk(s, line);
      BackorderSame(s.rows, s'.rows, line);
    } else {
      RowDrawTotals(s.rows, dir, qty);
      NothingUsedBy(s.uses, line);
      forall i | 0 <= i < |s'.rows|
        ensures BackorderPart(s'.rows[i], line) == 0
      {
        assert RowOk(s, i);
      }
      BackorderAbsent(s'.rows, line);
    }
  }

  lemma DrawnRowsOk(s: Pool, qty: int, dir: Direction, r: nat)
    requires Inv(s) && r < |s.rows|
    ensures RowOk(Drawn(s, qty, dir), r)
  {
    assert RowOk(s, r);
    DrawnRows(s, qty, dir);
  }

  lemma IssueKeepsRows(s: Pool, date: int, qty: int, dir: Direction, fallback: int)
    requires Inv(s) && 0 < qty
    ensures var s' := Step(s, Issue(date, qty, dir, fallback));
      UsesOk(s') && forall r :: 0 <= r < |s'.rows| ==> RowOk(s', r)
  {
    var mid, s' := Drawn(s, qty, dir), Step(s, Issue(date, qty, dir, fallback));
    DrawnUses(s, qty, dir);
    forall r | 0 <= r < |s'.rows|
      ensures RowOk(s', r)
    {
      if r < |s.rows| {
        DrawnRowsOk(s, qty, dir, r);
      }
    }
  }

  lemma IssueKeepsLines(s: Pool, date: int, qty: int, dir: Direction, fallback: int, line: nat)
    requires Inv(s) && 0 < qty && line <= |s.book|
    ensures var s' := Step(s, Issue(date, qty, dir, fallback));
      ReceiptOk(s', line) && IssueOk(s', line)
  {
    var mid, s' := Drawn(s, qty, dir), Step(s, Issue(date, qty, dir, fallback));
    var unmet := RowDraw(s.rows, dir, qty).unmet;
    DrawnIssues(s, qty, dir, line);
    RowDrawTotals(s.rows, dir, qty);
    if line < |s.book| {
      DrawnReceipt(s, qty, dir, line);
    }
    if 1 < unmet {
      BackorderAppend(mid.rows, BackorderRow(|s.book|, date, unmet, ShortfallCost(s.rows, fallback)), line);
    } else {
      assert mid.rows + [] == mid.rows;
    }
  }

  lemma IssueKeepsTotal(s: Pool, date: int, qty: int, dir: Direction, fallback: int)
    requires Inv(s) && 0 < qty
    ensures var s' := Step(s, Issue(date, qty, dir, fallback));
      Total(s'.rows) == ExpectedTotal(s'.book)
  {
    var mid, s' := Drawn(s, qty, dir), Step(s, Issue(date, qty, dir, fallback));
    var unmet := RowDraw(s.rows, dir, qty).unmet;
    DrawnRows(s, qty, dir);
    RowDrawTotals(s.rows, dir, qty);
    ExpectedAppend(s.book, s'.book[|s.book|]);
    if 1 < unmet {
      TotalAppend(mid.rows, BackorderRow(|s.book|, date, unmet, ShortfallCost(s.rows, fallback)));
    } else {
      assert mid.rows + [] == mid.rows;
    }
  }

  lemma IssueKeepsInv(s: Pool, date: int, qty: int, dir: Direction, fallback: int)
    requires Inv(s) && 0 < qty
    ensures Inv(Step(s, Issue(date, qty, dir, fallback)))
  {
    IssueKeepsRows(s, date, qty, dir, fallback);
    IssueKeepsTotal(s, date, qty, dir, fallback);
    forall i | 0 <= i <= |s.book| {
      IssueKeepsLines(s, date, qty, dir, fallback, i);
    }
  }

  // ------------------------------------------------------------------ reversing an issue

  lemma ReverseOutRows(s: Pool, line: nat, r: nat)
    requires Inv(s) && line < |s.book| && r < |s.rows|
    ensures var t := ReverseOut(s, line).rows;
      && t[r] == (if BackorderOfLine(s.rows[r], line) then None
                  else SetRemaining(s.rows[r], Remaining(s.rows[r]) + Used(s.uses, line, r)))
      && (s.rows[r].Some? && s.rows[r].value.kind == Backorder && s.rows[r].value.line != line ==> t[r] == s.rows[r])
  {
    GiveBackAt(s.rows, s.uses, line, r);
    if s.rows[r].Some? && s.rows[r].value.kind == Backorder {
      NotUsed(s.uses, line, r);
    }
  }

  lemma {:induction false} NotUsed(uses: seq<Use>, line: nat, layer: nat)
    requires forall u :: u in uses ==> u.layer != layer
    ensures Used(uses, line, layer) == 0
  {
    if uses != [] {
      NotUsed(uses[1..], line, layer);
    }
  }

  lemma ReverseOutLines(s: Pool, line: nat, i: nat)
    requires Inv(s) && line < |s.book| && !s.book[line].inward && s.book[line].live && i < |s.book|
    ensures var s' := ReverseOut(s, line); ReceiptOk(s', i) && IssueOk(s', i)
  {
    var s' := ReverseOut(s, line);
    assert ReceiptOk(s, i) && IssueOk(s, i);
    if i != line {
      WithoutUsesSums(s.uses, line, i, s.book[i].layer);
      if s.book[i].inward && s.book[i].live {
        ReverseOutRows(s, line, s.book[i].layer);
      }
      OtherBackordersStay(s, line, i);
    }
  }

  lemma OtherBackordersStay(s: Pool, line: nat, i: nat)
    requires Inv(s) && line < |s.book| && i != line
    ensures BackorderOf(ReverseOut(s, line).rows, i) == BackorderOf(s.rows, i)
  {
    var t := ReverseOut(s, line).rows;
    forall r | 0 <= r < |s.rows|
      ensures BackorderPart(s.rows[r], i) == BackorderPart(t[r], i)
    {
      ReverseOutRows(s, line, r);
    }
    BackorderSame(s.rows, t, i);
  }

  lemma ReverseOutTotal(s: Pool, line: nat)
    requires Inv(s) && line < |s.book| && !s.book[line].inward && s.book[line].live
    ensures var s' := ReverseOut(s, line);
      Total(s'.rows) == Total(s.rows) + s.book[line].qty - s.book[line].slack
        && Total(s'.rows) == ExpectedTotal(s'.book)
  {
    var back := GiveBack(s.rows, s.uses, line);
    GiveBackTotal(s.rows, s.uses, line);
    DropTotal(back, line);
    forall r | 0 <= r < |s.rows|
      ensures BackorderPart(s.rows[r], line) == BackorderPart(back[r], line)
    {
      GiveBackAt(s.rows, s.uses, line, r);
      if BackorderOfLine(s.rows[r], line) {
        NotUsed(s.uses, line, r);
      }
    }
    BackorderSame(s.rows, back, line);
    assert IssueOk(s, line);
    ExpectedUpdate(s.book, line, s.book[line].(live := false, slack := 0));
  }

  lemma ReverseOutKeepsInv(s: Pool, line: nat)
    requires Inv(s) && line < |s.book| && !s.book[line].inward && s.book[line].live
    ensures Inv(ReverseOut(s, line))
  {
    var s' := ReverseOut(s, line);
    ReverseOutTotal(s, line);
    WithoutUsesSums(s.uses, line, 0, 0);
    forall i | 0 <= i < |s.book| {
      ReverseOutLines(s, line, i);
    }
    forall r | 0 <= r < |s.rows|
      ensures RowOk(s', r)
      ensures s.rows[r].Some? && s.rows[r].value.kind == Receipt ==>
        s'.rows[r].Some? && s'.rows[r].value.kind == Receipt
    {
      assert RowOk(s, r);
      ReverseOutRows(s, line, r);
    }
  }

  // ------------------------------------------------------------------ reversing a receipt

  lemma {:induction false} FoundReceipt(s: Pool, line: nat, from: nat)
    requires Inv(s) && line < |s.book| && s.book[line].inward && s.book[line].live && from <= s.book[line].layer
    ensures ReceiptOk(s, line) && FindReceipt(s.rows, line, from) == s.book[line].layer
    decreases |s.rows| - from
  {
    assert ReceiptOk(s, line);
    if from < s.book[line].layer {
      assert RowOk(s, from);
      FoundReceipt(s, line, from + 1);
    }
  }

  /** The receipt's row and the entry after its reversal; consumed is what issues had drawn from it. */
  lemma ReverseInShape(s: Pool, line: nat)
    requires Inv(s) && line < |s.book| && s.book[line].inward && s.book[line].live
    ensures ReceiptOk(s, line)
    ensures var e := s.book[line];
      var consumed := UsedFrom(s.uses, e.layer);
      var row := s.rows[e.layer];
      && 0 <= consumed
      && ReverseIn(s, line) == Pool(
           s.rows[e.layer := SetRemaining(row, 0)]
             + (if 1 < consumed then [BackorderRow(line, row.value.date, consumed, row.value.cost)] else []),
           s.uses, s.book[line := e.(live := false, slack := if consumed == 1 then 1 else 0)])
  {
    FoundReceipt(s, line, 0);
    UsedIsNonNegative(s.uses, line, s.book[line].layer);
  }

  lemma ReverseInTotal(s: Pool, line: nat)
    requires Inv(s) && line < |s.book| && s.book[line].inward && s.book[line].live
    ensures var s' := ReverseIn(s, line); Total(s'.rows) == ExpectedTotal(s'.book)
    ensures Total(ReverseIn(s, line).rows) ==
      Total(s.rows) - s.book[line].qty + if UsedFrom(s.uses, s.book[line].layer) == 1 then 1 else 0
  {
    ReverseInShape(s, line);
    var e := s.book[line];
    var consumed := UsedFrom(s.uses, e.layer);
    var t := s.rows[e.layer := SetRemaining(s.rows[e.layer], 0)];
    TotalUpdate(s.rows, e.layer, SetRemaining(s.rows[e.layer], 0));
    TotalAppend(t, BackorderRow(line, s.rows[e.layer].value.date, consumed, s.rows[e.layer].value.cost));
    assert t + [] == t;
    ExpectedUpdate(s.book, line, e.(live := false, slack := if consumed == 1 then 1 else 0));
  }

  lemma ReverseInLines(s: Pool, line: nat, i: nat)
    requires Inv(s) && line < |s.book| && s.book[line].inward && s.book[line].live && i < |s.book|
    ensures var s' := ReverseIn(s, line); ReceiptOk(s', i) && IssueOk(s', i)
  {
    var s' := ReverseIn(s, line);
    ReverseInShape(s, line);
    assert ReceiptOk(s, i) && IssueOk(s, i);
    if i != line {
      var e := s.book[line];
      var t := s.rows[e.layer := SetRemaining(s.rows[e.layer], 0)];
      BackorderSame(s.rows, t, i);
      var l := s.rows[e.layer].value;
      BackorderAppend(t, BackorderRow(line, l.date, UsedFrom(s.uses, e.layer), l.cost), i);
      assert t + [] == t;
    }
  }

  lemma ReverseInKeepsInv(s: Pool, line: nat)
    requires Inv(s) && line < |s.book| && s.book[line].inward && s.book[line].live
    ensures Inv(ReverseIn(s, line))
  {
    var s' := ReverseIn(s, line);
    ReverseInShape(s, line);
    ReverseInTotal(s, line);
    forall i | 0 <= i < |s.book| {
      ReverseInLines(s, line, i);
    }
    forall r | 0 <= r < |s'.rows|
      ensures RowOk(s', r)
    {
      if r < |s.rows| {
        assert RowOk(s, r);
      }
    }
  }

  // ------------------------------------------------------------------ conservation over runs

  lemma StepKeepsInv(s: Pool, e: Event)
    requires Inv(s) && Legal(s, e)
    ensures Inv(Step(s, e))
  {
    match e {
      case Receive(date, qty, cost) => ReceiveKeepsInv(s, date, qty, cost);
      case Issue(date, qty, dir, fallback) => IssueKeepsInv(s, date, qty, dir, fallback);
      case Reverse(line) =>
        if s.book[line].inward {
          ReverseInKeepsInv(s, line);
        } else {
          ReverseOutKeepsInv(s, line);
        }
    }
  }

  lemma {:induction false} RunKeepsInv(es: seq<Event>)
    requires LegalRun(es)
    ensures Inv(Run(es))
  {
    if es != [] {
      RunKeepsInv(es[..|es| - 1]);
      StepKeepsInv(Run(es[..|es| - 1]), es[|es| - 1]);
    }
  }

  function NetTotal(book: seq<Entry>): int
  {
    if book == [] then 0 else Net(book[0]) + NetTotal(book[1..])
  }

  /** One for each line at which the tolerance left a unit out. */
  function SlackTotal(book: seq<Entry>): int
  {
    if book == [] then 0 else book[0].slack + SlackTotal(book[1..])
  }

  lemma {:induction false} ExpectedIsNetPlusSlack(book: seq<Entry>)
    requires forall i :: 0 <= i < |book| ==> 0 <= book[i].slack <= 1
    ensures ExpectedTotal(book) == NetTotal(book) + SlackTotal(book)
    ensures 0 <= SlackTotal(book) <= |book|
  {
    if book != [] {
      ExpectedIsNetPlusSlack(book[1..]);
      assert Expectations(book)[1..] == Expectations(book[1..]);
    }
  }

  /** What the layers hold is what the lines say, plus exactly the units the tolerance left out. */
  lemma RunConservesThePool(es: seq<Event>)
    requires LegalRun(es)
    ensures var s := Run(es);
      && Total(s.rows) == NetTotal(s.book) + SlackTotal(s.book)
      && 0 <= SlackTotal(s.book) <= |s.book|
  {
    RunKeepsInv(es);
    ExpectedIsNetPlusSlack(Run(es).book);
  }

  // ------------------------------------------------------------------ the order of two reversals

  ghost predicate OnePair(s: Pool, receipt: nat, issue: nat)
  {
    && receipt < |s.book| && issue < |s.book|
    && s.book[receipt].inward && s.book[receipt].live && !s.book[issue].inward && s.book[issue].live
  }

  /**
   A receipt and an issue reversed in either order leave the same quantity exactly when the
   tolerance treats what the issue drew the same way in both: the issue drew nothing from
   the receipt, or neither the other issues alone nor all of them together drew one unit.
   */
  lemma ReversalOrder(s: Pool, receipt: nat, issue: nat)
    requires Inv(s) && OnePair(s, receipt, issue)
    ensures var drew := Used(s.uses, issue, s.book[receipt].layer);
      var others := UsedFrom(s.uses, s.book[receipt].layer) - drew;
      Total(ReverseIn(ReverseOut(s, issue), receipt).rows) == Total(ReverseOut(ReverseIn(s, receipt), issue).rows)
      <==> (drew == 0 || (others != 1 && drew + others != 1))
  {
    var layer := s.book[receipt].layer;
    ReverseOutKeepsInv(s, issue);
    ReverseOutTotal(s, issue);
    ReverseInTotal(ReverseOut(s, issue), receipt);
    WithoutUsesSums(s.uses, issue, 0, layer);
    ReverseInKeepsInv(s, receipt);
    ReverseInTotal(s, receipt);
    ReverseInShape(s, receipt);
    ReverseOutTotal(ReverseIn(s, receipt), issue);
    UsedIsNonNegative(s.uses, issue, layer);
  }

  /** Two receipts of one unit on two dates, and an issue of both. */
  const TWO_UNITS := [Receive(1, 1, 5), Receive(2, 1, 5), Issue(3, 2, Fifo, 0)]

  function Unit(line: nat, date: int, left: int): Option<Layer> { Some(Layer(Receipt, line, date, 1, left, 5)) }

  lemma Then(es: seq<Event>, s: Pool, e: Event, s': Pool)
    requires LegalRun(es) && s == Run(es) && Legal(s, e) && s' == Step(s, e)
    ensures LegalRun(es + [e]) && Run(es + [e]) == s'
  {
    assert (es + [e])[..|es|] == es;
  }

  lemma OldestOfTwo()
    ensures Oldest([1, 2]) == [0, 1]
  {
    assert Oldest([1]) == [0];
    assert [1, 2][..1] == [1] && Picked([1, 2], [0]) == [1];
  }

  lemma DrawTwo()
    ensures DrawRows([1, 1], [0, 1], Fifo, 2) == Draw([0, 1], 1, [Take(0, 1)])
  {
    assert Picked([1, 1], [0, 1]) == [1, 1];
    assert DrawFrom([0, 1], Fifo, 1, 1) == Draw([0, 1], 1, []);
    assert DrawFrom([1, 1], Fifo, 0, 2) == Draw([0, 1], 1, [Take(0, 1)]);
    assert [0, 1][..1] == [0] && Scatter([1, 1], [0], [0]) == [0, 1];
  }

  lemma IssueOfTwo(s: Pool, s': Pool)
    requires s == Pool([Unit(0, 1, 1), Unit(1, 2, 1)], [], [Entry(true, 1, true, 0, 0), Entry(true, 1, true, 0, 1)])
    requires s' == Pool([Unit(0, 1, 0), Unit(1, 2, 1)], [Use(2, 0, 1)], s.book + [Entry(false, 2, true, 1, 0)])
    ensures Step(s, Issue(3, 2, Fifo, 0)) == s'
  {
    OldestOfTwo();
    DrawTwo();
    assert Dates(s.rows) == [1, 2] && Rems(s.rows) == [1, 1];
    assert WithRems(s.rows, [0, 1]) == s'.rows;
    assert s'.rows + [] == s'.rows;
    assert UsesOf(2, [Take(0, 1)]) == [Use(2, 0, 1)];
  }

  lemma TwoUnitsRun(s: Pool)
    requires s == Pool([Unit(0, 1, 0), Unit(1, 2, 1)], [Use(2, 0, 1)],
                       [Entry(true, 1, true, 0, 0), Entry(true, 1, true, 0, 1), Entry(false, 2, true, 1, 0)])
    ensures LegalRun(TWO_UNITS) && Run(TWO_UNITS) == s
  {
    var s1 := Pool([Unit(0, 1, 1)], [], [Entry(true, 1, true, 0, 0)]);
    var s2 := Pool([Unit(0, 1, 1), Unit(1, 2, 1)], [], [Entry(true, 1, true, 0, 0), Entry(true, 1, true, 0, 1)]);
    Then([], EMPTY, Receive(1, 1, 5), s1);
    Then([Receive(1, 1, 5)], s1, Receive(2, 1, 5), s2);
    IssueOfTwo(s2, s);
    Then([Receive(1, 1, 5), Receive(2, 1, 5)], s2, Issue(3, 2, Fifo, 0), s);
    assert TWO_UNITS == [Receive(1, 1, 5), Receive(2, 1, 5)] + [Issue(3, 2, Fifo, 0)];
  }

  /**
   The issue leaves its last unit undrawn; the order of the two reversals then decides whether
   a unit is left over.
   */
  lemma ReversalOrderMatters()
    ensures LegalRun(TWO_UNITS) && OnePair(Run(TWO_UNITS), 0, 2)
    ensures var s := Run(TWO_UNITS);
      Total(ReverseIn(ReverseOut(s, 2), 0).rows) != Total(ReverseOut(ReverseIn(s, 0), 2).rows)
  {
    var s := Pool([Unit(0, 1, 0), Unit(1, 2, 1)], [Use(2, 0, 1)],
                  [Entry(true, 1, true, 0, 0), Entry(true, 1, true, 0, 1), Entry(false, 2, true, 1, 0)]);
    TwoUnitsRun(s);
    RunKeepsInv(TWO_UNITS);
    assert Used(s.uses, 2, 0) == 1 && UsedFrom(s.uses, 0) == 1;
    ReversalOrder(s, 0, 2);
  }

  /** Remaining stock at what each row costs above c. */
  function Above(t: Table, c: int): (ws: seq<int>)
    ensures |ws| == |t|
  {
    seq(|t|, i requires 0 <= i < |t| => Remaining(t[i]) * (Cost(t[i]) - c))
  }

  lemma {:induction false} SumAbove(t: Table, c: int)
    ensures Sum(Above(t, c)) == Value(t) - c * Total(t)
  {
    if t != [] {
      SumAbove(t[1..], c);
      assert Above(t, c)[1..] == Above(t[1..], c);
      assert Values(t)[1..] == Values(t[1..]);
      assert Rems(t)[1..] == Rems(t[1..]);
      MulDistributes(Cost(t[0]), -c, Remaining(t[0]));
      MulDistributes(Remaining(t[0]), Total(t[1..]), c);
    }
  }

  lemma SumWithZeroTail(a: seq<int>, b: seq<int>, n: nat)
    requires n <= |a| && n <= |b| && forall i :: 0 <= i < n ==> a[i] == b[i]
    requires (forall i :: n <= i < |a| ==> a[i] == 0) && (forall i :: n <= i < |b| ==> b[i] == 0)
    ensures Sum(a) == Sum(b)
  {
    assert a[..n] == b[..n];
    SumSplit(a, n);
    SumSplit(b, n);
    SumZero(a[n..]);
    SumZero(b[n..]);
  }

  /** The issue first: the receipt's row ends empty, and only rows at its cost are added. */
  lemma OutThenIn(s: Pool, receipt: nat, issue: nat, r: nat)
    requires Inv(s) && OnePair(s, receipt, issue)
    ensures ReceiptOk(s, receipt)
    ensures var out, a := ReverseOut(s, issue).rows, ReverseIn(ReverseOut(s, issue), receipt).rows;
      && |s.rows| <= |a|
      && (r < |s.rows| && r != s.book[receipt].layer ==> a[r] == out[r])
      && (r == s.book[receipt].layer ==> Remaining(a[r]) == 0)
      && (|s.rows| <= r < |a| ==> Cost(a[r]) == Cost(s.rows[s.book[receipt].layer]))
  {
    assert ReceiptOk(s, receipt);
    ReverseOutKeepsInv(s, issue);
    ReverseInShape(ReverseOut(s, issue), receipt);
    ReverseOutRows(s, issue, s.book[receipt].layer);
  }

  /** The receipt first: every row of the table before it goes through the issue's reversal alone. */
  lemma InThenOut(s: Pool, receipt: nat, issue: nat, r: nat)
    requires Inv(s) && OnePair(s, receipt, issue)
    ensures ReceiptOk(s, receipt)
    ensures var out, b := ReverseOut(s, issue).rows, ReverseOut(ReverseIn(s, receipt), issue).rows;
      && |s.rows| <= |b|
      && (r < |s.rows| && r != s.book[receipt].layer ==> b[r] == out[r])
      && (r == s.book[receipt].layer || |s.rows| <= r < |b| ==> Cost(b[r]) == Cost(s.rows[s.book[receipt].layer]))
  {
    assert ReceiptOk(s, receipt);
    ReverseInKeepsInv(s, receipt);
    ReverseInShape(s, receipt);
    var mid := ReverseIn(s, receipt);
    if r < |mid.rows| {
      ReverseOutRows(mid, issue, r);
    }
    if r < |s.rows| {
      ReverseOutRows(s, issue, r);
    }
  }

  /** A row that adds nothing to the value above c. */
  predicate Neutral(row: Option<Layer>, c: int) { Cost(row) == c || Remaining(row) == 0 }

  predicate AlikeRow(a: Table, b: Table, n: nat, c: int, r: nat)
    requires n <= |a| && n <= |b|
  {
    && (r < n ==> a[r] == b[r] || (Neutral(a[r], c) && Neutral(b[r], c)))
    && (n <= r < |a| ==> Neutral(a[r], c))
    && (n <= r < |b| ==> Neutral(b[r], c))
  }

  lemma AlikeTables(a: Table, b: Table, n: nat, c: int)
    requires n <= |a| && n <= |b| && forall r: nat :: AlikeRow(a, b, n, c, r)
    ensures Sum(Above(a, c)) == Sum(Above(b, c))
  {
    var x, y := Above(a, c), Above(b, c);
    forall r: nat
      ensures r < n ==> x[r] == y[r]
      ensures n <= r < |a| ==> x[r] == 0
      ensures n <= r < |b| ==> y[r] == 0
    {
      assert AlikeRow(a, b, n, c, r);
    }
    SumWithZeroTail(x, y, n);
  }

  lemma OrdersAlikeAt(s: Pool, receipt: nat, issue: nat, r: nat)
    requires Inv(s) && OnePair(s, receipt, issue)
    ensures ReceiptOk(s, receipt)
    ensures var a, b := ReverseIn(ReverseOut(s, issue), receipt).rows, ReverseOut(ReverseIn(s, receipt), issue).rows;
      && |s.rows| <= |a| && |s.rows| <= |b|
      && AlikeRow(a, b, |s.rows|, Cost(s.rows[s.book[receipt].layer]), r)
  {
    OutThenIn(s, receipt, issue, r);
    InThenOut(s, receipt, issue, r);
  }

  /** The values the two orders leave differ by the difference in quantity, at the receipt's cost. */
  lemma ReversalOrderValue(s: Pool, receipt: nat, issue: nat)
    requires Inv(s) && OnePair(s, receipt, issue)
    ensures ReceiptOk(s, receipt)
    ensures var a, b := ReverseIn(ReverseOut(s, issue), receipt).rows, ReverseOut(ReverseIn(s, receipt), issue).rows;
      Value(a) - Value(b) == Cost(s.rows[s.book[receipt].layer]) * (Total(a) - Total(b))
  {
    assert ReceiptOk(s, receipt);
    var c := Cost(s.rows[s.book[receipt].layer]);
    var a, b := ReverseIn(ReverseOut(s, issue), receipt).rows, ReverseOut(ReverseIn(s, receipt), issue).rows;
    forall r: nat {
      OrdersAlikeAt(s, receipt, issue, r);
    }
    AlikeTables(a, b, |s.rows|, c);
    SumAbove(a, c);
    SumAbove(b, c);
    MulDistributes(Total(a), -Total(b), c);
  }
}
