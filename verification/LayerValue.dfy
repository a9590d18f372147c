/** What the layer table is worth over runs: every issue leaves at what it costs, and comes back at it. */
module LayerValue {
  import opened Outcomes
  import opened FixedPoint
  import opened CostLayers
  import opened LayerOrder
  import opened LayerReversal
  import opened LayerPool

  // ------------------------------------------------------------------ what an issue costs

  /** What each row gives up, at its cost. */
  function Given(t: Table, takes: seq<Take>): (gs: seq<int>)
    ensures |gs| == |t|
  {
    seq(|t|, r requires 0 <= r < |t| => TakenFrom(takes, r) * Cost(t[r]))
  }

  lemma {:induction false} GivenIsTakesCost(t: Table, takes: seq<Take>)
    requires TakesWithin(takes, |t|)
    ensures Sum(Given(t, takes)) == TakesCost(t, takes)
  {
    if takes == [] {
      SumZero(Given(t, takes));
    } else {
      var r, rest := takes[0].layer, takes[1..];
      GivenIsTakesCost(t, rest);
      var next := (takes[0].qty + TakenFrom(rest, r)) * Cost(t[r]);
      assert Given(t, takes) == Given(t, rest)[r := next];
      SumUpdate(Given(t, rest), r, next);
      MulDistributes(takes[0].qty, TakenFrom(rest, r), Cost(t[r]));
    }
  }

  lemma ValueAppend(t: Table, row: Option<Layer>)
    ensures Value(t + [row]) == Value(t) + Remaining(row) * Cost(row)
  {
    assert Values(t + [row]) == Values(t) + [Remaining(row) * Cost(row)];
    SumAppend(Values(t), Remaining(row) * Cost(row));
  }

  lemma LeftValue(row: Option<Layer>, left: int, given: int)
    requires left == Remaining(row) - given && (row.None? ==> left == 0)
    ensures Remaining(SetRemaining(row, left)) * Cost(SetRemaining(row, left))
      == Remaining(row) * Cost(row) - given * Cost(row)
  {
    MulDistributes(Remaining(row), -given, Cost(row));
  }

  lemma LeftValues(t: Table, left: seq<int>, takes: seq<Take>)
    requires |left| == |t| && forall r :: 0 <= r < |t| ==> left[r] == Remaining(t[r]) - TakenFrom(takes, r)
    requires forall r :: 0 <= r < |t| && t[r].None? ==> left[r] == 0
    ensures Value(WithRems(t, left)) == Value(t) - Sum(Given(t, takes))
  {
    forall r | 0 <= r < |t|
      ensures Values(WithRems(t, left))[r] == Values(t)[r] - Given(t, takes)[r]
    {
      LeftValue(t[r], left[r], TakenFrom(takes, r));
    }
    SumOfDifferences(Values(t), Given(t, takes), Values(WithRems(t, left)));
  }

  lemma DrawnValue(t: Table, dir: Direction, qty: int)
    ensures var d := RowDraw(t, dir, qty);
      TakesWithin(d.takes, |t|) && Value(WithRems(t, d.left)) == Value(t) - TakesCost(t, d.takes)
  {
    var d := RowDraw(t, dir, qty);
    RowTakesWithin(Rems(t), Oldest(Dates(t)), dir, qty);
    forall r | 0 <= r < |t|
      ensures d.left[r] == Remaining(t[r]) - TakenFrom(d.takes, r)
      ensures t[r].None? ==> d.left[r] == 0
    {
      RowDrawAt(t, dir, qty, r);
    }
    LeftValues(t, d.left, d.takes);
    GivenIsTakesCost(t, d.takes);
  }

  /** An issue costs exactly what the table's value loses, the negative layer included. */
  lemma IssueCostsWhatTheTableLoses(t: Table, line: nat, date: int, qty: int, dir: Direction, fallback: int)
    ensures IssueCost(t, qty, dir, fallback) == Value(t) - Value(AfterIssue(t, line, date, qty, dir, fallback))
  {
    var d := RowDraw(t, dir, qty);
    DrawnValue(t, dir, qty);
    BackorderValue(WithRems(t, d.left), line, date, d.unmet, ShortfallCost(t, fallback));
  }

  lemma BackorderValue(t: Table, line: nat, date: int, unmet: int, cost: int)
    ensures Value(t + if 1 < unmet then [BackorderRow(line, date, unmet, cost)] else [])
      == Value(t) - if 1 < unmet then unmet * cost else 0
  {
    ValueAppend(t, BackorderRow(line, date, unmet, cost));
    assert t + [] == t;
  }

  // ------------------------------------------------------------------ what the lines say the table is worth

  /** What each line of the run was booked at: a receipt its unit cost, an issue what it cost in all. */
  function Costs(es: seq<Event>): (cs: seq<int>)
    requires LegalRun(es)
  {
    if es == [] then []
    else
      var before, last := es[..|es| - 1], es[|es| - 1];
      match last
      case Receive(_, _, cost) => Costs(before) + [cost]
      case Issue(_, qty, dir, fallback) => Costs(before) + [IssueCost(Run(before).rows, qty, dir, fallback)]
      case Reverse(_) => Costs(before)
  }

  /**
   A receipt adds its quantity at its cost, reversed only the unit the tolerance kept; a
   standing issue takes its cost.
   */
  function Worth(e: Entry, cost: int): int
  {
    if e.inward then (if e.live then e.qty else e.slack) * cost else if e.live then -cost else 0
  }

  function Worths(book: seq<Entry>, cs: seq<int>): (ws: seq<int>)
    requires |book| == |cs|
    ensures |ws| == |book|
  {
    seq(|book|, i requires 0 <= i < |book| => Worth(book[i], cs[i]))
  }

  lemma WorthAppend(book: seq<Entry>, cs: seq<int>, e: Entry, cost: int)
    requires |book| == |cs|
    ensures Sum(Worths(book + [e], cs + [cost])) == Sum(Worths(book, cs)) + Worth(e, cost)
  {
    assert Worths(book + [e], cs + [cost]) == Worths(book, cs) + [Worth(e, cost)];
    SumAppend(Worths(book, cs), Worth(e, cost));
  }

  lemma WorthUpdate(book: seq<Entry>, cs: seq<int>, i: nat, e: Entry)
    requires |book| == |cs| && i < |book|
    ensures Sum(Worths(book[i := e], cs)) == Sum(Worths(book, cs)) - Worth(book[i], cs[i]) + Worth(e, cs[i])
  {
    assert Worths(book[i := e], cs) == Worths(book, cs)[i := Worth(e, cs[i])];
    SumUpdate(Worths(book, cs), i, Worth(e, cs[i]));
  }

  // ------------------------------------------------------------------ what a line drew and what it was short, at cost

  function UsesCost(t: Table, uses: seq<Use>, line: nat): int
  {
    if uses == [] then 0
    else
      (if uses[0].line == line && uses[0].layer < |t| then uses[0].qty * Cost(t[uses[0].layer]) else 0)
      + UsesCost(t, uses[1..], line)
  }

  function ShortValue(row: Option<Layer>, line: nat): int
  {
    if BackorderOfLine(row, line) then Remaining(row) * Cost(row) else 0
  }

  function ShortValues(t: Table, line: nat): (vs: seq<int>)
    ensures |vs| == |t|
  {
    seq(|t|, r requires 0 <= r < |t| => ShortValue(t[r], line))
  }

  function ShortCost(t: Table, line: nat): int { Sum(ShortValues(t, line)) }

  lemma ShortAppend(t: Table, row: Option<Layer>, line: nat)
    ensures ShortCost(t + [row], line) == ShortCost(t, line) + ShortValue(row, line)
  {
    assert ShortValues(t + [row], line) == ShortValues(t, line) + [ShortValue(row, line)];
    SumAppend(ShortValues(t, line), ShortValue(row, line));
  }

  lemma ShortSame(t: Table, u: Table, line: nat)
    requires |t| == |u| && forall r :: 0 <= r < |t| ==> ShortValue(t[r], line) == ShortValue(u[r], line)
    ensures ShortCost(t, line) == ShortCost(u, line)
  {
    assert ShortValues(t, line) == ShortValues(u, line);
  }

  /** The costs of the rows the consumption names are the same in both tables. */
  ghost predicate SameCosts(t: Table, u: Table, uses: seq<Use>)
  {
    forall x :: x in uses ==> x.layer < |t| && x.layer < |u| && Cost(t[x.layer]) == Cost(u[x.layer])
  }

  lemma {:induction false} UsesCostSame(t: Table, u: Table, uses: seq<Use>, line: nat)
    requires SameCosts(t, u, uses)
    ensures UsesCost(t, uses, line) == UsesCost(u, uses, line)
  {
    if uses != [] {
      assert uses[0] in uses;
      UsesCostSame(t, u, uses[1..], line);
    }
  }

  lemma {:induction false} UsesCostConcat(t: Table, a: seq<Use>, b: seq<Use>, line: nat)
    ensures UsesCost(t, a + b, line) == UsesCost(t, a, line) + UsesCost(t, b, line)
  {
    if a == [] {
      assert a + b == b;
    } else {
      assert (a + b)[1..] == a[1..] + b;
      UsesCostConcat(t, a[1..], b, line);
    }
  }

  lemma {:induction false} UsesCostOfTakes(t: Table, line: nat, takes: seq<Take>, other: nat)
    requires TakesWithin(takes, |t|)
    ensures UsesCost(t, UsesOf(line, takes), other) == if other == line then TakesCost(t, takes) else 0
  {
    if takes != [] {
      UsesCostOfTakes(t, line, takes[1..], other);
      assert UsesOf(line, takes)[1..] == UsesOf(line, takes[1..]);
    }
  }

  lemma {:induction false} UsesCostWithout(t: Table, uses: seq<Use>, line: nat, other: nat)
    ensures UsesCost(t, WithoutUses(uses, line), other) == if other == line then 0 else UsesCost(t, uses, other)
  {
    if uses != [] {
      UsesCostWithout(t, uses[1..], line, other);
      var rest := WithoutUses(uses[1..], line);
      if uses[0].line != line {
        assert ([uses[0]] + rest)[1..] == rest;
      } else {
        assert [] + rest == rest;
      }
    }
  }

  lemma {:induction false} NoUsesNoCost(t: Table, uses: seq<Use>, line: nat)
    requires forall u :: u in uses ==> u.line != line
    ensures UsesCost(t, uses, line) == 0
  {
    if uses != [] {
      NoUsesNoCost(t, uses[1..], line);
    }
  }

  lemma ValueUpdate(t: Table, i: nat, row: Option<Layer>)
    requires i < |t|
    ensures Value(t[i := row]) == Value(t) - Remaining(t[i]) * Cost(t[i]) + Remaining(row) * Cost(row)
  {
    assert Values(t[i := row]) == Values(t)[i := Remaining(row) * Cost(row)];
    SumUpdate(Values(t), i, Remaining(row) * Cost(row));
  }

  /** Given back, what a line drew is worth what it drew it at. */
  lemma {:induction false} GiveBackValue(t: Table, uses: seq<Use>, line: nat)
    requires NamesReceipts(t, uses)
    ensures Value(GiveBack(t, uses, line)) == Value(t) + UsesCost(t, uses, line)
    decreases |uses|
  {
    if uses != [] {
      var id := uses[0].layer;
      assert uses[0] in uses;
      if uses[0].line == line {
        var next := AddTo(t, id, uses[0].qty);
        ValueUpdate(t, id, SetRemaining(t[id], Remaining(t[id]) + uses[0].qty));
        MulDistributes(Remaining(t[id]), uses[0].qty, Cost(t[id]));
        GiveBackValue(next, uses[1..], line);
        UsesCostSame(t, next, uses[1..], line);
      } else {
        GiveBackValue(t, uses[1..], line);
      }
    }
  }

  lemma DropValue(t: Table, line: nat)
    ensures Value(DropBackorders(t, line)) == Value(t) - ShortCost(t, line)
  {
    SumOfDifferences(Values(t), ShortValues(t, line), Values(DropBackorders(t, line)));
  }

  // ------------------------------------------------------------------ the invariant

  predicate ReceiptAtCost(s: Pool, cs: seq<int>, i: nat)
    requires i < |s.book| == |cs|
  {
    s.book[i].inward && s.book[i].live ==> s.book[i].layer < |s.rows| && Cost(s.rows[s.book[i].layer]) == cs[i]
  }

  predicate IssueAtCost(s: Pool, cs: seq<int>, i: nat)
    requires i < |s.book| == |cs|
  {
    !s.book[i].inward && s.book[i].live ==> UsesCost(s.rows, s.uses, i) - ShortCost(s.rows, i) == cs[i]
  }

  ghost predicate AtCost(s: Pool, cs: seq<int>)
  {
    && |cs| == |s.book|
    && Value(s.rows) == Sum(Worths(s.book, cs))
    && forall i :: 0 <= i < |s.book| ==> ReceiptAtCost(s, cs, i) && IssueAtCost(s, cs, i)
  }

  lemma ReceiveKeepsCost(s: Pool, cs: seq<int>, date: int, qty: int, cost: int)
    requires Inv(s) && AtCost(s, cs) && 0 < qty
    ensures AtCost(Step(s, Receive(date, qty, cost)), cs + [cost])
  {
    var s', cs' := Step(s, Receive(date, qty, cost)), cs + [cost];
    var row := Some(Layer(Receipt, |s.book|, date, qty, qty, cost));
    ValueAppend(s.rows, row);
    WorthAppend(s.book, cs, s'.book[|s.book|], cost);
    forall i | 0 <= i < |s'.book|
      ensures ReceiptAtCost(s', cs', i) && IssueAtCost(s', cs', i)
    {
      if i < |s.book| {
        assert ReceiptAtCost(s, cs, i) && IssueAtCost(s, cs, i);
        UsesCostSame(s.rows, s'.rows, s.uses, i);
        ShortAppend(s.rows, row, i);
      }
    }
  }

  // ------------------------------------------------------------------ an issue

  lemma DrawnShort(s: Pool, qty: int, dir: Direction, line: nat)
    requires Inv(s)
    ensures ShortCost(WithRems(s.rows, RowDraw(s.rows, dir, qty).left), line) == ShortCost(s.rows, line)
  {
    var t := WithRems(s.rows, RowDraw(s.rows, dir, qty).left);
    DrawnRows(s, qty, dir);
    ShortSame(t, s.rows, line);
  }

  lemma NotShortYet(s: Pool, line: nat)
    requires Inv(s) && |s.book| <= line
    ensures ShortCost(s.rows, line) == 0 && UsesCost(s.rows, s.uses, line) == 0
  {
    forall r | 0 <= r < |s.rows|
      ensures ShortValue(s.rows[r], line) == 0
    {
      assert RowOk(s, r);
    }
    SumZero(ShortValues(s.rows, line));
    NoUsesNoCost(s.rows, s.uses, line);
  }

  /** After the issue every line drew and was short what it was before, and the new one what the issue cost. */
  lemma IssueLinesAtCost(s: Pool, date: int, qty: int, dir: Direction, fallback: int, i: nat)
    requires Inv(s) && 0 < qty && i <= |s.book|
    ensures var s' := Step(s, Issue(date, qty, dir, fallback));
      UsesCost(s'.rows, s'.uses, i) - ShortCost(s'.rows, i)
      == UsesCost(s.rows, s.uses, i) - ShortCost(s.rows, i)
         + if i == |s.book| then IssueCost(s.rows, qty, dir, fallback) else 0
  {
    IssueUsesAtCost(s, date, qty, dir, fallback, i);
    IssueShortAtCost(s, date, qty, dir, fallback, i);
  }

  lemma IssueShortAtCost(s: Pool, date: int, qty: int, dir: Direction, fallback: int, i: nat)
    requires Inv(s) && 0 < qty
    ensures var d := RowDraw(s.rows, dir, qty);
      ShortCost(Step(s, Issue(date, qty, dir, fallback)).rows, i)
      == ShortCost(s.rows, i) - if i == |s.book| && 1 < d.unmet then d.unmet * ShortfallCost(s.rows, fallback) else 0
  {
    var d := RowDraw(s.rows, dir, qty);
    DrawnShort(s, qty, dir, i);
    ShortOneMore(WithRems(s.rows, d.left), |s.book|, date, d.unmet, ShortfallCost(s.rows, fallback), i);
  }

  lemma ShortOneMore(t: Table, line: nat, date: int, unmet: int, cost: int, i: nat)
    ensures ShortCost(t + if 1 < unmet then [BackorderRow(line, date, unmet, cost)] else [], i)
      == ShortCost(t, i) - if i == line && 1 < unmet then unmet * cost else 0
  {
    ShortAppend(t, BackorderRow(line, date, unmet, cost), i);
    assert t + [] == t;
  }

  lemma IssueUsesAtCost(s: Pool, date: int, qty: int, dir: Direction, fallback: int, i: nat)
    requires Inv(s) && 0 < qty
    ensures var s', d := Step(s, Issue(date, qty, dir, fallback)), RowDraw(s.rows, dir, qty);
      && TakesWithin(d.takes, |s.rows|)
      && UsesCost(s'.rows, s'.uses, i)
         == UsesCost(s.rows, s.uses, i) + if i == |s.book| then TakesCost(s.rows, d.takes) else 0
  {
    var s', d := Step(s, Issue(date, qty, dir, fallback)), RowDraw(s.rows, dir, qty);
    RowTakesWithin(Rems(s.rows), Oldest(Dates(s.rows)), dir, qty);
    UsesCostConcat(s.rows, s.uses, UsesOf(|s.book|, d.takes), i);
    UsesCostOfTakes(s.rows, |s.book|, d.takes, i);
    UsesOfTakes(|s.book|, d.takes, 0, 0);
    UsesCostSame(s.rows, s'.rows, s'.uses, i);
  }

  lemma IssueKeepsCost(s: Pool, cs: seq<int>, date: int, qty: int, dir: Direction, fallback: int)
    requires Inv(s) && AtCost(s, cs) && 0 < qty
    ensures AtCost(Step(s, Issue(date, qty, dir, fallback)), cs + [IssueCost(s.rows, qty, dir, fallback)])
  {
    var s', cost := Step(s, Issue(date, qty, dir, fallback)), IssueCost(s.rows, qty, dir, fallback);
    IssueCostsWhatTheTableLoses(s.rows, |s.book|, date, qty, dir, fallback);
    WorthAppend(s.book, cs, s'.book[|s.book|], cost);
    NotShortYet(s, |s.book|);
    forall i | 0 <= i <= |s.book|
      ensures ReceiptAtCost(s', cs + [cost], i) && IssueAtCost(s', cs + [cost], i)
    {
      IssueLinesAtCost(s, date, qty, dir, fallback, i);
      if i < |s.book| {
        assert ReceiptAtCost(s, cs, i) && IssueAtCost(s, cs, i);
      }
    }
  }

  // ------------------------------------------------------------------ the reversals

  lemma GivenBackShort(s: Pool, line: nat, i: nat)
    requires Inv(s)
    ensures ShortCost(GiveBack(s.rows, s.uses, line), i) == ShortCost(s.rows, i)
  {
    var back := GiveBack(s.rows, s.uses, line);
    forall r | 0 <= r < |s.rows|
      ensures ShortValue(back[r], i) == ShortValue(s.rows[r], i)
    {
      GiveBackAt(s.rows, s.uses, line, r);
      if s.rows[r].Some? && s.rows[r].value.kind == Backorder {
        NotUsed(s.uses, line, r);
      }
    }
    ShortSame(back, s.rows, i);
  }

  lemma DropOthers(t: Table, line: nat, i: nat)
    requires i != line
    ensures ShortCost(DropBackorders(t, line), i) == ShortCost(t, i)
  {
    ShortSame(DropBackorders(t, line), t, i);
  }

  lemma ReverseOutCosts(s: Pool, line: nat)
    requires Inv(s) && line < |s.book|
    ensures SameCosts(s.rows, ReverseOut(s, line).rows, s.uses)
    ensures forall r :: 0 <= r < |s.rows| && s.rows[r].Some? && s.rows[r].value.kind == Receipt ==>
      Cost(ReverseOut(s, line).rows[r]) == Cost(s.rows[r])
  {
    forall r | 0 <= r < |s.rows| && s.rows[r].Some? && s.rows[r].value.kind == Receipt
      ensures Cost(ReverseOut(s, line).rows[r]) == Cost(s.rows[r])
    {
      GiveBackAt(s.rows, s.uses, line, r);
    }
  }

  lemma ReverseOutKeepsCost(s: Pool, cs: seq<int>, line: nat)
    requires Inv(s) && AtCost(s, cs) && line < |s.book| && !s.book[line].inward && s.book[line].live
    ensures AtCost(ReverseOut(s, line), cs)
  {
    var s', back := ReverseOut(s, line), GiveBack(s.rows, s.uses, line);
    assert IssueAtCost(s, cs, line);
    GiveBackValue(s.rows, s.uses, line);
    DropValue(back, line);
    GivenBackShort(s, line, line);
    WorthUpdate(s.book, cs, line, s'.book[line]);
    forall i | 0 <= i < |s.book|
      ensures ReceiptAtCost(s', cs, i) && IssueAtCost(s', cs, i)
    {
      ReverseOutLinesAtCost(s, cs, line, i);
    }
  }

  lemma ReverseOutLinesAtCost(s: Pool, cs: seq<int>, line: nat, i: nat)
    requires Inv(s) && AtCost(s, cs) && line < |s.book| && !s.book[line].inward && s.book[line].live && i < |s.book|
    ensures ReceiptAtCost(ReverseOut(s, line), cs, i) && IssueAtCost(ReverseOut(s, line), cs, i)
  {
    var s', back := ReverseOut(s, line), GiveBack(s.rows, s.uses, line);
    assert ReceiptOk(s, i) && ReceiptAtCost(s, cs, i) && IssueAtCost(s, cs, i);
    ReverseOutCosts(s, line);
    if i != line {
      UsesCostSame(s.rows, s'.rows, s.uses, i);
      UsesCostWithout(s'.rows, s.uses, line, i);
      GivenBackShort(s, line, i);
      DropOthers(back, line, i);
    }
  }

  lemma ReverseInKeepsCost(s: Pool, cs: seq<int>, line: nat)
    requires Inv(s) && AtCost(s, cs) && line < |s.book| && s.book[line].inward && s.book[line].live
    ensures AtCost(ReverseIn(s, line), cs)
  {
    var s', e := ReverseIn(s, line), s.book[line];
    ReverseInShape(s, line);
    ReverseInValue(s, cs, line);
    WorthUpdate(s.book, cs, line, s'.book[line]);
    forall i | 0 <= i < |s.book|
      ensures ReceiptAtCost(s', cs, i) && IssueAtCost(s', cs, i)
    {
      ReverseInLinesAtCost(s, cs, line, i);
    }
  }

  /** The table loses the receipt at its cost, but for the unit the tolerance keeps. */
  lemma ReverseInValue(s: Pool, cs: seq<int>, line: nat)
    requires Inv(s) && AtCost(s, cs) && line < |s.book| && s.book[line].inward && s.book[line].live
    ensures var s' := ReverseIn(s, line);
      Value(s'.rows) == Value(s.rows) - s.book[line].qty * cs[line] + s'.book[line].slack * cs[line]
  {
    var e := s.book[line];
    assert ReceiptOk(s, line) && ReceiptAtCost(s, cs, line);
    ReverseInShape(s, line);
    var row, consumed := s.rows[e.layer], UsedFrom(s.uses, e.layer);
    var t := s.rows[e.layer := SetRemaining(row, 0)];
    ValueUpdate(s.rows, e.layer, SetRemaining(row, 0));
    ValueAppend(t, BackorderRow(line, row.value.date, consumed, row.value.cost));
    assert t + [] == t;
    MulDistributes(Remaining(row), consumed, cs[line]);
  }

  lemma ReverseInLinesAtCost(s: Pool, cs: seq<int>, line: nat, i: nat)
    requires Inv(s) && AtCost(s, cs) && line < |s.book| && s.book[line].inward && s.book[line].live && i < |s.book|
    ensures ReceiptAtCost(ReverseIn(s, line), cs, i) && IssueAtCost(ReverseIn(s, line), cs, i)
  {
    var s', e := ReverseIn(s, line), s.book[line];
    assert ReceiptAtCost(s, cs, i) && IssueAtCost(s, cs, i);
    ReverseInShape(s, line);
    if i != line {
      var row, t := s.rows[e.layer], s.rows[e.layer := SetRemaining(s.rows[e.layer], 0)];
      UsesCostSame(s.rows, s'.rows, s.uses, i);
      ShortSame(s.rows, t, i);
      ShortAppend(t, BackorderRow(line, row.value.date, UsedFrom(s.uses, e.layer), row.value.cost), i);
      assert t + [] == t;
    }
  }

  // ------------------------------------------------------------------ conservation over runs

  lemma {:induction false} RunStaysAtCost(es: seq<Event>)
    requires LegalRun(es)
    ensures AtCost(Run(es), Costs(es))
  {
    if es != [] {
      var before, last := es[..|es| - 1], es[|es| - 1];
      RunStaysAtCost(before);
      RunKeepsInv(before);
      match last {
        case Receive(date, qty, cost) => ReceiveKeepsCost(Run(before), Costs(before), date, qty, cost);
        case Issue(date, qty, dir, fallback) => IssueKeepsCost(Run(before), Costs(before), date, qty, dir, fallback);
        case Reverse(line) =>
          if Run(before).book[line].inward {
            ReverseInKeepsCost(Run(before), Costs(before), line);
          } else {
            ReverseOutKeepsCost(Run(before), Costs(before), line);
          }
      }
    }
  }

  /**
   What the table is worth is what the lines say: un-reversed receipts at their cost less what
   un-reversed issues cost, plus, for each reversed receipt, the unit the tolerance kept, at
   its cost. An issue's reversal brings back exactly what the issue cost.
   */
  lemma RunConservesTheValue(es: seq<Event>)
    requires LegalRun(es)
    ensures |Costs(es)| == |Run(es).book| && Value(Run(es).rows) == Sum(Worths(Run(es).book, Costs(es)))
  {
    RunStaysAtCost(es);
  }
}
