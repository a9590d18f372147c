/**
 The dates layers bear over runs, and what follows for the order they are drawn in and for
 the cost of a shortfall.
 */
module LayerDates {
  import opened Outcomes
  import opened FixedPoint
  import opened Sequences
  import opened CostLayers
  import opened LayerOrder
  import opened LayerReversal
  import opened LayerPool

  // ------------------------------------------------------------------ what a shortfall is costed at

  /** A row that says a cost: it holds stock, at a cost. */
  predicate SaysACost(t: Table, r: nat) { r < |t| && 0 < Remaining(t[r]) && 0 < Cost(t[r]) }

  lemma {:induction false} LastKnownIs(t: Table, ids: seq<nat>, fallback: int, r: nat)
    requires LayerOrder.Within(ids, |t|) && ReadsByDate(Dates(t), ids) && r in ids && SaysACost(t, r)
    requires forall other :: other in ids && other != r && SaysACost(t, other) ==> ReadBefore(Dates(t), other, r)
    ensures LastKnownCost(t, ids, fallback) == Cost(t[r])
  {
    var k := |ids| - 1;
    if ids[k] != r {
      var i := PositionOf(ids, r);
      assert i < k && ReadBefore(Dates(t), ids[i], ids[k]);
      assert ids[k] in ids;
      assert !SaysACost(t, ids[k]);
      assert ids[..k][i] == r;
      LastKnownIs(t, ids[..k], fallback, r);
    }
  }

  lemma {:induction false} NothingKnown(t: Table, ids: seq<nat>, fallback: int)
    requires LayerOrder.Within(ids, |t|) && forall r :: r in ids ==> !SaysACost(t, r)
    ensures LastKnownCost(t, ids, fallback) == if fallback < 0 then 0 else fallback
  {
    if ids != [] {
      assert !SaysACost(t, ids[|ids| - 1]);
      NothingKnown(t, ids[..|ids| - 1], fallback);
    }
  }

  /** A shortfall is costed at the layer with stock and a cost that bears the latest date, the last of that date. */
  lemma ShortfallAtTheLatestCost(t: Table, fallback: int, r: nat)
    requires SaysACost(t, r)
    requires forall other :: SaysACost(t, other) && other != r ==> ReadBefore(Dates(t), other, r)
    ensures ShortfallCost(t, fallback) == Cost(t[r])
  {
    OldestReadsEveryRowByDate(Dates(t));
    LastKnownIs(t, Oldest(Dates(t)), fallback, r);
  }

  /** Where no layer says a cost, at what the caller falls back on, and never below nothing. */
  lemma ShortfallFallsBack(t: Table, fallback: int)
    requires forall r :: 0 <= r < |t| ==> !SaysACost(t, r)
    ensures ShortfallCost(t, fallback) == if fallback < 0 then 0 else fallback
  {
    NothingKnown(t, Oldest(Dates(t)), fallback);
  }

  // ------------------------------------------------------------------ dates over runs

  /** The date each line of the run was booked on. */
  function BookDates(es: seq<Event>): (ds: seq<int>)
  {
    if es == [] then []
    else
      match es[|es| - 1]
      case Receive(date, _, _) => BookDates(es[..|es| - 1]) + [date]
      case Issue(date, _, _, _) => BookDates(es[..|es| - 1]) + [date]
      case Reverse(_) => BookDates(es[..|es| - 1])
  }

  /** A row bears its line's date; a receipt's says what its line received, a negative layer what it is short. */
  predicate RowDated(s: Pool, ds: seq<int>, r: nat)
    requires r < |s.rows|
  {
    s.rows[r].Some? ==>
      var l := s.rows[r].value;
      && l.line < |s.book| == |ds| && l.date == ds[l.line]
      && l.received == if l.kind == Receipt then s.book[l.line].qty else l.remaining
  }

  ghost predicate Dated(s: Pool, ds: seq<int>)
  {
    |ds| == |s.book| && forall r :: 0 <= r < |s.rows| ==> RowDated(s, ds, r)
  }

  /** A row of the same line and kind with the same date keeps being dated, whatever it has left. */
  lemma KeptRow(s: Pool, ds: seq<int>, s': Pool, ds': seq<int>, r: nat)
    requires Inv(s) && Dated(s, ds) && r < |s.rows| && r < |s'.rows|
    requires |s.book| <= |s'.book| == |ds'| && ds <= ds'
    requires forall i :: 0 <= i < |s.book| ==> s'.book[i].qty == s.book[i].qty
    requires s'.rows[r] == s.rows[r] || s'.rows[r].None?
      || (s.rows[r].Some? && s.rows[r].value.kind == Receipt
          && s'.rows[r] == SetRemaining(s.rows[r], Remaining(s'.rows[r])))
    ensures RowDated(s', ds', r)
  {
    assert RowDated(s, ds, r);
  }

  lemma ReceiveStaysDated(s: Pool, ds: seq<int>, date: int, qty: int, cost: int)
    requires Inv(s) && Dated(s, ds) && 0 < qty
    ensures Dated(Step(s, Receive(date, qty, cost)), ds + [date])
  {
    var s' := Step(s, Receive(date, qty, cost));
    forall r | 0 <= r < |s'.rows|
      ensures RowDated(s', ds + [date], r)
    {
      if r < |s.rows| {
        KeptRow(s, ds, s', ds + [date], r);
      }
    }
  }

  lemma IssueStaysDated(s: Pool, ds: seq<int>, date: int, qty: int, dir: Direction, fallback: int)
    requires Inv(s) && Dated(s, ds) && 0 < qty
    ensures Dated(Step(s, Issue(date, qty, dir, fallback)), ds + [date])
  {
    var s' := Step(s, Issue(date, qty, dir, fallback));
    DrawnRows(s, qty, dir);
    forall r | 0 <= r < |s'.rows|
      ensures RowDated(s', ds + [date], r)
    {
      if r < |s.rows| {
        KeptRow(s, ds, s', ds + [date], r);
      }
    }
  }

  lemma ReverseOutStaysDated(s: Pool, ds: seq<int>, line: nat)
    requires Inv(s) && Dated(s, ds) && line < |s.book| && !s.book[line].inward && s.book[line].live
    ensures Dated(ReverseOut(s, line), ds)
  {
    var s' := ReverseOut(s, line);
    forall r | 0 <= r < |s'.rows|
      ensures RowDated(s', ds, r)
    {
      ReverseOutRows(s, line, r);
      KeptRow(s, ds, s', ds, r);
    }
  }

  lemma ReverseInStaysDated(s: Pool, ds: seq<int>, line: nat)
    requires Inv(s) && Dated(s, ds) && line < |s.book| && s.book[line].inward && s.book[line].live
    ensures Dated(ReverseIn(s, line), ds)
  {
    var s' := ReverseIn(s, line);
    ReverseInShape(s, line);
    assert RowDated(s, ds, s.book[line].layer);
    forall r | 0 <= r < |s'.rows|
      ensures RowDated(s', ds, r)
    {
      if r < |s.rows| {
        KeptRow(s, ds, s', ds, r);
      }
    }
  }

  /** Over every run each layer bears the date of the line that opened it, and says what that line received. */
  lemma {:induction false} RunStaysDated(es: seq<Event>)
    requires LegalRun(es)
    ensures Dated(Run(es), BookDates(es))
  {
    if es != [] {
      var before, last := es[..|es| - 1], es[|es| - 1];
      RunStaysDated(before);
      RunKeepsInv(before);
      match last {
        case Receive(date, qty, cost) => ReceiveStaysDated(Run(before), BookDates(before), date, qty, cost);
        case Issue(date, qty, dir, fallback) =>
          IssueStaysDated(Run(before), BookDates(before), date, qty, dir, fallback);
        case Reverse(line) =>
          if Run(before).book[line].inward {
            ReverseInStaysDated(Run(before), BookDates(before), line);
          } else {
            ReverseOutStaysDated(Run(before), BookDates(before), line);
          }
      }
    }
  }

  /**
   On the layers of any run, a FIFO issue draws on a receipt only once every receipt dated
   before it, or on its date and entered before it, is empty; a LIFO issue the other way.
   */
  lemma IssuesGoByDate(es: seq<Event>, s: Pool, dir: Direction, qty: int, first: nat, second: nat)
    requires LegalRun(es) && s == Run(es) && first < |s.book| && second < |s.book|
    requires s.book[first].inward && s.book[first].live && s.book[second].inward && s.book[second].live
    requires s.book[first].layer < |s.rows| && s.book[second].layer < |s.rows|
    requires |BookDates(es)| == |s.book|
    requires var d1, d2, a, b := BookDates(es)[first], BookDates(es)[second], s.book[first].layer, s.book[second].layer;
      if dir == Fifo then d1 < d2 || (d1 == d2 && a < b) else d2 < d1 || (d1 == d2 && b < a)
    ensures var left := RowDraw(s.rows, dir, qty).left;
      left[s.book[second].layer] != Remaining(s.rows[s.book[second].layer]) ==> left[s.book[first].layer] <= 0
  {
    var a, b := s.book[first].layer, s.book[second].layer;
    RunKeepsInv(es);
    RunStaysDated(es);
    assert ReceiptOk(s, first) && ReceiptOk(s, second);
    assert RowDated(s, BookDates(es), a) && RowDated(s, BookDates(es), b);
    DrawsInTurn(Rems(s.rows), Dates(s.rows), dir, qty, a, b);
  }
}
