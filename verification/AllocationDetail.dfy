/**
 The stored detail of an allocation: one parent row per cost type and receipt, one detail
 row per line under it.
 */
module AllocationDetail {
  import opened Outcomes

  datatype CostType = Freight | Duty | Insurance | Handling | OtherCost | NonCreditableTax

  datatype Basis = ByValue | ByQty | Equal | Manual | Direct

  datatype Share = Share(costType: CostType, basis: Basis, line: nat, target: nat, baseQty: int, amount: int)

  datatype Detail = Detail(line: nat, basis: Basis, baseQty: int, amount: int)

  datatype Group = Group(costType: CostType, target: nat, rows: seq<Detail>)

  datatype Parent = Parent(costType: CostType, target: nat, basis: Basis, amount: int, details: seq<Detail>)

  /** Picks rows by what they are filed under. */
  type Filter = (CostType, nat, nat) -> bool

  function Under(q: (CostType, nat) -> bool): Filter { (c: CostType, t: nat, l: nat) => q(c, t) }

  /** Filed under these cost types, whatever the receipt and line. */
  function OfTypes(q: CostType -> bool): Filter { (c: CostType, t: nat, l: nat) => q(c) }

  /** Parent rows of these cost types, for any receipt. */
  function ParentsOfTypes(q: CostType -> bool): (CostType, nat) -> bool { (c: CostType, t: nat) => q(c) }

  /** A charge named twice for a line is one row. */
  function AddToRows(rows: seq<Detail>, s: Share): seq<Detail>
  {
    if rows == [] then [Detail(s.line, s.basis, s.baseQty, s.amount)]
    else if rows[0].line == s.line then [rows[0].(amount := rows[0].amount + s.amount)] + rows[1..]
    else [rows[0]] + AddToRows(rows[1..], s)
  }

  function AddToGroups(groups: seq<Group>, s: Share): seq<Group>
  {
    if groups == [] then [Group(s.costType, s.target, AddToRows([], s))]
    else if groups[0].costType == s.costType && groups[0].target == s.target then
      [groups[0].(rows := AddToRows(groups[0].rows, s))] + groups[1..]
    else [groups[0]] + AddToGroups(groups[1..], s)
  }

  function Grouped(shares: seq<Share>): seq<Group>
  {
    if shares == [] then [] else AddToGroups(Grouped(shares[..|shares| - 1]), shares[|shares| - 1])
  }

  function RowTotal(rows: seq<Detail>): int
  {
    if rows == [] then 0 else rows[0].amount + RowTotal(rows[1..])
  }

  /** One basis for the parent: the one its lines share, or manual where they differ. */
  function GroupBasis(rows: seq<Detail>): Basis
  {
    if rows != [] && forall i :: 0 <= i < |rows| ==> rows[i].basis == rows[0].basis then rows[0].basis else Manual
  }

  function ParentOf(g: Group): Parent
  {
    Parent(g.costType, g.target, GroupBasis(g.rows), RowTotal(g.rows), g.rows)
  }

  function Parents(groups: seq<Group>): seq<Parent>
  {
    if groups == [] then [] else [ParentOf(groups[0])] + Parents(groups[1..])
  }

  /** inv_landed_costs with its inv_landed_cost_lines, by the document that wrote them. */
  class AllocationTable {
    var parents: map<nat, seq<Parent>>

    /** Deletes what the document wrote before and writes its detail afresh. */
    method WriteLandedCostAllocation(documentId: nat, shares: seq<Share>)
      modifies this
      ensures parents == old(parents)[documentId := Parents(Grouped(shares))]
    {
      parents := parents[documentId := []];
      var groups: seq<Group> := [];
      for i := 0 to |shares|
        invariant groups == Grouped(shares[..i])
        invariant parents == old(parents)[documentId := []]
      {
        assert shares[..i + 1][..i] == shares[..i];
        groups := AddToGroups(groups, shares[i]);
      }
      assert shares[..|shares|] == shares;
      var written: seq<Parent> := [];
      for i := 0 to |groups|
        invariant written + Parents(groups[i..]) == Parents(groups)
        invariant parents == old(parents)[documentId := []]
      {
        var rows := groups[i].rows;
        var total := 0;
        for j := 0 to |rows|
          invariant total + RowTotal(rows[j..]) == RowTotal(rows)
        {
          assert rows[j..][1..] == rows[j + 1..];
          total := total + rows[j].amount;
        }
        assert groups[i..][1..] == groups[i + 1..];
        assert written + ([ParentOf(groups[i])] + Parents(groups[i + 1..]))
          == written + [ParentOf(groups[i])] + Parents(groups[i + 1..]);
        written := written + [Parent(groups[i].costType, groups[i].target, GroupBasis(rows), total, rows)];
      }
      assert written + [] == written;
      parents := parents[documentId := written];
    }
  }

  // ------------------------------------------------------------------ what the detail adds up to

  function ShareTotal(shares: seq<Share>, p: Filter): int
  {
    if shares == [] then 0
    else
      var s := shares[|shares| - 1];
      ShareTotal(shares[..|shares| - 1], p) + if p(s.costType, s.target, s.line) then s.amount else 0
  }

  function RowsWhere(costType: CostType, target: nat, rows: seq<Detail>, p: Filter): int
  {
    if rows == [] then 0
    else (if p(costType, target, rows[0].line) then rows[0].amount else 0) + RowsWhere(costType, target, rows[1..], p)
  }

  function GroupsWhere(groups: seq<Group>, p: Filter): int
  {
    if groups == [] then 0
    else RowsWhere(groups[0].costType, groups[0].target, groups[0].rows, p) + GroupsWhere(groups[1..], p)
  }

  function DetailTotal(parents: seq<Parent>, p: Filter): int
  {
    if parents == [] then 0
    else RowsWhere(parents[0].costType, parents[0].target, parents[0].details, p) + DetailTotal(parents[1..], p)
  }

  /** Parent amounts, picked by cost type and receipt. */
  function ParentTotal(parents: seq<Parent>, q: (CostType, nat) -> bool): int
  {
    if parents == [] then 0
    else (if q(parents[0].costType, parents[0].target) then parents[0].amount else 0) + ParentTotal(parents[1..], q)
  }

  lemma {:induction false} AddedRow(costType: CostType, target: nat, rows: seq<Detail>, s: Share, p: Filter)
    ensures RowsWhere(costType, target, AddToRows(rows, s), p)
      == RowsWhere(costType, target, rows, p) + if p(costType, target, s.line) then s.amount else 0
  {
    if rows == [] {
      assert AddToRows(rows, s)[1..] == [];
    } else if rows[0].line == s.line {
      assert AddToRows(rows, s)[1..] == rows[1..];
    } else {
      AddedRow(costType, target, rows[1..], s, p);
      assert AddToRows(rows, s)[1..] == AddToRows(rows[1..], s);
    }
  }

  lemma {:induction false} AddedShare(groups: seq<Group>, s: Share, p: Filter)
    ensures GroupsWhere(AddToGroups(groups, s), p)
      == GroupsWhere(groups, p) + if p(s.costType, s.target, s.line) then s.amount else 0
  {
    if groups == [] {
      AddedRow(s.costType, s.target, [], s, p);
      assert AddToGroups(groups, s)[1..] == [];
    } else if groups[0].costType == s.costType && groups[0].target == s.target {
      AddedRow(s.costType, s.target, groups[0].rows, s, p);
      assert AddToGroups(groups, s)[1..] == groups[1..];
    } else {
      AddedShare(groups[1..], s, p);
      assert AddToGroups(groups, s)[1..] == AddToGroups(groups[1..], s);
    }
  }

  lemma {:induction false} GroupedKeepsShares(shares: seq<Share>, p: Filter)
    ensures GroupsWhere(Grouped(shares), p) == ShareTotal(shares, p)
  {
    if shares != [] {
      GroupedKeepsShares(shares[..|shares| - 1], p);
      AddedShare(Grouped(shares[..|shares| - 1]), shares[|shares| - 1], p);
    }
  }

  lemma {:induction false} ParentsKeepDetail(groups: seq<Group>, p: Filter)
    ensures DetailTotal(Parents(groups), p) == GroupsWhere(groups, p)
  {
    if groups != [] {
      ParentsKeepDetail(groups[1..], p);
      assert Parents(groups)[1..] == Parents(groups[1..]);
    }
  }

  /** The detail filed under any choice of cost types, receipts and lines is the shares filed there. */
  lemma DetailTiesToShares(shares: seq<Share>, p: Filter)
    ensures DetailTotal(Parents(Grouped(shares)), p) == ShareTotal(shares, p)
  {
    GroupedKeepsShares(shares, p);
    ParentsKeepDetail(Grouped(shares), p);
  }

  lemma {:induction false} RowsUnderParent(
      costType: CostType, target: nat, rows: seq<Detail>, q: (CostType, nat) -> bool)
    ensures RowsWhere(costType, target, rows, Under(q)) == if q(costType, target) then RowTotal(rows) else 0
  {
    if rows != [] {
      RowsUnderParent(costType, target, rows[1..], q);
    }
  }

  lemma {:induction false} ParentsTieToDetail(groups: seq<Group>, q: (CostType, nat) -> bool)
    ensures ParentTotal(Parents(groups), q) == DetailTotal(Parents(groups), Under(q))
  {
    if groups != [] {
      ParentsTieToDetail(groups[1..], q);
      RowsUnderParent(groups[0].costType, groups[0].target, groups[0].rows, q);
      assert Parents(groups)[1..] == Parents(groups[1..]);
    }
  }

  /** Parent rows add up to the shares, however the rows are picked by cost type and receipt. */
  lemma ParentsTieToShares(shares: seq<Share>, q: (CostType, nat) -> bool)
    ensures ParentTotal(Parents(Grouped(shares)), q) == ShareTotal(shares, Under(q))
  {
    ParentsTieToDetail(Grouped(shares), q);
    DetailTiesToShares(shares, Under(q));
  }

  predicate PickedAlike(s: Share, p: Filter, q: Filter)
  {
    p(s.costType, s.target, s.line) == q(s.costType, s.target, s.line)
  }

  /** Two ways of picking that agree on the shares there are pick the same total. */
  lemma {:induction false} SamePicking(shares: seq<Share>, p: Filter, q: Filter)
    requires forall s :: s in shares ==> PickedAlike(s, p, q)
    ensures ShareTotal(shares, p) == ShareTotal(shares, q)
  {
    if shares != [] {
      var last := shares[|shares| - 1];
      assert last in shares && PickedAlike(last, p, q);
      SamePicking(shares[..|shares| - 1], p, q);
    }
  }

  // ------------------------------------------------------------------ one row for each key

  ghost predicate DistinctLines(rows: seq<Detail>)
  {
    forall i, j :: 0 <= i < j < |rows| ==> rows[i].line != rows[j].line
  }

  ghost predicate DistinctGroups(groups: seq<Group>)
  {
    && (forall i, j ::
        0 <= i < j < |groups| ==> (groups[i].costType, groups[i].target) != (groups[j].costType, groups[j].target))
    && (forall i :: 0 <= i < |groups| ==> DistinctLines(groups[i].rows))
  }

  lemma {:induction false} AddedRowStaysDistinct(rows: seq<Detail>, s: Share)
    requires DistinctLines(rows)
    ensures DistinctLines(AddToRows(rows, s))
    ensures forall d :: d in AddToRows(rows, s) ==>
      d.line == s.line || exists e :: e in rows && e.line == d.line
  {
    if rows != [] && rows[0].line != s.line {
      AddedRowStaysDistinct(rows[1..], s);
      assert forall j :: 0 < j < |rows| ==> rows[j] in rows[1..];
      var rest := AddToRows(rows[1..], s);
      forall d | d in rest
        ensures d.line != rows[0].line
        ensures d.line == s.line || exists e :: e in rows && e.line == d.line
      {
        if d.line != s.line {
          var e :| e in rows[1..] && e.line == d.line;
          assert e in rows;
        }
      }
    }
  }

  lemma {:induction false} AddedShareStaysDistinct(groups: seq<Group>, s: Share)
    requires DistinctGroups(groups)
    ensures DistinctGroups(AddToGroups(groups, s))
    ensures forall g :: g in AddToGroups(groups, s) ==>
      (g.costType, g.target) == (s.costType, s.target)
        || exists h :: h in groups && (h.costType, h.target) == (g.costType, g.target)
  {
    if groups == [] {
    } else if groups[0].costType == s.costType && groups[0].target == s.target {
      AddedRowStaysDistinct(groups[0].rows, s);
      assert forall g :: g in groups[1..] ==> g in groups;
    } else {
      AddedShareStaysDistinct(groups[1..], s);
      var rest := AddToGroups(groups[1..], s);
      forall g | g in rest
        ensures (g.costType, g.target) != (groups[0].costType, groups[0].target)
        ensures (g.costType, g.target) == (s.costType, s.target) || exists h ::
          h in groups && (h.costType, h.target) == (g.costType, g.target)
      {
        if (g.costType, g.target) != (s.costType, s.target) {
          var h :| h in groups[1..] && (h.costType, h.target) == (g.costType, g.target);
          assert h in groups;
        }
      }
    }
  }

  /** One parent row per cost type and receipt, one detail row per line under it. */
  lemma {:induction false} GroupedIsDistinct(shares: seq<Share>)
    ensures DistinctGroups(Grouped(shares))
  {
    if shares != [] {
      GroupedIsDistinct(shares[..|shares| - 1]);
      AddedShareStaysDistinct(Grouped(shares[..|shares| - 1]), shares[|shares| - 1]);
    }
  }

  // ------------------------------------------------------------------ what each row says

  function RowIn(rows: seq<Detail>, line: nat): Option<Detail>
  {
    if rows == [] then None else if rows[0].line == line then Some(rows[0]) else RowIn(rows[1..], line)
  }

  /** The detail row of a line under a cost type and receipt. */
  function RowAt(groups: seq<Group>, costType: CostType, target: nat, line: nat): Option<Detail>
  {
    if groups == [] then None
    else if groups[0].costType == costType && groups[0].target == target then RowIn(groups[0].rows, line)
    else RowAt(groups[1..], costType, target, line)
  }

  predicate Keyed(s: Share, costType: CostType, target: nat, line: nat)
  {
    s.costType == costType && s.target == target && s.line == line
  }

  /** The first share of a cost type on a line of a receipt. */
  function FirstShare(shares: seq<Share>, costType: CostType, target: nat, line: nat): Option<Share>
  {
    if shares == [] then None
    else
      var first := FirstShare(shares[..|shares| - 1], costType, target, line);
      var last := shares[|shares| - 1];
      if first.None? && Keyed(last, costType, target, line) then Some(last) else first
  }

  function KeyedTotal(shares: seq<Share>, costType: CostType, target: nat, line: nat): int
  {
    if shares == [] then 0
    else
      var last := shares[|shares| - 1];
      KeyedTotal(shares[..|shares| - 1], costType, target, line)
      + if Keyed(last, costType, target, line) then last.amount else 0
  }

  /** A share files a row of its own, or adds to the one already there. */
  function WithShare(row: Option<Detail>, s: Share): Option<Detail>
  {
    if row.None? then Some(Detail(s.line, s.basis, s.baseQty, s.amount))
    else Some(row.value.(amount := row.value.amount + s.amount))
  }

  lemma {:induction false} AddedRowAt(rows: seq<Detail>, s: Share, line: nat)
    ensures RowIn(AddToRows(rows, s), line)
      == if line == s.line then WithShare(RowIn(rows, line), s) else RowIn(rows, line)
  {
    if rows != [] && rows[0].line != s.line {
      AddedRowAt(rows[1..], s, line);
      assert AddToRows(rows, s)[1..] == AddToRows(rows[1..], s);
    } else if rows != [] {
      assert AddToRows(rows, s)[1..] == rows[1..];
    }
  }

  lemma {:induction false} AddedShareAt(groups: seq<Group>, s: Share, costType: CostType, target: nat, line: nat)
    ensures RowAt(AddToGroups(groups, s), costType, target, line)
      == if Keyed(s, costType, target, line) then WithShare(RowAt(groups, costType, target, line), s)
         else RowAt(groups, costType, target, line)
  {
    if groups == [] {
      AddedRowAt([], s, line);
      assert AddToGroups(groups, s)[1..] == [];
    } else if groups[0].costType == s.costType && groups[0].target == s.target {
      AddedRowAt(groups[0].rows, s, line);
      assert AddToGroups(groups, s)[1..] == groups[1..];
    } else {
      AddedShareAt(groups[1..], s, costType, target, line);
      assert AddToGroups(groups, s)[1..] == AddToGroups(groups[1..], s);
    }
  }

  lemma {:induction false} RowIsOfItsLine(rows: seq<Detail>, line: nat)
    ensures RowIn(rows, line).Some? ==> RowIn(rows, line).value.line == line
  {
    if rows != [] {
      RowIsOfItsLine(rows[1..], line);
    }
  }

  /**
   A line's row carries all its shares of the cost type, on the basis and the quantity of the
   first of them; a line without a share has no row.
   */
  lemma {:induction false} RowsSayWhatSharesDo(shares: seq<Share>, costType: CostType, target: nat, line: nat)
    ensures var first := FirstShare(shares, costType, target, line);
      RowAt(Grouped(shares), costType, target, line)
      == if first.None? then None
         else Some(Detail(line, first.value.basis, first.value.baseQty, KeyedTotal(shares, costType, target, line)))
    ensures FirstShare(shares, costType, target, line).None? ==> KeyedTotal(shares, costType, target, line) == 0
  {
    if shares != [] {
      var k := |shares| - 1;
      RowsSayWhatSharesDo(shares[..k], costType, target, line);
      AddedShareAt(Grouped(shares[..k]), shares[k], costType, target, line);
    }
  }

  /**
   A parent row carries its group's rows and their total, and their basis where they have one;
   manual where they differ.
   */
  lemma {:induction false} ParentSays(groups: seq<Group>, i: nat)
    requires i < |groups|
    ensures |Parents(groups)| == |groups|
    ensures var p, g := Parents(groups)[i], groups[i];
      && p.costType == g.costType && p.target == g.target && p.details == g.rows && p.amount == RowTotal(g.rows)
      && (g.rows != [] && (forall k :: 0 <= k < |g.rows| ==> g.rows[k].basis == g.rows[0].basis) ==>
          p.basis == g.rows[0].basis)
      && (forall j, k ::
          0 <= j < |g.rows| && 0 <= k < |g.rows| && g.rows[j].basis != g.rows[k].basis ==> p.basis == Manual)
  {
    ParentsOneEach(groups);
    if i > 0 {
      ParentSays(groups[1..], i - 1);
    }
  }

  lemma {:induction false} ParentsOneEach(groups: seq<Group>)
    ensures |Parents(groups)| == |groups|
  {
    if groups != [] {
      ParentsOneEach(groups[1..]);
    }
  }
}
