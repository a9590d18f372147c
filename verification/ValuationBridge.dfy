/** The inventory value bridge: opening, five flows, closing, all summed from the movement ledger. */
module ValuationBridge {
  import opened Outcomes
  import opened FixedPoint
  import opened DocumentTypes
  import opened PeriodLock

  /** Signed total, its two gross halves, how many movements made it and how many of them carry no value. */
  datatype Bucket = Bucket(net: int, grossIn: int, grossOut: int, movements: int, unvalued: int)

  const ZERO := Bucket(0, 0, 0, 0, 0)

  function Plus(a: Bucket, b: Bucket): Bucket
  {
    Bucket(a.net + b.net, a.grossIn + b.grossIn, a.grossOut + b.grossOut, a.movements + b.movements,
           a.unvalued + b.unvalued)
  }

  function BucketOf(m: Movement): Bucket
  {
    match m.value
    case None => Bucket(0, 0, 0, 1, 1)
    case Some(v) => Bucket(v, Max(0, v), Max(0, -v), 1, 0)
  }

  type Pick = Movement -> bool

  /** The sum over the movements picked. */
  function TotalWhere(ms: seq<Movement>, p: Pick): Bucket
  {
    if ms == [] then ZERO
    else
      var k := |ms| - 1;
      Plus(TotalWhere(ms[..k], p), if p(ms[k]) then BucketOf(ms[k]) else ZERO)
  }

  /** What the query selects: branch and warehouse 0 are every one; no from reaches back through every year. */
  function Window(branch: nat, from: Option<int>, to: int, warehouse: nat): Pick
  {
    (m: Movement) =>
      && m.date <= to && (from.Some? ==> from.value <= m.date)
      && (branch == 0 || m.branch == branch) && (warehouse == 0 || m.warehouse == warehouse)
  }

  function And(p: Pick, q: Pick): Pick { (m: Movement) => p(m) && q(m) }

  function InFlow(f: FlowClass): Pick { (m: Movement) => FlowClassOf(m.docType) == f }

  function OfKind(kind: Kind): Pick { (m: Movement) => m.kind == kind }

  // ------------------------------------------------------------------ the grouped query

  function Select(ms: seq<Movement>, p: Pick): seq<Movement>
  {
    if ms == [] then [] else Select(ms[..|ms| - 1], p) + if p(ms[|ms| - 1]) then [ms[|ms| - 1]] else []
  }

  /** One row of the grouped query. */
  datatype Group = Group(docType: DocType, kind: Kind, bucket: Bucket)

  function AddToGroups(gs: seq<Group>, m: Movement): seq<Group>
  {
    if gs == [] then [Group(m.docType, m.kind, BucketOf(m))]
    else if gs[0].docType == m.docType && gs[0].kind == m.kind
    then [gs[0].(bucket := Plus(gs[0].bucket, BucketOf(m)))] + gs[1..]
    else [gs[0]] + AddToGroups(gs[1..], m)
  }

  /** GROUP BY document type and movement kind. */
  function GroupRows(ms: seq<Movement>): seq<Group>
  {
    if ms == [] then [] else AddToGroups(GroupRows(ms[..|ms| - 1]), ms[|ms| - 1])
  }

  type GroupPick = (DocType, Kind) -> bool

  function Grouped(q: GroupPick): Pick { (m: Movement) => q(m.docType, m.kind) }

  function GroupsOf(gs: seq<Group>, q: GroupPick): Bucket
  {
    if gs == [] then ZERO else Plus(if q(gs[0].docType, gs[0].kind) then gs[0].bucket else ZERO, GroupsOf(gs[1..], q))
  }

  lemma {:induction false} AddedToGroups(gs: seq<Group>, m: Movement, q: GroupPick)
    ensures GroupsOf(AddToGroups(gs, m), q) == Plus(GroupsOf(gs, q), if q(m.docType, m.kind) then BucketOf(m) else ZERO)
  {
    if gs == [] {
      assert AddToGroups(gs, m)[1..] == [];
    } else if gs[0].docType == m.docType && gs[0].kind == m.kind {
      assert AddToGroups(gs, m)[1..] == gs[1..];
    } else {
      AddedToGroups(gs[1..], m, q);
      assert AddToGroups(gs, m)[1..] == AddToGroups(gs[1..], m);
    }
  }

  /** Grouping loses nothing: any choice of types and kinds adds up to its movements. */
  lemma {:induction false} GroupingKeepsTotals(ms: seq<Movement>, q: GroupPick)
    ensures GroupsOf(GroupRows(ms), q) == TotalWhere(ms, Grouped(q))
  {
    if ms != [] {
      GroupingKeepsTotals(ms[..|ms| - 1], q);
      AddedToGroups(GroupRows(ms[..|ms| - 1]), ms[|ms| - 1], q);
    }
  }

  lemma {:induction false} SelectedTotal(ms: seq<Movement>, p: Pick, q: Pick)
    ensures TotalWhere(Select(ms, p), q) == TotalWhere(ms, And(p, q))
  {
    if ms != [] {
      var k := |ms| - 1;
      SelectedTotal(ms[..k], p, q);
      var before := Select(ms[..k], p);
      if p(ms[k]) {
        assert (before + [ms[k]])[..|before|] == before;
      } else {
        assert before + [] == before;
      }
    }
  }

  lemma {:induction false} SamePick(ms: seq<Movement>, p: Pick, q: Pick)
    requires forall m :: p(m) == q(m)
    ensures TotalWhere(ms, p) == TotalWhere(ms, q)
  {
    if ms != [] {
      SamePick(ms[..|ms| - 1], p, q);
    }
  }

  function EveryGroup(): GroupPick { (t: DocType, k: Kind) => true }

  function FlowGroups(f: FlowClass): GroupPick { (t: DocType, k: Kind) => FlowClassOf(t) == f }

  function KindGroups(kind: Kind): GroupPick { (t: DocType, k: Kind) => k == kind }

  /** The groups of a query carry the window's totals: over all of it, over each flow, over each kind. */
  lemma QueryTotals(ms: seq<Movement>, p: Pick, q: GroupPick, asked: Pick)
    requires forall m: Movement :: asked(m) == q(m.docType, m.kind)
    ensures GroupsOf(GroupRows(Select(ms, p)), q) == TotalWhere(ms, And(p, asked))
  {
    GroupingKeepsTotals(Select(ms, p), q);
    SelectedTotal(ms, p, Grouped(q));
    SamePick(ms, And(p, Grouped(q)), And(p, asked));
  }

  datatype Totals = Totals(
    net: int, byFlow: map<FlowClass, Bucket>, unvalued: int, reversals: Bucket, revaluations: Bucket)

  function FlowOf(t: Totals, f: FlowClass): Bucket { if f in t.byFlow then t.byFlow[f] else ZERO }

  /** The totals say of the window what summing its movements directly says. */
  ghost predicate Sums(t: Totals, ms: seq<Movement>, p: Pick)
  {
    && t.net == TotalWhere(ms, p).net && t.unvalued == TotalWhere(ms, p).unvalued
    && (forall f :: FlowOf(t, f) == TotalWhere(ms, And(p, InFlow(f))))
    && t.reversals == TotalWhere(ms, And(p, OfKind(ReversalMove)))
    && t.revaluations == TotalWhere(ms, And(p, OfKind(RevaluationMove)))
  }

  type Classes = DocType -> FlowClass

  function ByType(): Classes { (t: DocType) => FlowClassOf(t) }

  function AddGroup(t: Totals, g: Group, classes: Classes): Totals
  {
    var flow := classes(g.docType);
    Totals(t.net + g.bucket.net, t.byFlow[flow := Plus(FlowOf(t, flow), g.bucket)], t.unvalued + g.bucket.unvalued,
           if g.kind == ReversalMove then Plus(t.reversals, g.bucket) else t.reversals,
           if g.kind == RevaluationMove then Plus(t.revaluations, g.bucket) else t.revaluations)
  }

  const NO_TOTALS := Totals(0, map[], 0, ZERO, ZERO)

  /** The totals t after the rows are added to it in order. */
  function AddedUp(t: Totals, rows: seq<Group>, classes: Classes): Totals
    decreases |rows|
  {
    if rows == [] then t else AddedUp(AddGroup(t, rows[0], classes), rows[1..], classes)
  }

  method AddUpGroups(rows: seq<Group>) returns (out: Totals)
    ensures out == AddedUp(NO_TOTALS, rows, ByType())
  {
    out := Totals(0, map[], 0, ZERO, ZERO);
    for i := 0 to |rows|
      invariant AddedUp(out, rows[i..], ByType()) == AddedUp(NO_TOTALS, rows, ByType())
    {
      assert rows[i..][1..] == rows[i + 1..];
      var g, flow := rows[i], FlowClassOf(rows[i].docType);
      var byFlow := out.byFlow[flow := Plus(FlowOf(out, flow), g.bucket)];
      var reversals, revaluations := out.reversals, out.revaluations;
      if g.kind == ReversalMove {
        reversals := Plus(reversals, g.bucket);
      }
      if g.kind == RevaluationMove {
        revaluations := Plus(revaluations, g.bucket);
      }
      out := Totals(out.net + g.bucket.net, byFlow, out.unvalued + g.bucket.unvalued, reversals, revaluations);
    }
  }

  lemma {:induction false} AddedUpTotals(t: Totals, rows: seq<Group>, classes: Classes)
    ensures var out := AddedUp(t, rows, classes);
      && out.net == t.net + GroupsOf(rows, EveryGroup()).net
      && out.unvalued == t.unvalued + GroupsOf(rows, EveryGroup()).unvalued
      && out.reversals == Plus(t.reversals, GroupsOf(rows, KindGroups(ReversalMove)))
      && out.revaluations == Plus(t.revaluations, GroupsOf(rows, KindGroups(RevaluationMove)))
    decreases |rows|
  {
    if rows != [] {
      AddedUpTotals(AddGroup(t, rows[0], classes), rows[1..], classes);
    }
  }

  function FlowSum(rows: seq<Group>, classes: Classes, f: FlowClass): Bucket
  {
    if rows == [] then ZERO
    else Plus(if classes(rows[0].docType) == f then rows[0].bucket else ZERO, FlowSum(rows[1..], classes, f))
  }

  lemma {:induction false} FlowSumIsGroups(rows: seq<Group>, f: FlowClass)
    ensures FlowSum(rows, ByType(), f) == GroupsOf(rows, FlowGroups(f))
  {
    if rows != [] {
      FlowSumIsGroups(rows[1..], f);
    }
  }

  lemma AddGroupFlow(t: Totals, g: Group, classes: Classes, f: FlowClass)
    ensures FlowOf(AddGroup(t, g, classes), f) == Plus(FlowOf(t, f), if classes(g.docType) == f then g.bucket else ZERO)
  {
  }

  lemma AddedUpFlowStep(t: Totals, u: Totals, rows: seq<Group>, classes: Classes, f: FlowClass)
    requires rows != [] && u == AddGroup(t, rows[0], classes)
    requires FlowOf(AddedUp(u, rows[1..], classes), f) == Plus(FlowOf(u, f), FlowSum(rows[1..], classes, f))
    requires FlowOf(u, f) == Plus(FlowOf(t, f), if classes(rows[0].docType) == f then rows[0].bucket else ZERO)
    ensures FlowOf(AddedUp(t, rows, classes), f) == Plus(FlowOf(t, f), FlowSum(rows, classes, f))
  {
  }

  lemma AddedUpNothing(t: Totals, rows: seq<Group>, classes: Classes, f: FlowClass)
    requires rows == []
    ensures FlowOf(AddedUp(t, rows, classes), f) == Plus(FlowOf(t, f), FlowSum(rows, classes, f))
  {
  }

  lemma {:induction false} AddedUpFlows(t: Totals, rows: seq<Group>, classes: Classes, f: FlowClass)
    ensures FlowOf(AddedUp(t, rows, classes), f) == Plus(FlowOf(t, f), FlowSum(rows, classes, f))
    decreases |rows|
  {
    if rows == [] {
      AddedUpNothing(t, rows, classes, f);
    } else {
      var u := AddGroup(t, rows[0], classes);
      AddGroupFlow(t, rows[0], classes, f);
      AddedUpFlows(u, rows[1..], classes, f);
      AddedUpFlowStep(t, u, rows, classes, f);
    }
  }

  lemma AddedUpSums(ms: seq<Movement>, p: Pick)
    ensures Sums(AddedUp(NO_TOTALS, GroupRows(Select(ms, p)), ByType()), ms, p)
  {
    var rows := GroupRows(Select(ms, p));
    AddedUpTotals(NO_TOTALS, rows, ByType());
    QueryTotals(ms, p, EveryGroup(), (m: Movement) => true);
    SamePick(ms, And(p, (m: Movement) => true), p);
    QueryTotals(ms, p, KindGroups(ReversalMove), OfKind(ReversalMove));
    QueryTotals(ms, p, KindGroups(RevaluationMove), OfKind(RevaluationMove));
    forall f
      ensures FlowOf(AddedUp(NO_TOTALS, rows, ByType()), f) == TotalWhere(ms, And(p, InFlow(f)))
    {
      AddedUpFlows(NO_TOTALS, rows, ByType(), f);
      FlowSumIsGroups(rows, f);
      QueryTotals(ms, p, FlowGroups(f), InFlow(f));
    }
  }

  method MovementValueTotals(ms: seq<Movement>, branch: nat, from: Option<int>, to: int, warehouse: nat)
    returns (out: Totals)
    ensures Sums(out, ms, Window(branch, from, to, warehouse))
  {
    var rows := GroupRows(Select(ms, Window(branch, from, to, warehouse)));
    out := AddUpGroups(rows);
    AddedUpSums(ms, Window(branch, from, to, warehouse));
  }

  // ------------------------------------------------------------------ the bridge

  datatype Bridge = Bridge(
    opening: int, closing: int, inward: Bucket, outward: Bucket, transfer: Bucket, adjustment: Bucket, other: Bucket,
                           reversals: Bucket, revaluations: Bucket, unvalued: int)

  /** What the bridge closes at: everything valued up to the window's end. */
  function ClosingOf(ms: seq<Movement>, branch: nat, to: int, warehouse: nat): int
  {
    TotalWhere(ms, Window(branch, None, to, warehouse)).net
  }

  /** The bridge from what precedes the window and what lies within it, stated over the ledger alone. */
  function BridgeFrom(ms: seq<Movement>, before: Pick, within: Pick): Bridge
  {
    var opening, period := TotalWhere(ms, before).net, TotalWhere(ms, within);
    Bridge(opening, opening + period.net,
           TotalWhere(ms, And(within, InFlow(FlowReceipt))), TotalWhere(ms, And(within, InFlow(FlowIssue))),
           TotalWhere(ms, And(within, InFlow(FlowTransfer))), TotalWhere(ms, And(within, InFlow(FlowAdjustment))),
           TotalWhere(ms, And(within, InFlow(FlowNone))),
           TotalWhere(ms, And(within, OfKind(ReversalMove))), TotalWhere(ms, And(within, OfKind(RevaluationMove))),
           period.unvalued)
  }

  function BridgeOf(ms: seq<Movement>, branch: nat, from: int, to: int, warehouse: nat): Bridge
  {
    BridgeFrom(ms, Window(branch, None, from - 1, warehouse), Window(branch, Some(from), to, warehouse))
  }

  method Valuation(ms: seq<Movement>, branch: nat, from: int, to: int, warehouse: nat) returns (b: Bridge)
    ensures b == BridgeOf(ms, branch, from, to, warehouse)
  {
    var opening := MovementValueTotals(ms, branch, None, from - 1, warehouse);
    var period := MovementValueTotals(ms, branch, Some(from), to, warehouse);
    b := Bridge(opening.net, opening.net + period.net,
                FlowOf(period, FlowReceipt), FlowOf(period, FlowIssue), FlowOf(period, FlowTransfer),
                FlowOf(period, FlowAdjustment), FlowOf(period, FlowNone),
                period.reversals, period.revaluations, period.unvalued);
  }

  /** A pick split in two: each of its movements is in exactly one half. */
  ghost predicate SplitsInto(whole: Pick, a: Pick, b: Pick)
  {
    forall m: Movement :: whole(m) == (a(m) || b(m)) && !(a(m) && b(m))
  }

  lemma {:induction false} SplitTotals(ms: seq<Movement>, whole: Pick, a: Pick, b: Pick)
    requires SplitsInto(whole, a, b)
    ensures TotalWhere(ms, whole) == Plus(TotalWhere(ms, a), TotalWhere(ms, b))
  {
    if ms != [] {
      SplitTotals(ms[..|ms| - 1], whole, a, b);
    }
  }

  function FlowNet(ms: seq<Movement>, p: Pick, f: FlowClass): int { TotalWhere(ms, And(p, InFlow(f))).net }

  lemma {:induction false} FiveFlows(ms: seq<Movement>, p: Pick)
    ensures TotalWhere(ms, p).net
      == FlowNet(ms, p, FlowReceipt) + FlowNet(ms, p, FlowIssue) + FlowNet(ms, p, FlowTransfer)
                                     + FlowNet(ms, p, FlowAdjustment) + FlowNet(ms, p, FlowNone)
  {
    if ms != [] {
      FiveFlows(ms[..|ms| - 1], p);
    }
  }

  /** Every document type falls in one flow, so the five flows carry opening to closing. */
  lemma BridgeCloses(ms: seq<Movement>, branch: nat, from: int, to: int, warehouse: nat)
    ensures var b := BridgeOf(ms, branch, from, to, warehouse);
      b.inward.net + b.outward.net + b.transfer.net + b.adjustment.net + b.other.net == b.closing - b.opening
  {
    FiveFlows(ms, Window(branch, Some(from), to, warehouse));
  }

  lemma {:induction false} GrossHalves(ms: seq<Movement>, p: Pick)
    ensures var b := TotalWhere(ms, p);
      b.net == b.grossIn - b.grossOut && 0 <= b.grossIn && 0 <= b.grossOut
  {
    if ms != [] {
      GrossHalves(ms[..|ms| - 1], p);
    }
  }

  lemma WindowNets(ms: seq<Movement>, branch: nat, from: int, to: int, warehouse: nat)
    requires from <= to + 1
    ensures TotalWhere(ms, Window(branch, None, to, warehouse)).net
         == TotalWhere(ms, Window(branch, None, from - 1, warehouse)).net
           + TotalWhere(ms, Window(branch, Some(from), to, warehouse)).net
  {
    SplitTotals(ms, Window(branch, None, to, warehouse), Window(branch, None, from - 1, warehouse),
                Window(branch, Some(from), to, warehouse));
  }

  /** The two sums meet: opening plus the window is everything up to its end. */
  lemma BridgeEndsAtTheLedger(ms: seq<Movement>, branch: nat, from: int, to: int, warehouse: nat)
    requires from <= to + 1
    ensures BridgeOf(ms, branch, from, to, warehouse).closing == ClosingOf(ms, branch, to, warehouse)
  {
    WindowNets(ms, branch, from, to, warehouse);
  }

  /** One window's closing is the next one's opening. */
  lemma BridgesChain(ms: seq<Movement>, branch: nat, from: int, to: int, later: int, warehouse: nat)
    requires from <= to + 1
    ensures BridgeOf(ms, branch, from, to, warehouse).closing == BridgeOf(ms, branch, to + 1, later, warehouse).opening
  {
    BridgeEndsAtTheLedger(ms, branch, from, to, warehouse);
  }

  // ------------------------------------------------------------------ the bridge in plain terms

  /** Whether the movement lies in the window: its dates, and its branch and warehouse where one is asked about. */
  predicate Lies(m: Movement, branch: nat, from: Option<int>, to: int, warehouse: nat)
  {
    && (from.None? || from.value <= m.date) && m.date <= to
    && (branch == 0 || branch == m.branch) && (warehouse == 0 || warehouse == m.warehouse)
  }

  lemma WindowIs(m: Movement, branch: nat, from: Option<int>, to: int, warehouse: nat)
    ensures Window(branch, from, to, warehouse)(m) <==> Lies(m, branch, from, to, warehouse)
  {
  }

  /** The value a movement carries, a movement without one carrying nothing. */
  function Worth(m: Movement): int { if m.value.Some? then m.value.value else 0 }

  /** The ledger's value in a window, over the movements chosen. */
  function LedgerValue(
      ms: seq<Movement>, branch: nat, from: Option<int>, to: int, warehouse: nat, chosen: Movement -> bool): int
  {
    if ms == [] then 0
    else
      var m := ms[|ms| - 1];
      LedgerValue(ms[..|ms| - 1], branch, from, to, warehouse, chosen)
      + if Lies(m, branch, from, to, warehouse) && chosen(m) then Worth(m) else 0
  }

  lemma {:induction false} TotalIsLedgerValue(
      ms: seq<Movement>, branch: nat, from: Option<int>, to: int, warehouse: nat, chosen: Movement -> bool)
    ensures TotalWhere(ms, And(Window(branch, from, to, warehouse), chosen)).net
      == LedgerValue(ms, branch, from, to, warehouse, chosen)
  {
    if ms != [] {
      TotalIsLedgerValue(ms[..|ms| - 1], branch, from, to, warehouse, chosen);
      WindowIs(ms[|ms| - 1], branch, from, to, warehouse);
    }
  }

  function Any(): Movement -> bool { (m: Movement) => true }

  function OfFlow(f: FlowClass): Movement -> bool { (m: Movement) => FlowClassOf(m.docType) == f }

  function Of(kind: Kind): Movement -> bool { (m: Movement) => m.kind == kind }

  lemma PicksAlike(ms: seq<Movement>, p: Pick, q: Pick, r: Pick)
    requires forall m :: q(m) == r(m)
    ensures TotalWhere(ms, And(p, q)) == TotalWhere(ms, And(p, r))
  {
    SamePick(ms, And(p, q), And(p, r));
  }

  lemma WholeWindow(ms: seq<Movement>, branch: nat, from: Option<int>, to: int, warehouse: nat)
    ensures TotalWhere(ms, Window(branch, from, to, warehouse)).net
      == LedgerValue(ms, branch, from, to, warehouse, Any())
  {
    SamePick(ms, Window(branch, from, to, warehouse), And(Window(branch, from, to, warehouse), Any()));
    TotalIsLedgerValue(ms, branch, from, to, warehouse, Any());
  }

  /**
   The bridge's figures off the ledger: opening is what lies before the window, closing what
   lies up to its end, and the flows, the reversals and the revaluations what lies within it.
   */
  lemma BridgeIsTheLedger(ms: seq<Movement>, branch: nat, from: int, to: int, warehouse: nat)
    requires from <= to + 1
    ensures var b := BridgeOf(ms, branch, from, to, warehouse);
      && b.opening == LedgerValue(ms, branch, None, from - 1, warehouse, Any())
      && b.closing == LedgerValue(ms, branch, None, to, warehouse, Any())
      && b.inward.net == LedgerValue(ms, branch, Some(from), to, warehouse, OfFlow(FlowReceipt))
      && b.outward.net == LedgerValue(ms, branch, Some(from), to, warehouse, OfFlow(FlowIssue))
      && b.transfer.net == LedgerValue(ms, branch, Some(from), to, warehouse, OfFlow(FlowTransfer))
      && b.adjustment.net == LedgerValue(ms, branch, Some(from), to, warehouse, OfFlow(FlowAdjustment))
      && b.other.net == LedgerValue(ms, branch, Some(from), to, warehouse, OfFlow(FlowNone))
      && b.reversals.net == LedgerValue(ms, branch, Some(from), to, warehouse, Of(ReversalMove))
      && b.revaluations.net == LedgerValue(ms, branch, Some(from), to, warehouse, Of(RevaluationMove))
  {
    WholeWindow(ms, branch, None, from - 1, warehouse);
    WholeWindow(ms, branch, None, to, warehouse);
    BridgeEndsAtTheLedger(ms, branch, from, to, warehouse);
    var within := Window(branch, Some(from), to, warehouse);
    forall f: FlowClass
      ensures TotalWhere(ms, And(within, InFlow(f))).net
        == LedgerValue(ms, branch, Some(from), to, warehouse, OfFlow(f))
    {
      PicksAlike(ms, within, InFlow(f), OfFlow(f));
      TotalIsLedgerValue(ms, branch, Some(from), to, warehouse, OfFlow(f));
    }
    forall kind: Kind
      ensures TotalWhere(ms, And(within, OfKind(kind))).net
        == LedgerValue(ms, branch, Some(from), to, warehouse, Of(kind))
    {
      PicksAlike(ms, within, OfKind(kind), Of(kind));
      TotalIsLedgerValue(ms, branch, Some(from), to, warehouse, Of(kind));
    }
  }

  /** One movement alone: its value in its own gross half, counted, and counted apart where it has none. */
  lemma MovementAlone(m: Movement)
    ensures var b := BucketOf(m);
      && b.net == Worth(m) && b.movements == 1 && b.unvalued == (if m.value.None? then 1 else 0)
      && b.grossIn == (if 0 < Worth(m) then Worth(m) else 0) && b.grossOut == (if Worth(m) < 0 then -Worth(m) else 0)
  {
  }

  /** Figures add up one by one. */
  lemma FiguresAdd(a: Bucket, b: Bucket)
    ensures var c := Plus(a, b);
      && c.net == a.net + b.net && c.grossIn == a.grossIn + b.grossIn && c.grossOut == a.grossOut + b.grossOut
      && c.movements == a.movements + b.movements && c.unvalued == a.unvalued + b.unvalued
  {
  }

  /** A total counts each movement picked once. */
  lemma OneMovementMore(ms: seq<Movement>, m: Movement, p: Pick)
    ensures TotalWhere([], p) == Bucket(0, 0, 0, 0, 0)
    ensures TotalWhere(ms + [m], p)
      == if p(m) then Plus(TotalWhere(ms, p), BucketOf(m)) else Plus(TotalWhere(ms, p), Bucket(0, 0, 0, 0, 0))
  {
    assert (ms + [m])[..|ms|] == ms;
  }

  // ------------------------------------------------------------------ the lock and the bridge

  lemma {:induction false} NothingPicked(all: seq<Movement>, n: nat, p: Pick)
    requires n <= |all| && forall i :: n <= i < |all| ==> !p(all[i])
    ensures TotalWhere(all, p) == TotalWhere(all[..n], p)
  {
    if n == |all| {
      assert all[..n] == all;
    } else {
      var before := all[..|all| - 1];
      NothingPicked(before, n, p);
      assert before[..n] == all[..n];
      LastNotPicked(all, p);
    }
  }

  lemma {:induction false} LastNotPicked(all: seq<Movement>, p: Pick)
    requires all != [] && !p(all[|all| - 1])
    ensures TotalWhere(all, p) == TotalWhere(all[..|all| - 1], p)
  {
  }

  lemma BridgeIgnores(all: seq<Movement>, n: nat, before: Pick, within: Pick)
    requires n <= |all| && forall i :: n <= i < |all| ==> !before(all[i]) && !within(all[i])
    ensures BridgeFrom(all, before, within) == BridgeFrom(all[..n], before, within)
  {
    NothingPicked(all, n, before);
    NothingPicked(all, n, within);
    NothingPicked(all, n, And(within, InFlow(FlowReceipt)));
    NothingPicked(all, n, And(within, InFlow(FlowIssue)));
    NothingPicked(all, n, And(within, InFlow(FlowTransfer)));
    NothingPicked(all, n, And(within, InFlow(FlowAdjustment)));
    NothingPicked(all, n, And(within, InFlow(FlowNone)));
    NothingPicked(all, n, And(within, OfKind(ReversalMove)));
    NothingPicked(all, n, And(within, OfKind(RevaluationMove)));
  }

  /**
   A standing lock fixes the bridge of every window that ends under it, for the branch the
   lock covers, and for the whole company when the lock is the company's.
   */
  lemma LockFixesTheBridge(b: Books, k: nat, es: seq<Event>, branch: nat, from: int, to: int, warehouse: nat)
    requires k < |b.locks| && MovementsOk(b) && Release(k) !in es && !b.locks[k].released
    requires from <= to <= b.locks[k].upTo && (b.locks[k].branch == 0 || b.locks[k].branch == branch)
    ensures BridgeOf(Run(b, es).movements, branch, from, to, warehouse)
      == BridgeOf(b.movements, branch, from, to, warehouse)
  {
    LockFreezesItsPeriod(b, k, es);
    var n, all := |b.movements|, Run(b, es).movements;
    assert all[..n] == b.movements;
    BridgeIgnores(all, n, Window(branch, None, from - 1, warehouse), Window(branch, Some(from), to, warehouse));
  }

  /** One branch's lock does not fix the company's bridge: another branch can still post into the window. */
  lemma BranchLockLeavesTheCompanyOpen(lock: Lock, value: int)
    requires lock.branch != 0 && !lock.released
    ensures var d := Document(lock.branch + 1, lock.upTo, PurchaseReceipt, OnInvoice, Draft, []);
      var b := Books([lock], map[7 := d], []);
      var b' := Step(b, Post(7, [], [(0, Some(value))], []));
      ClosingOf(b.movements, 0, lock.upTo, 0) == 0 && ClosingOf(b'.movements, 0, lock.upTo, 0) == value
  {
    var d := Document(lock.branch + 1, lock.upTo, PurchaseReceipt, OnInvoice, Draft, []);
    var b := Books([lock], map[7 := d], []);
    var m := Movement(7, lock.branch + 1, 0, lock.upTo, PurchaseReceipt, PhysicalMove, Some(value));
    assert Open([lock], d.branch, d.date);
    var b' := Step(b, Post(7, [], [(0, Some(value))], []));
    assert b'.movements == [m];
    ClosingOfOne(b'.movements, m, value);
  }

  lemma ClosingOfOne(ms: seq<Movement>, m: Movement, value: int)
    requires ms == [m] && m.value == Some(value)
    ensures ClosingOf(ms, 0, m.date, 0) == value && ClosingOf([], 0, m.date, 0) == 0
  {
    var upTo := Window(0, None, m.date, 0);
    assert upTo(m);
    assert ms[..|ms| - 1] == [] && TotalWhere([], upTo) == ZERO;
    assert TotalWhere(ms, upTo) == Plus(ZERO, BucketOf(m));
  }
}
