/** The item-group code repair: plan, checks, apply and undo over the item, group and repair-log tables. */
module GroupRepair {
  import opened Outcomes
  import opened Text
  import opened Sequences

  datatype Item = Item(group: Option<nat>, sku: Option<string>, live: bool)

  datatype Group = Group(name: string, parent: Option<nat>, live: bool, active: bool)

  type Items = map<nat, Item>

  type Groups = map<nat, Group>

  datatype Move = Move(item: nat, oldGroup: nat, code: string)

  datatype LogRow = LogRow(
    run: nat, item: Option<nat>, oldGroup: Option<nat>, oldSku: Option<string>, retiredGroup: nat)

  datatype Plan = Plan(moves: seq<Move>, emptied: seq<nat>, skipped: seq<nat>)

  const SKU_LENGTH := 64

  function SkuText(item: Item): string { if item.sku.Some? then Trim(item.sku.value) else "" }

  // ------------------------------------------------------------------ the tables

  predicate InGroup(items: Items, i: nat, g: nat) { i in items && items[i].live && items[i].group == Some(g) }

  predicate LiveGroup(groups: Groups, g: nat) { g in groups && groups[g].live }

  /** A query returns every row of a table once, in an order of its own. */
  ghost predicate Lists<V>(order: seq<nat>, table: map<nat, V>)
  {
    && (forall i, j :: 0 <= i < j < |order| ==> order[i] != order[j])
    && (forall id :: id in order <==> id in table)
  }

  function Count(items: Items, order: seq<nat>, g: nat): nat
  {
    if order == [] then 0
    else Count(items, order[..|order| - 1], g) + if InGroup(items, order[|order| - 1], g) then 1 else 0
  }

  lemma {:induction false} CountZero(items: Items, order: seq<nat>, g: nat)
    ensures Count(items, order, g) == 0
      <==> forall i :: 0 <= i < |order| ==> !InGroup(items, order[i], g)
  {
    if order != [] {
      CountZero(items, order[..|order| - 1], g);
    }
  }

  lemma {:induction false} CountTwo(items: Items, order: seq<nat>, g: nat, i: nat, j: nat)
    requires i < j < |order| && InGroup(items, order[i], g) && InGroup(items, order[j], g)
    ensures 2 <= Count(items, order, g)
  {
    var before := order[..|order| - 1];
    assert before[i] == order[i];
    if j < |before| {
      assert before[j] == order[j];
      CountTwo(items, before, g, i, j);
    } else {
      CountZero(items, before, g);
    }
  }

  // ------------------------------------------------------------------ what a plan is

  /** A live group, not the target, holding exactly n live items. */
  ghost predicate Holds(items: Items, itemOrder: seq<nat>, groups: Groups, target: nat, g: nat, n: nat)
  {
    LiveGroup(groups, g) && g != target && Count(items, itemOrder, g) == n
  }

  /** The item is alone in its group. */
  ghost predicate Alone(items: Items, itemOrder: seq<nat>, groups: Groups, target: nat, i: nat)
  {
    i in items && items[i].live && items[i].group.Some?
      && Holds(items, itemOrder, groups, target, items[i].group.value, 1)
  }

  predicate MoveOk(items: Items, groups: Groups, m: Move)
  {
    && InGroup(items, m.item, m.oldGroup) && SkuText(items[m.item]) == ""
    && LiveGroup(groups, m.oldGroup) && m.code == Trim(groups[m.oldGroup].name)
  }

  predicate NoItemTwice(moves: seq<Move>) { forall i, j :: 0 <= i < j < |moves| ==> moves[i].item != moves[j].item }

  predicate Moves(moves: seq<Move>, i: nat) { exists k :: 0 <= k < |moves| && moves[k].item == i }

  /** Exactly the lone items without a code are moved, exactly the empty groups are listed. */
  ghost predicate PlanOf(p: Plan, items: Items, itemOrder: seq<nat>, groups: Groups, target: nat)
  {
    && NoItemTwice(p.moves)
    && (forall k :: 0 <= k < |p.moves| ==> MoveOk(items, groups, p.moves[k]) && p.moves[k].oldGroup != target)
    && (forall i :: Moves(p.moves, i) <==> Alone(items, itemOrder, groups, target, i) && SkuText(items[i]) == "")
    && (forall i :: i in p.skipped <==> Alone(items, itemOrder, groups, target, i) && SkuText(items[i]) != "")
    && (forall g :: g in p.emptied <==> Holds(items, itemOrder, groups, target, g, 0))
  }

  predicate Retires(p: Plan, g: nat) { g in p.emptied || exists k :: 0 <= k < |p.moves| && p.moves[k].oldGroup == g }

  // ------------------------------------------------------------------ the checks

  predicate CodeFits(m: Move) { m.code != "" && |m.code| <= SKU_LENGTH }

  predicate CodesDiffer(moves: seq<Move>)
  {
    forall i, j :: 0 <= i < j < |moves| ==> Fold(moves[i].code) != Fold(moves[j].code)
  }

  /** A live item that stays put already carries one of the codes. */
  predicate Clashes(items: Items, moves: seq<Move>, i: nat)
  {
    && i in items && items[i].live && items[i].sku.Some? && !Moves(moves, i)
    && exists k :: 0 <= k < |moves| && Fold(items[i].sku.value) == Fold(moves[k].code)
  }

  predicate CodesOk(items: Items, moves: seq<Move>)
  {
    && (forall k :: 0 <= k < |moves| ==> CodeFits(moves[k]))
    && CodesDiffer(moves)
    && (forall i :: i in items ==> !Clashes(items, moves, i))
  }

  predicate Orphaned(groups: Groups, retiring: seq<nat>, g: nat)
  {
    LiveGroup(groups, g) && groups[g].parent.Some? && groups[g].parent.value in retiring && g !in retiring
  }

  // ------------------------------------------------------------------ apply and undo, as functions

  function ApplyMoves(items: Items, moves: seq<Move>, target: nat): (out: Items)
    ensures out.Keys == items.Keys
  {
    if moves == [] then items
    else
      var m, t := moves[|moves| - 1], ApplyMoves(items, moves[..|moves| - 1], target);
      if m.item in t then t[m.item := t[m.item].(sku := Some(m.code), group := Some(target))] else t
  }

  /** One UPDATE over a list of ids. */
  function SetGroups(groups: Groups, ids: seq<nat>, alive: bool): (out: Groups)
    ensures out.Keys == groups.Keys
  {
    map g | g in groups :: if g in ids then groups[g].(live := alive, active := alive) else groups[g]
  }

  function MoveLog(run: nat, moves: seq<Move>): (rows: seq<LogRow>)
    ensures |rows| == |moves|
  {
    seq(|moves|, k requires 0 <= k < |moves| =>
      LogRow(run, Some(moves[k].item), Some(moves[k].oldGroup), None, moves[k].oldGroup))
  }

  function EmptyLog(run: nat, emptied: seq<nat>): (rows: seq<LogRow>)
    ensures |rows| == |emptied|
  {
    seq(|emptied|, k requires 0 <= k < |emptied| => LogRow(run, None, None, None, emptied[k]))
  }

  function RunLog(run: nat, p: Plan): seq<LogRow> { MoveLog(run, p.moves) + EmptyLog(run, p.emptied) }

  function RetireIds(p: Plan): seq<nat>
  {
    seq(|p.moves|, k requires 0 <= k < |p.moves| => p.moves[k].oldGroup) + p.emptied
  }

  function RetiredIds(rows: seq<LogRow>): (ids: seq<nat>)
    ensures |ids| == |rows|
  {
    seq(|rows|, k requires 0 <= k < |rows| => rows[k].retiredGroup)
  }

  function RestoreItems(items: Items, rows: seq<LogRow>): (out: Items)
    ensures out.Keys == items.Keys
  {
    if rows == [] then items
    else
      var r, t := rows[|rows| - 1], RestoreItems(items, rows[..|rows| - 1]);
      if r.item.Some? && r.item.value in t
      then t[r.item.value := t[r.item.value].(sku := r.oldSku, group := r.oldGroup)] else t
  }

  function RowsOf(log: seq<LogRow>, run: nat): seq<LogRow>
  {
    if log == [] then []
    else RowsOf(log[..|log| - 1], run) + if log[|log| - 1].run == run then [log[|log| - 1]] else []
  }

  function RowsNotOf(log: seq<LogRow>, run: nat): seq<LogRow>
  {
    if log == [] then []
    else RowsNotOf(log[..|log| - 1], run) + if log[|log| - 1].run != run then [log[|log| - 1]] else []
  }

  // ------------------------------------------------------------------ collecting the plan

  ghost predicate MovesCollected(moves: seq<Move>, items: Items, order: seq<nat>, n: nat, groups: Groups, target: nat)
    requires n <= |order|
  {
    && NoItemTwice(moves)
    && (forall j :: 0 <= j < |moves| ==> MoveOk(items, groups, moves[j]) && moves[j].oldGroup != target)
    && (forall i ::
        Moves(moves, i) <==> i in order[..n] && Alone(items, order, groups, target, i) && SkuText(items[i]) == "")
  }

  ghost predicate SkippedCollected(
      skipped: seq<nat>, items: Items, order: seq<nat>, n: nat, groups: Groups, target: nat)
    requires n <= |order|
  {
    forall i :: i in skipped <==> i in order[..n] && Alone(items, order, groups, target, i) && SkuText(items[i]) != ""
  }

  lemma MoveStep(moves: seq<Move>, items: Items, order: seq<nat>, n: nat, groups: Groups, target: nat)
    requires n < |order| && Lists(order, items) && MovesCollected(moves, items, order, n, groups, target)
    ensures var id := order[n];
      if Alone(items, order, groups, target, id) && SkuText(items[id]) == ""
      then
        var g := items[id].group.value;
        MovesCollected(moves + [Move(id, g, Trim(groups[g].name))], items, order, n + 1, groups, target)
      else MovesCollected(moves, items, order, n + 1, groups, target)
  {
    var id := order[n];
    assert order[..n + 1] == order[..n] + [id];
    if Alone(items, order, groups, target, id) && SkuText(items[id]) == "" {
      var m := Move(id, items[id].group.value, Trim(groups[items[id].group.value].name));
      MovesAppend(moves, m);
      assert !Moves(moves, id);
    }
  }

  // ------------------------------------------------------------------ the command

  class RepairTables {
    var items: Items
    var groups: Groups
    var log: seq<LogRow>

    /** One query: how many live items each group holds. */
    method CountByGroup(itemOrder: seq<nat>) returns (counts: map<nat, nat>)
      requires Lists(itemOrder, items)
      ensures forall g ::
        (if g in counts then counts[g] else 0) == Count(items, itemOrder, g)
    {
      counts := map[];
      for k := 0 to |itemOrder|
        invariant forall g :: (if g in counts then counts[g] else 0) == Count(items, itemOrder[..k], g)
      {
        assert itemOrder[..k + 1][..k] == itemOrder[..k];
        assert itemOrder[k] in itemOrder;
        var item := items[itemOrder[k]];
        if item.live && item.group.Some? {
          var g := item.group.value;
          counts := counts[g := (if g in counts then counts[g] else 0) + 1];
        }
      }
      assert itemOrder[..|itemOrder|] == itemOrder;
    }

    method SortGroups(itemOrder: seq<nat>, groupOrder: seq<nat>, target: nat)
      returns (singles: map<nat, string>, emptied: seq<nat>)
      requires Lists(itemOrder, items) && Lists(groupOrder, groups)
      ensures forall g :: g in singles <==> Holds(items, itemOrder, groups, target, g, 1)
      ensures forall g :: g in singles ==> g in groups && singles[g] == Trim(groups[g].name)
      ensures forall g :: g in emptied <==> Holds(items, itemOrder, groups, target, g, 0)
    {
      var counts := CountByGroup(itemOrder);
      singles, emptied := map[], [];
      for k := 0 to |groupOrder|
        invariant forall g :: g in singles <==> g in groupOrder[..k] && Holds(items, itemOrder, groups, target, g, 1)
        invariant forall g :: g in singles ==> singles[g] == Trim(groups[g].name)
        invariant forall g :: g in emptied <==> g in groupOrder[..k] && Holds(items, itemOrder, groups, target, g, 0)
      {
        var gid := groupOrder[k];
        assert groupOrder[..k + 1] == groupOrder[..k] + [gid];
        assert gid in groupOrder;
        if !groups[gid].live || gid == target {
          continue;
        }
        var n := if gid in counts then counts[gid] else 0;
        if n == 0 {
          emptied := emptied + [gid];
        } else if n == 1 {
          singles := singles[gid := Trim(groups[gid].name)];
        }
      }
      assert groupOrder[..|groupOrder|] == groupOrder;
    }

    method CollectMoves(itemOrder: seq<nat>, groupOrder: seq<nat>, target: nat) returns (p: Plan)
      requires Lists(itemOrder, items) && Lists(groupOrder, groups)
      ensures PlanOf(p, items, itemOrder, groups, target)
    {
      var singles, emptied := SortGroups(itemOrder, groupOrder, target);
      var moves: seq<Move>, skipped: seq<nat> := [], [];
      for k := 0 to |itemOrder|
        invariant MovesCollected(moves, items, itemOrder, k, groups, target)
        invariant SkippedCollected(skipped, items, itemOrder, k, groups, target)
      {
        var id := itemOrder[k];
        assert id in itemOrder;
        var item := items[id];
        MoveStep(moves, items, itemOrder, k, groups, target);
        if item.live && item.group.Some? && item.group.value in singles {
          if SkuText(item) != "" {
            skipped := skipped + [id];
          } else {
            moves := moves + [Move(id, item.group.value, singles[item.group.value])];
          }
        }
      }
      p := Plan(moves, emptied, skipped);
    }

    method VerifyCodes(itemOrder: seq<nat>, moves: seq<Move>) returns (ok: bool)
      requires Lists(itemOrder, items)
      ensures ok <==> CodesOk(items, moves)
    {
      var problems := 0;
      var seen: map<string, nat> := map[];
      for k := 0 to |moves|
        invariant 0 <= problems
        invariant problems == 0 <==> (forall j :: 0 <= j < k ==> CodeFits(moves[j])) && CodesDiffer(moves[..k])
        invariant problems == 0 ==> forall key :: key in seen <==> exists j :: 0 <= j < k && Fold(moves[j].code) == key
      {
        DifferAppend(moves[..k], moves[k]);
        assert moves[..k + 1] == moves[..k] + [moves[k]];
        var code := moves[k].code;
        if code == "" {
          problems := problems + 1;
          continue;
        }
        if |code| > SKU_LENGTH {
          problems := problems + 1;
        }
        var key := Fold(code);
        if key in seen {
          problems := problems + 1;
        }
        seen := seen[key := moves[k].item];
      }
      assert moves[..|moves|] == moves;
      var clashes := CountClashes(itemOrder, moves);
      ok := problems == 0 && clashes == 0;
    }

    method CountClashes(itemOrder: seq<nat>, moves: seq<Move>) returns (clashes: nat)
      requires Lists(itemOrder, items)
      ensures clashes == 0 <==> forall i :: i in items ==> !Clashes(items, moves, i)
    {
      clashes := 0;
      for n := 0 to |itemOrder|
        invariant clashes == 0 <==> forall i :: i in itemOrder[..n] ==> !Clashes(items, moves, i)
      {
        var id := itemOrder[n];
        assert itemOrder[..n + 1] == itemOrder[..n] + [id];
        if Clashes(items, moves, id) {
          clashes := clashes + 1;
        }
      }
      assert itemOrder[..|itemOrder|] == itemOrder;
    }

    method VerifyNoChildrenOrphaned(groupOrder: seq<nat>, retiring: seq<nat>) returns (ok: bool)
      requires Lists(groupOrder, groups)
      ensures ok <==> forall g :: g in groups ==> !Orphaned(groups, retiring, g)
    {
      if retiring == [] {
        return true;
      }
      var orphans := 0;
      for k := 0 to |groupOrder|
        invariant 0 <= orphans
        invariant orphans == 0 <==> forall g :: g in groupOrder[..k] ==> !Orphaned(groups, retiring, g)
      {
        var gid := groupOrder[k];
        assert groupOrder[..k + 1] == groupOrder[..k] + [gid];
        if Orphaned(groups, retiring, gid) {
          orphans := orphans + 1;
        }
      }
      assert groupOrder[..|groupOrder|] == groupOrder;
      ok := orphans == 0;
    }

    /** No plan when a check fails; otherwise the plan, with both checks passed. */
    method BuildPlan(itemOrder: seq<nat>, groupOrder: seq<nat>, target: nat) returns (r: Option<Plan>)
      requires Lists(itemOrder, items) && Lists(groupOrder, groups)
      ensures r.Some? ==>
        PlanOf(r.value, items, itemOrder, groups, target) && Checked(r.value, items, groups)
      ensures r.None? ==>
        exists p :: PlanOf(p, items, itemOrder, groups, target) && !Checked(p, items, groups)
    {
      var p := CollectMoves(itemOrder, groupOrder, target);
      var codesOk := VerifyCodes(itemOrder, p.moves);
      if !codesOk {
        return None;
      }
      var parentsOk := VerifyNoChildrenOrphaned(groupOrder, RetireIds(p));
      if !parentsOk {
        return None;
      }
      r := Some(p);
    }

    method Apply(p: Plan, target: nat, run: nat)
      modifies this
      ensures Tables(items, groups, log) == Applied(old(Tables(items, groups, log)), p, target, run)
    {
      var before := log;
      for k := 0 to |p.moves|
        invariant items == ApplyMoves(old(items), p.moves[..k], target)
        invariant groups == old(groups) && log == before + MoveLog(run, p.moves[..k])
      {
        var m := p.moves[k];
        assert p.moves[..k + 1][..k] == p.moves[..k];
        if m.item in items {
          items := items[m.item := items[m.item].(sku := Some(m.code), group := Some(target))];
        }
        log := log + [LogRow(run, Some(m.item), Some(m.oldGroup), None, m.oldGroup)];
        assert MoveLog(run, p.moves[..k + 1])
          == MoveLog(run, p.moves[..k]) + [LogRow(run, Some(m.item), Some(m.oldGroup), None, m.oldGroup)];
      }
      assert p.moves[..|p.moves|] == p.moves;
      groups := SetGroups(groups, RetireIds(p), false);
      var moved := log;
      for k := 0 to |p.emptied|
        invariant items == ApplyMoves(old(items), p.moves, target)
        invariant groups == SetGroups(old(groups), RetireIds(p), false) && log == moved + EmptyLog(run, p.emptied[..k])
      {
        log := log + [LogRow(run, None, None, None, p.emptied[k])];
        assert EmptyLog(run, p.emptied[..k + 1])
          == EmptyLog(run, p.emptied[..k]) + [LogRow(run, None, None, None, p.emptied[k])];
      }
      assert p.emptied[..|p.emptied|] == p.emptied;
    }

    method Undo(run: nat) returns (done: bool)
      modifies this
      ensures done <==> RowsOf(old(log), run) != []
      ensures Tables(items, groups, log) == Undone(old(Tables(items, groups, log)), run)
    {
      var rows := RowsOf(log, run);
      if rows == [] {
        return false;
      }
      groups := SetGroups(groups, RetiredIds(rows), true);
      for k := 0 to |rows|
        invariant items == RestoreItems(old(items), rows[..k])
        invariant groups == SetGroups(old(groups), RetiredIds(rows), true) && log == old(log)
      {
        var r := rows[k];
        assert rows[..k + 1][..k] == rows[..k];
        if r.item.Some? && r.item.value in items {
          items := items[r.item.value := items[r.item.value].(sku := r.oldSku, group := r.oldGroup)];
        }
      }
      assert rows[..|rows|] == rows;
      log := RowsNotOf(log, run);
      done := true;
    }
  }

  predicate Checked(p: Plan, items: Items, groups: Groups)
  {
    CodesOk(items, p.moves) && forall g :: g in groups ==> !Orphaned(groups, RetireIds(p), g)
  }

  lemma MovesAppend(moves: seq<Move>, m: Move)
    ensures forall i :: Moves(moves + [m], i) <==> Moves(moves, i) || i == m.item
  {
    forall i
      ensures Moves(moves + [m], i) <==> Moves(moves, i) || i == m.item
    {
      if Moves(moves, i) {
        var k :| 0 <= k < |moves| && moves[k].item == i;
        assert (moves + [m])[k].item == i;
      }
      if i == m.item {
        assert (moves + [m])[|moves|].item == i;
      }
    }
  }

  lemma DifferAppend(moves: seq<Move>, m: Move)
    ensures CodesDiffer(moves + [m])
      <==> CodesDiffer(moves) && forall j :: 0 <= j < |moves| ==> Fold(moves[j].code) != Fold(m.code)
  {
    var all := moves + [m];
    if CodesDiffer(all) {
      forall i, j | 0 <= i < j < |moves|
        ensures Fold(moves[i].code) != Fold(moves[j].code)
      {
        assert all[i] == moves[i] && all[j] == moves[j];
      }
      forall j | 0 <= j < |moves|
        ensures Fold(moves[j].code) != Fold(m.code)
      {
        assert all[j] == moves[j] && all[|moves|] == m;
      }
    }
  }

  // ------------------------------------------------------------------ the repair keeps integrity

  predicate Carries(items: Items, i: nat) { i in items && items[i].live && items[i].sku.Some? }

  ghost predicate SkusDiffer(items: Items)
  {
    forall i, j :: Carries(items, i) && Carries(items, j) && i != j ==>
      Fold(items[i].sku.value) != Fold(items[j].sku.value)
  }

  ghost predicate ItemsGrouped(items: Items, groups: Groups)
  {
    forall i :: i in items && items[i].live && items[i].group.Some? ==> LiveGroup(groups, items[i].group.value)
  }

  ghost predicate ParentsLive(groups: Groups)
  {
    forall g :: LiveGroup(groups, g) && groups[g].parent.Some? ==> LiveGroup(groups, groups[g].parent.value)
  }

  ghost predicate Integrity(items: Items, groups: Groups)
  {
    SkusDiffer(items) && ItemsGrouped(items, groups) && ParentsLive(groups)
  }

  lemma {:induction false} Unmoved(items: Items, moves: seq<Move>, target: nat, i: nat)
    requires i in items && !Moves(moves, i)
    ensures ApplyMoves(items, moves, target)[i] == items[i]
  {
    if moves != [] {
      var before := moves[..|moves| - 1];
      assert forall k :: 0 <= k < |before| ==> before[k] == moves[k];
      Unmoved(items, before, target, i);
    }
  }

  lemma {:induction false} MovedTo(items: Items, moves: seq<Move>, target: nat, k: nat)
    requires NoItemTwice(moves) && k < |moves| && moves[k].item in items
    ensures var i := moves[k].item;
      ApplyMoves(items, moves, target)[i] == items[i].(sku := Some(moves[k].code), group := Some(target))
  {
    var before := moves[..|moves| - 1];
    if k < |before| {
      MovedTo(items, before, target, k);
      assert before[k] == moves[k];
    } else {
      assert !Moves(before, moves[k].item);
      Unmoved(items, before, target, moves[k].item);
    }
  }

  /** Whatever an item carries after the repair, either it kept it or a move gave it. */
  lemma WhereItsCodeIsFrom(items: Items, moves: seq<Move>, target: nat, i: nat) returns (k: nat)
    requires NoItemTwice(moves) && i in items
    ensures k < |moves| ==>
      moves[k].item == i
        && ApplyMoves(items, moves, target)[i] == items[i].(sku := Some(moves[k].code), group := Some(target))
    ensures k == |moves| ==>
      !Moves(moves, i) && ApplyMoves(items, moves, target)[i] == items[i]
    ensures k <= |moves|
  {
    if Moves(moves, i) {
      k :| 0 <= k < |moves| && moves[k].item == i;
      MovedTo(items, moves, target, k);
    } else {
      k := |moves|;
      Unmoved(items, moves, target, i);
    }
  }

  lemma MovedCodesDiffer(items: Items, moves: seq<Move>, target: nat, i: nat, j: nat)
    requires NoItemTwice(moves) && CodesOk(items, moves) && SkusDiffer(items) && i != j
    requires var out := ApplyMoves(items, moves, target); Carries(out, i) && Carries(out, j)
    ensures var out := ApplyMoves(items, moves, target);
      Fold(out[i].sku.value) != Fold(out[j].sku.value)
  {
    var ki := WhereItsCodeIsFrom(items, moves, target, i);
    var kj := WhereItsCodeIsFrom(items, moves, target, j);
    if ki == |moves| && kj == |moves| {
      assert Carries(items, i) && Carries(items, j);
    } else if ki == |moves| {
      assert !Clashes(items, moves, i);
    } else if kj == |moves| {
      assert !Clashes(items, moves, j);
    }
  }

  lemma InRetireIds(p: Plan, g: nat)
    ensures g in RetireIds(p) <==> Retires(p, g)
  {
    var ids := RetireIds(p);
    if Retires(p, g) {
      if g in p.emptied {
        var e := PositionOf(p.emptied, g);
        assert ids[|p.moves| + e] == g;
      } else {
        var k :| 0 <= k < |p.moves| && p.moves[k].oldGroup == g;
        assert ids[k] == g;
      }
    }
    if g in ids {
      var e := PositionOf(ids, g);
      if e < |p.moves| {
        assert p.moves[e].oldGroup == g;
      } else {
        assert p.emptied[e - |p.moves|] == g;
      }
    }
  }

  /** A live item left where it was is in no retired group. */
  lemma StayersKeepTheirGroup(p: Plan, items: Items, order: seq<nat>, groups: Groups, target: nat, i: nat)
    requires Lists(order, items) && PlanOf(p, items, order, groups, target)
    requires i in items && items[i].live && items[i].group.Some? && !Moves(p.moves, i)
    ensures !Retires(p, items[i].group.value)
  {
    var g := items[i].group.value;
    var at := PositionOf(order, i);
    if g in p.emptied {
      CountZero(items, order, g);
      assert InGroup(items, order[at], g);
    }
    if exists k :: 0 <= k < |p.moves| && p.moves[k].oldGroup == g {
      var k :| 0 <= k < |p.moves| && p.moves[k].oldGroup == g;
      var other := p.moves[k].item;
      assert Moves(p.moves, other);
      assert MoveOk(items, groups, p.moves[k]);
      var there := PositionOf(order, other);
      if at < there {
        CountTwo(items, order, g, at, there);
      } else {
        CountTwo(items, order, g, there, at);
      }
    }
  }

  lemma MovedItemsAreGrouped(p: Plan, items: Items, order: seq<nat>, groups: Groups, target: nat, i: nat)
    requires Lists(order, items) && PlanOf(p, items, order, groups, target)
    requires ItemsGrouped(items, groups) && LiveGroup(groups, target)
    requires var out := ApplyMoves(items, p.moves, target); i in out && out[i].live && out[i].group.Some?
    ensures LiveGroup(SetGroups(groups, RetireIds(p), false), ApplyMoves(items, p.moves, target)[i].group.value)
  {
    var k := WhereItsCodeIsFrom(items, p.moves, target, i);
    if k < |p.moves| {
      InRetireIds(p, target);
    } else {
      StayersKeepTheirGroup(p, items, order, groups, target, i);
      InRetireIds(p, items[i].group.value);
    }
  }

  /** Applying a checked plan keeps codes unique, items in live groups and parents live. */
  lemma ApplyKeepsIntegrity(p: Plan, items: Items, order: seq<nat>, groups: Groups, target: nat)
    requires Lists(order, items) && PlanOf(p, items, order, groups, target) && Checked(p, items, groups)
    requires Integrity(items, groups) && LiveGroup(groups, target)
    ensures Integrity(ApplyMoves(items, p.moves, target), SetGroups(groups, RetireIds(p), false))
  {
    var out, after := ApplyMoves(items, p.moves, target), SetGroups(groups, RetireIds(p), false);
    forall i, j | Carries(out, i) && Carries(out, j) && i != j
      ensures Fold(out[i].sku.value) != Fold(out[j].sku.value)
    {
      MovedCodesDiffer(items, p.moves, target, i, j);
    }
    forall i | i in out && out[i].live && out[i].group.Some?
      ensures LiveGroup(after, out[i].group.value)
    {
      MovedItemsAreGrouped(p, items, order, groups, target, i);
    }
  }

  // ------------------------------------------------------------------ what the repair does to each row

  /** The only live item of a group. */
  predicate OnlyItem(items: Items, i: nat, g: nat)
  {
    && i in items && items[i].live && items[i].group == Some(g)
    && forall j :: j in items && items[j].live && items[j].group == Some(g) ==> j == i
  }

  predicate NoItem(items: Items, g: nat) { forall j :: j in items && items[j].live ==> items[j].group != Some(g) }

  /** No code, or nothing but blanks for one. */
  predicate WithoutCode(item: Item) { item.sku.None? || Trim(item.sku.value) == "" }

  lemma {:induction false} CountOnly(items: Items, order: seq<nat>, g: nat, i: nat)
    requires forall j, k :: 0 <= j < k < |order| ==> order[j] != order[k]
    requires OnlyItem(items, i, g)
    ensures Count(items, order, g) == if i in order then 1 else 0
  {
    if order != [] {
      var before, last := order[..|order| - 1], order[|order| - 1];
      assert order == before + [last];
      assert last !in before;
      CountOnly(items, before, g, i);
    }
  }

  lemma CountIsOne(items: Items, order: seq<nat>, g: nat, i: nat)
    requires Lists(order, items) && InGroup(items, i, g)
    ensures Count(items, order, g) == 1 <==> OnlyItem(items, i, g)
  {
    if OnlyItem(items, i, g) {
      CountOnly(items, order, g, i);
    } else {
      var j :| j in items && items[j].live && items[j].group == Some(g) && j != i;
      var x := PositionOf(order, i);
      var y := PositionOf(order, j);
      if x < y {
        CountTwo(items, order, g, x, y);
      } else {
        CountTwo(items, order, g, y, x);
      }
    }
  }

  lemma CountIsNone(items: Items, order: seq<nat>, g: nat)
    requires Lists(order, items)
    ensures Count(items, order, g) == 0 <==> NoItem(items, g)
  {
    CountZero(items, order, g);
    if Count(items, order, g) == 0 {
      forall j | j in items && items[j].live
        ensures items[j].group != Some(g)
      {
        var x := PositionOf(order, j);
      }
    }
  }

  /**
   The only live item of a live group other than the target's, without a code, takes the
   group's name for its code.
   */
  predicate Repaired(items: Items, groups: Groups, target: nat, i: nat)
  {
    && i in items && items[i].live && items[i].group.Some?
    && var g := items[i].group.value;
       g in groups && groups[g].live && g != target && OnlyItem(items, i, g) && WithoutCode(items[i])
  }

  lemma MovesAreRepairs(p: Plan, items: Items, order: seq<nat>, groups: Groups, target: nat, i: nat)
    requires Lists(order, items) && PlanOf(p, items, order, groups, target)
    ensures Moves(p.moves, i) <==> Repaired(items, groups, target, i)
  {
    if i in items && items[i].live && items[i].group.Some? {
      CountIsOne(items, order, items[i].group.value, i);
    }
  }

  /** Left alone and reported: the only items of their groups that have a code already. */
  lemma SkippedHaveCodes(p: Plan, items: Items, order: seq<nat>, groups: Groups, target: nat, i: nat)
    requires Lists(order, items) && PlanOf(p, items, order, groups, target)
    ensures i in p.skipped
      <==> i in items && items[i].live && items[i].group.Some? && !WithoutCode(items[i])
           && var g := items[i].group.value;
              g in groups && groups[g].live && g != target && OnlyItem(items, i, g)
  {
    if i in items && items[i].live && items[i].group.Some? {
      CountIsOne(items, order, items[i].group.value, i);
    }
  }

  /** Every item after the repair: moved to the target under its group's name, trimmed, or exactly as it was. */
  lemma RepairGivesCodes(
      p: Plan, items: Items, order: seq<nat>, groups: Groups, log: seq<LogRow>, target: nat, run: nat, i: nat)
    requires Lists(order, items) && PlanOf(p, items, order, groups, target) && i in items
    ensures var after := Applied(Tables(items, groups, log), p, target, run).items;
      after.Keys == items.Keys && after[i]
      == if Repaired(items, groups, target, i)
         then Item(Some(target), Some(Trim(groups[items[i].group.value].name)), true) else items[i]
  {
    MovesAreRepairs(p, items, order, groups, target, i);
    var k := WhereItsCodeIsFrom(items, p.moves, target, i);
    if k < |p.moves| {
      assert MoveOk(items, groups, p.moves[k]);
    }
  }

  /** Every group after it: retired where it was empty or its only item was moved, or exactly as it was. */
  lemma RepairRetiresGroups(
      p: Plan, items: Items, order: seq<nat>, groups: Groups, log: seq<LogRow>, target: nat, run: nat, g: nat)
    requires Lists(order, items) && PlanOf(p, items, order, groups, target) && g in groups
    ensures var after := Applied(Tables(items, groups, log), p, target, run).groups;
      after.Keys == groups.Keys && after[g]
      == if groups[g].live && g != target
            && (NoItem(items, g) || exists i :: OnlyItem(items, i, g) && WithoutCode(items[i]))
         then groups[g].(live := false, active := false) else groups[g]
  {
    InRetireIds(p, g);
    CountIsNone(items, order, g);
    if i :| OnlyItem(items, i, g) && WithoutCode(items[i]) {
      MovesAreRepairs(p, items, order, groups, target, i);
      if Moves(p.moves, i) {
        var k :| 0 <= k < |p.moves| && p.moves[k].item == i;
        assert MoveOk(items, groups, p.moves[k]);
      }
    }
    if k :| 0 <= k < |p.moves| && p.moves[k].oldGroup == g {
      assert MoveOk(items, groups, p.moves[k]);
      assert Moves(p.moves, p.moves[k].item);
      MovesAreRepairs(p, items, order, groups, target, p.moves[k].item);
    }
  }

  /**
   When the codes of a plan may be given: none empty or too long, no two alike, none carried by
   an item that stays.
   */
  lemma CodesMayBeGiven(items: Items, moves: seq<Move>)
    ensures CodesOk(items, moves)
      <==> (forall k :: 0 <= k < |moves| ==> 0 < |moves[k].code| <= 64)
           && (forall j, k :: 0 <= j < k < |moves| ==> Fold(moves[j].code) != Fold(moves[k].code))
           && (forall i, k ::
               i in items && items[i].live && items[i].sku.Some? && !Moves(moves, i) && 0 <= k < |moves| ==>
               Fold(items[i].sku.value) != Fold(moves[k].code))
  {
    if CodesOk(items, moves) {
      forall i, k | i in items && items[i].live && items[i].sku.Some? && !Moves(moves, i) && 0 <= k < |moves|
        ensures Fold(items[i].sku.value) != Fold(moves[k].code)
      {
        assert !Clashes(items, moves, i);
      }
    }
  }

  /** A plan leaves an orphan where a live group it does not retire has a parent it does. */
  lemma OrphansAre(groups: Groups, retiring: seq<nat>, g: nat)
    ensures Orphaned(groups, retiring, g)
      <==> g in groups && groups[g].live && g !in retiring
           && groups[g].parent.Some? && groups[g].parent.value in retiring
  {
  }

  // ------------------------------------------------------------------ undo

  lemma {:induction false} AllOfRun(rows: seq<LogRow>, run: nat)
    requires forall k :: 0 <= k < |rows| ==> rows[k].run == run
    ensures RowsOf(rows, run) == rows && RowsNotOf(rows, run) == []
  {
    if rows != [] {
      AllOfRun(rows[..|rows| - 1], run);
      assert rows == rows[..|rows| - 1] + [rows[|rows| - 1]];
    }
  }

  lemma {:induction false} NoneOfRun(rows: seq<LogRow>, run: nat)
    requires forall k :: 0 <= k < |rows| ==> rows[k].run != run
    ensures RowsOf(rows, run) == [] && RowsNotOf(rows, run) == rows
  {
    if rows != [] {
      NoneOfRun(rows[..|rows| - 1], run);
      assert rows == rows[..|rows| - 1] + [rows[|rows| - 1]];
    }
  }

  lemma {:induction false} RowsSplit(a: seq<LogRow>, b: seq<LogRow>, run: nat)
    ensures RowsOf(a + b, run) == RowsOf(a, run) + RowsOf(b, run)
    ensures RowsNotOf(a + b, run) == RowsNotOf(a, run) + RowsNotOf(b, run)
  {
    if b == [] {
      assert a + b == a;
    } else {
      assert (a + b)[..|a + b| - 1] == a + b[..|b| - 1];
      RowsSplit(a, b[..|b| - 1], run);
    }
  }

  predicate Restores(rows: seq<LogRow>, i: nat) { exists k :: 0 <= k < |rows| && rows[k].item == Some(i) }

  lemma {:induction false} NotRestored(items: Items, rows: seq<LogRow>, i: nat)
    requires i in items && !Restores(rows, i)
    ensures RestoreItems(items, rows)[i] == items[i]
  {
    if rows != [] {
      var before := rows[..|rows| - 1];
      assert forall k :: 0 <= k < |before| ==> before[k] == rows[k];
      assert rows[|rows| - 1].item != Some(i);
      NotRestored(items, before, i);
    }
  }

  lemma {:induction false} RestoredTo(items: Items, rows: seq<LogRow>, k: nat, i: nat)
    requires k < |rows| && rows[k].item == Some(i) && i in items
    requires forall j :: k < j < |rows| ==> rows[j].item != Some(i)
    ensures RestoreItems(items, rows)[i] == items[i].(sku := rows[k].oldSku, group := rows[k].oldGroup)
  {
    var before := rows[..|rows| - 1];
    if k < |before| {
      RestoredTo(items, before, k, i);
    } else {
      SkuAndGroupOnly(items, before, i);
    }
  }

  lemma {:induction false} SkuAndGroupOnly(items: Items, rows: seq<LogRow>, i: nat)
    requires i in items
    ensures RestoreItems(items, rows)[i].live == items[i].live
  {
    if rows != [] {
      SkuAndGroupOnly(items, rows[..|rows| - 1], i);
    }
  }

  lemma RunLogRows(run: nat, p: Plan, i: nat)
    requires NoItemTwice(p.moves)
    ensures Restores(RunLog(run, p), i) <==> Moves(p.moves, i)
    ensures forall k :: 0 <= k < |p.moves| && p.moves[k].item == i ==>
      RunLog(run, p)[k].item == Some(i) && forall j :: k < j < |RunLog(run, p)| ==> RunLog(run, p)[j].item != Some(i)
  {
    var rows := RunLog(run, p);
    if Moves(p.moves, i) {
      var k :| 0 <= k < |p.moves| && p.moves[k].item == i;
      assert rows[k].item == Some(i);
    }
  }

  /** One item, applied and undone: its group is back, its code is none. */
  lemma ItemComesBack(p: Plan, items: Items, order: seq<nat>, groups: Groups, target: nat, run: nat, i: nat)
    requires PlanOf(p, items, order, groups, target) && i in items
    ensures RestoreItems(ApplyMoves(items, p.moves, target), RunLog(run, p))[i]
         == if Moves(p.moves, i) then items[i].(sku := None) else items[i]
  {
    var out, rows := ApplyMoves(items, p.moves, target), RunLog(run, p);
    var k := WhereItsCodeIsFrom(items, p.moves, target, i);
    RunLogRows(run, p, i);
    if k < |p.moves| {
      RestoredTo(out, rows, k, i);
      assert MoveOk(items, groups, p.moves[k]);
      assert rows[k] == MoveLog(run, p.moves)[k];
    } else {
      NotRestored(out, rows, i);
    }
  }

  lemma RetiredIdsAre(run: nat, p: Plan)
    ensures RetiredIds(RunLog(run, p)) == RetireIds(p)
  {
  }

  lemma GroupComesBack(p: Plan, items: Items, order: seq<nat>, groups: Groups, target: nat, g: nat)
    requires PlanOf(p, items, order, groups, target) && g in groups
    ensures SetGroups(SetGroups(groups, RetireIds(p), false), RetireIds(p), true)[g]
         == if Retires(p, g) then groups[g].(active := true) else groups[g]
  {
    InRetireIds(p, g);
    if Retires(p, g) {
      if g !in p.emptied {
        var k :| 0 <= k < |p.moves| && p.moves[k].oldGroup == g;
        assert MoveOk(items, groups, p.moves[k]);
      }
    }
  }

  /** The log keeps a run's rows apart: reading them back gives them all, dropping them gives the log before. */
  lemma LogKeepsRunsApart(log: seq<LogRow>, run: nat, p: Plan)
    requires forall k :: 0 <= k < |log| ==> log[k].run != run
    ensures RowsOf(log + RunLog(run, p), run) == RunLog(run, p)
      && RowsNotOf(log + RunLog(run, p), run) == log
  {
    AllOfRun(RunLog(run, p), run);
    NoneOfRun(log, run);
    RowsSplit(log, RunLog(run, p), run);
  }

  lemma ItemsRestored(p: Plan, items: Items, order: seq<nat>, groups: Groups, target: nat, run: nat)
    requires PlanOf(p, items, order, groups, target)
    ensures RestoreItems(ApplyMoves(items, p.moves, target), RunLog(run, p)) == items
            <==> forall i :: Moves(p.moves, i) ==> i in items && items[i].sku.None?
  {
    var back := RestoreItems(ApplyMoves(items, p.moves, target), RunLog(run, p));
    forall i | i in items
      ensures back[i] == if Moves(p.moves, i) then items[i].(sku := None) else items[i]
    {
      ItemComesBack(p, items, order, groups, target, run, i);
    }
  }

  lemma GroupsRestored(p: Plan, items: Items, order: seq<nat>, groups: Groups, target: nat)
    requires PlanOf(p, items, order, groups, target)
    ensures SetGroups(SetGroups(groups, RetireIds(p), false), RetireIds(p), true) == groups
            <==> forall g :: Retires(p, g) ==> g in groups && groups[g].active
  {
    var alive := SetGroups(SetGroups(groups, RetireIds(p), false), RetireIds(p), true);
    forall g | g in groups
      ensures alive[g] == if Retires(p, g) then groups[g].(active := true) else groups[g]
    {
      GroupComesBack(p, items, order, groups, target, g);
    }
  }

  datatype Tables = Tables(items: Items, groups: Groups, log: seq<LogRow>)

  function Applied(t: Tables, p: Plan, target: nat, run: nat): Tables
  {
    Tables(ApplyMoves(t.items, p.moves, target), SetGroups(t.groups, RetireIds(p), false), t.log + RunLog(run, p))
  }

  function Undone(t: Tables, run: nat): Tables
  {
    var rows := RowsOf(t.log, run);
    if rows == [] then t
    else Tables(RestoreItems(t.items, rows), SetGroups(t.groups, RetiredIds(rows), true), RowsNotOf(t.log, run))
  }

  /**
   What the log of a run cannot hold was not there: blank codes instead of null ones, retired
   groups already inactive.
   */
  ghost predicate NothingForgotten(t: Tables, p: Plan)
  {
    && (forall i :: Moves(p.moves, i) ==> i in t.items && t.items[i].sku.None?)
    && (forall g :: Retires(p, g) ==> g in t.groups && t.groups[g].active)
  }

  lemma UndoneApplied(t: Tables, p: Plan, target: nat, run: nat)
    requires forall k :: 0 <= k < |t.log| ==> t.log[k].run != run
    requires RunLog(run, p) != []
    ensures Undone(Applied(t, p, target, run), run)
         == Tables(RestoreItems(ApplyMoves(t.items, p.moves, target), RunLog(run, p)),
                   SetGroups(SetGroups(t.groups, RetireIds(p), false), RetireIds(p), true), t.log)
  {
    LogKeepsRunsApart(t.log, run, p);
    RetiredIdsAre(run, p);
  }

  lemma NothingPlanned(t: Tables, p: Plan, target: nat, run: nat)
    requires RunLog(run, p) == [] && forall k :: 0 <= k < |t.log| ==> t.log[k].run != run
    ensures Undone(Applied(t, p, target, run), run) == t && NothingForgotten(t, p)
  {
    assert |RunLog(run, p)| == |p.moves| + |p.emptied|;
    assert p.moves == [] && p.emptied == [];
    assert RetireIds(p) == [];
    assert t.log + RunLog(run, p) == t.log;
    NoneOfRun(t.log, run);
    assert SetGroups(t.groups, [], false) == t.groups;
  }

  /** Undo takes a run back, all three tables as they were, exactly when the log forgot nothing. */
  lemma UndoRestores(t: Tables, p: Plan, order: seq<nat>, target: nat, run: nat)
    requires PlanOf(p, t.items, order, t.groups, target)
    requires forall k :: 0 <= k < |t.log| ==> t.log[k].run != run
    ensures Undone(Applied(t, p, target, run), run) == t <==> NothingForgotten(t, p)
  {
    if RunLog(run, p) == [] {
      NothingPlanned(t, p, target, run);
    } else {
      UndoneApplied(t, p, target, run);
      ItemsRestored(p, t.items, order, t.groups, target, run);
      GroupsRestored(p, t.items, order, t.groups, target);
    }
  }
}
