/** Purging a company into an archive schema and putting it back, under foreign keys nobody lists. */
module CompanyPurge {
  import opened TablePasses

  datatype RowKey = RowKey(table: nat, id: nat)

  /** refs are the rows its foreign keys point at; content is everything else it holds. */
  datatype Row = Row(company: nat, refs: set<RowKey>, content: int)

  type Rows = map<RowKey, Row>

  /** The tables of an archive schema and the rows copied into them. */
  datatype Archive = Archive(tables: set<nat>, rows: Rows)

  const NO_ARCHIVE := Archive({}, map[])

  /** Every reference points at a row: what the database checks after each statement. */
  ghost predicate Referential(rows: Rows) { forall k, r :: k in rows && r in rows[k].refs ==> r in rows }

  predicate OfCompany(rows: Rows, k: RowKey, company: nat, tables: set<nat>)
  {
    k in rows && rows[k].company == company && k.table in tables
  }

  /** The rows left by deleting the company's from the tables. */
  function Without(rows: Rows, company: nat, tables: set<nat>): (out: Rows)
  {
    map k | k in rows && !OfCompany(rows, k, company, tables) :: rows[k]
  }

  function CompanyRows(rows: Rows, company: nat, tables: set<nat>): (out: Rows)
  {
    map k | k in rows && OfCompany(rows, k, company, tables) :: rows[k]
  }

  function Only(rows: Rows, tables: set<nat>): (out: Rows)
  {
    map k | k in rows && k.table in tables :: rows[k]
  }

  predicate Holds(rows: Rows, company: nat, t: nat) { exists k :: k in rows && OfCompany(rows, k, company, {t}) }

  /**
   The tables the command deletes from: those holding the company's rows, less the retained
   ones, in catalogue order.
   */
  function ToPurge(rows: Rows, company: nat, tables: seq<nat>, retained: set<nat>): seq<nat>
  {
    if tables == [] then []
    else
      var t := tables[|tables| - 1];
      ToPurge(rows, company, tables[..|tables| - 1], retained)
      + if Holds(rows, company, t) && t !in retained then [t] else []
  }

  lemma {:induction false} ToPurgeIs(rows: Rows, company: nat, tables: seq<nat>, retained: set<nat>, t: nat)
    ensures t in ToPurge(rows, company, tables, retained)
      <==> t in tables && t !in retained && exists k :: k in rows && rows[k].company == company && k.table == t
  {
    if tables != [] {
      ToPurgeIs(rows, company, tables[..|tables| - 1], retained, t);
      assert tables == tables[..|tables| - 1] + [tables[|tables| - 1]];
      HoldsIs(rows, company, tables[|tables| - 1]);
    }
  }

  lemma HoldsIs(rows: Rows, company: nat, t: nat)
    ensures Holds(rows, company, t) <==> exists k :: k in rows && rows[k].company == company && k.table == t
  {
    if k :| k in rows && rows[k].company == company && k.table == t {
      assert OfCompany(rows, k, company, {t});
    }
  }

  /** Whose rows go: the company's own, of the tables listed and not retained, and nobody else's. */
  lemma WhoseRowsGo(rows: Rows, company: nat, tables: seq<nat>, retained: set<nat>, k: RowKey)
    requires k in rows
    ensures var left := Without(rows, company, Ids(ToPurge(rows, company, tables, retained)));
      if rows[k].company == company && k.table in tables && k.table !in retained then k !in left
      else k in left && left[k] == rows[k]
  {
    ToPurgeIs(rows, company, tables, retained, k.table);
  }

  lemma SomethingGoes(rows: Rows, company: nat, tables: seq<nat>, retained: set<nat>)
    requires ToPurge(rows, company, tables, retained) != []
    ensures exists k :: k in rows && k !in Without(rows, company, Ids(ToPurge(rows, company, tables, retained)))
  {
    var t := ToPurge(rows, company, tables, retained)[0];
    ToPurgeIs(rows, company, tables, retained, t);
    var k :| k in rows && rows[k].company == company && k.table == t;
    WhoseRowsGo(rows, company, tables, retained, k);
  }

  lemma TakesTheCompanys(rows: Rows, company: nat, tables: seq<nat>, retained: set<nat>)
    ensures var todo := Ids(ToPurge(rows, company, tables, retained));
      var left, copied := Without(rows, company, todo), CompanyRows(rows, company, todo);
      && (forall k :: k in rows ==>
          (k !in left <==> rows[k].company == company && k.table in tables && k.table !in retained))
      && (forall k :: k in rows && k !in left ==> k in copied && copied[k] == rows[k])
      && (forall k :: k in copied ==> k in rows && rows[k].company == company && copied[k] == rows[k])
      && (ToPurge(rows, company, tables, retained) != [] ==> exists k :: k in rows && k !in left)
  {
    forall k {
      WhoseRowsAreKept(rows, company, tables, retained, k);
    }
    forall k | k in rows {
      WhoseRowsGo(rows, company, tables, retained, k);
    }
    if ToPurge(rows, company, tables, retained) != [] {
      SomethingGoes(rows, company, tables, retained);
    }
  }

  lemma WhoseRowsAreKept(rows: Rows, company: nat, tables: seq<nat>, retained: set<nat>, k: RowKey)
    ensures var copied := CompanyRows(rows, company, Ids(ToPurge(rows, company, tables, retained)));
      && (k in copied <==> k in rows && rows[k].company == company && k.table in tables && k.table !in retained)
      && (k in copied ==> copied[k] == rows[k])
  {
    if k in rows {
      ToPurgeIs(rows, company, tables, retained, k.table);
    }
  }

  // ------------------------------------------------------------------ what blocks a delete

  /** A row of the company in u refers to one of its rows in t. */
  predicate Refers(rows: Rows, company: nat, u: nat, t: nat)
  {
    exists k, r :: k in rows && OfCompany(rows, k, company, {u}) && r in rows[k].refs
      && OfCompany(rows, r, company, {t})
  }

  /** A row that stays whatever is purged refers to one of the company's rows in t. */
  predicate HeldOutside(rows: Rows, company: nat, tables: set<nat>, t: nat)
  {
    exists k, r :: k in rows && !OfCompany(rows, k, company, tables) && r in rows[k].refs
      && OfCompany(rows, r, company, {t})
  }

  function DeleteGraph(rows: Rows, company: nat, tables: set<nat>): Graph
  {
    Graph(set t | t in tables && HeldOutside(rows, company, tables, t),
          set t, u | t in tables && u in tables && Refers(rows, company, u, t) :: (t, u))
  }

  /** The DELETE of table t succeeds exactly when nothing that is left refers into it. */
  lemma DeleteGoes(rows: Rows, company: nat, tables: set<nat>, gone: set<nat>, t: nat)
    requires Referential(Without(rows, company, gone)) && gone <= tables && t in tables - gone
    ensures Referential(Without(rows, company, gone + {t}))
      <==> Goes(DeleteGraph(rows, company, tables), t, tables - gone)
  {
    var g := DeleteGraph(rows, company, tables);
    var now, next := Without(rows, company, gone), Without(rows, company, gone + {t});
    if !Goes(g, t, tables - gone) {
      DeleteBlocked(rows, company, tables, gone, t);
    } else {
      forall k, r | k in next && r in next[k].refs
        ensures r in next
      {
        DeleteFree(rows, company, tables, gone, t, k, r);
      }
    }
  }

  lemma DeleteBlocked(rows: Rows, company: nat, tables: set<nat>, gone: set<nat>, t: nat)
    requires gone <= tables && t in tables - gone && !Goes(DeleteGraph(rows, company, tables), t, tables - gone)
    ensures !Referential(Without(rows, company, gone + {t}))
  {
    var next := Without(rows, company, gone + {t});
    if HeldOutside(rows, company, tables, t) {
      var k, r :| k in rows && !OfCompany(rows, k, company, tables) && r in rows[k].refs
        && OfCompany(rows, r, company, {t});
      assert k in next && r !in next;
    } else {
      var u :| u in tables - gone && u != t && (t, u) in DeleteGraph(rows, company, tables).needs;
      var k, r :| k in rows && OfCompany(rows, k, company, {u}) && r in rows[k].refs
        && OfCompany(rows, r, company, {t});
      assert k in next && r !in next;
    }
  }

  lemma RefersIsNeeded(rows: Rows, company: nat, tables: set<nat>, t: nat, k: RowKey, r: RowKey)
    requires t in tables && OfCompany(rows, k, company, tables) && r in rows[k].refs && OfCompany(rows, r, company, {t})
    ensures (t, k.table) in DeleteGraph(rows, company, tables).needs
  {
    assert OfCompany(rows, k, company, {k.table});
    assert Refers(rows, company, k.table, t);
  }

  lemma DeleteFree(rows: Rows, company: nat, tables: set<nat>, gone: set<nat>, t: nat, k: RowKey, r: RowKey)
    requires Referential(Without(rows, company, gone)) && gone <= tables && t in tables - gone
    requires Goes(DeleteGraph(rows, company, tables), t, tables - gone)
    requires k in Without(rows, company, gone + {t}) && r in rows[k].refs
    ensures r in Without(rows, company, gone + {t})
  {
    assert k in Without(rows, company, gone);
    assert r in Without(rows, company, gone);
    if OfCompany(rows, r, company, {t}) {
      if OfCompany(rows, k, company, tables) {
        RefersIsNeeded(rows, company, tables, t, k, r);
      }
    }
  }

  // ------------------------------------------------------------------ what blocks an insert

  /** Its key is taken, or it refers to a row that is neither live nor archived. */
  predicate Homeless(rows: Rows, a: Archive, t: nat)
  {
    exists k :: k in a.rows && k.table == t
      && (k in rows || exists r :: r in a.rows[k].refs && r !in rows && r !in a.rows)
  }

  /** An archived row of t refers to an archived row of u that is not live. */
  predicate Waits(rows: Rows, a: Archive, t: nat, u: nat)
  {
    exists k, r :: k in a.rows && k.table == t && r in a.rows[k].refs && r !in rows && r in a.rows && r.table == u
  }

  function InsertGraph(rows: Rows, a: Archive): Graph
  {
    Graph(set t | t in a.tables && Homeless(rows, a, t),
          set t, u | t in a.tables && u in a.tables && Waits(rows, a, t, u) :: (t, u))
  }

  ghost predicate KeysFree(rows: Rows, more: Rows) { forall k :: k in more ==> k !in rows }

  /** The INSERT of a table's rows: no key taken, and every reference answered. */
  ghost predicate Inserts(rows: Rows, more: Rows) { KeysFree(rows, more) && Referential(rows + more) }

  ghost predicate ArchiveOk(a: Archive) { forall k :: k in a.rows ==> k.table in a.tables }

  lemma WaitsIsNeeded(rows: Rows, a: Archive, t: nat, k: RowKey, r: RowKey)
    requires ArchiveOk(a) && t in a.tables && k in a.rows && k.table == t && r in a.rows[k].refs
    requires r !in rows && r in a.rows
    ensures (t, r.table) in InsertGraph(rows, a).needs
  {
    assert Waits(rows, a, t, r.table);
  }

  /** The INSERT of table t succeeds exactly when everything its rows refer to is back. */
  lemma InsertGoes(rows: Rows, a: Archive, back: set<nat>, t: nat)
    requires ArchiveOk(a) && back <= a.tables && t in a.tables - back && Referential(rows + Only(a.rows, back))
    ensures Inserts(rows + Only(a.rows, back), Only(a.rows, {t}))
      <==> Goes(InsertGraph(rows, a), t, a.tables - back)
  {
    var now, more := rows + Only(a.rows, back), Only(a.rows, {t});
    if !Goes(InsertGraph(rows, a), t, a.tables - back) {
      InsertBlocked(rows, a, back, t);
    } else {
      forall k | k in more
        ensures k !in now
      {
      }
      var both: Rows := now + more;
      forall k, r | k in both && r in both[k].refs
        ensures r in both
      {
        if k in more {
          InsertFree(rows, a, back, t, k, r);
        }
      }
    }
  }

  lemma InsertBlocked(rows: Rows, a: Archive, back: set<nat>, t: nat)
    requires ArchiveOk(a) && back <= a.tables && t in a.tables - back && !Goes(InsertGraph(rows, a), t, a.tables - back)
    ensures !Inserts(rows + Only(a.rows, back), Only(a.rows, {t}))
  {
    if Homeless(rows, a, t) {
      HomelessBlocks(rows, a, back, t);
    } else {
      var u :| u in a.tables - back && u != t && (t, u) in InsertGraph(rows, a).needs;
      WaitingBlocks(rows, a, back, t, u);
    }
  }

  lemma Unanswered(rows: Rows, more: Rows, k: RowKey, r: RowKey)
    requires k in more && r in more[k].refs && r !in rows && r !in more
    ensures !Referential(rows + more)
  {
    var both: Rows := rows + more;
    assert k in both && r in both[k].refs && r !in both;
  }

  lemma HomelessBlocks(rows: Rows, a: Archive, back: set<nat>, t: nat)
    requires t !in back && Homeless(rows, a, t)
    ensures !Inserts(rows + Only(a.rows, back), Only(a.rows, {t}))
  {
    var now, more := rows + Only(a.rows, back), Only(a.rows, {t});
    var k :| k in a.rows && k.table == t
      && (k in rows || exists r :: r in a.rows[k].refs && r !in rows && r !in a.rows);
    assert k in more;
    if k in rows {
      assert k in now;
    } else {
      var r :| r in a.rows[k].refs && r !in rows && r !in a.rows;
      Unanswered(now, more, k, r);
    }
  }

  lemma WaitingBlocks(rows: Rows, a: Archive, back: set<nat>, t: nat, u: nat)
    requires t != u && u !in back && Waits(rows, a, t, u)
    ensures !Inserts(rows + Only(a.rows, back), Only(a.rows, {t}))
  {
    var k, r :| k in a.rows && k.table == t && r in a.rows[k].refs && r !in rows && r in a.rows && r.table == u;
    Unanswered(rows + Only(a.rows, back), Only(a.rows, {t}), k, r);
  }

  lemma InsertFree(rows: Rows, a: Archive, back: set<nat>, t: nat, k: RowKey, r: RowKey)
    requires ArchiveOk(a) && back <= a.tables && t in a.tables - back && Goes(InsertGraph(rows, a), t, a.tables - back)
    requires k in Only(a.rows, {t}) && r in a.rows[k].refs
    ensures r in rows + Only(a.rows, back) + Only(a.rows, {t})
  {
    if r !in rows {
      if r in a.rows {
        WaitsIsNeeded(rows, a, t, k, r);
      }
    }
  }

  // ------------------------------------------------------------------ the command

  datatype Outcome = NothingToPurge | Undeclared | DryRun | Unconfirmed | NotArchived | NoOrder | TooManyPasses | Purged

  datatype RestoreOutcome = NothingArchived | RestoreDryRun | NotRestored | Restored

  /** The database. A failed run rolls back to where its transaction began. */
  class Database {
    var rows: Rows
    var archives: map<nat, Archive>

    function ArchiveAt(schema: nat): Archive
      reads this`archives
    {
      if schema in archives then archives[schema] else NO_ARCHIVE
    }

    /** DELETE FROM table WHERE cmp_id, inside a savepoint: refused when a reference would dangle. */
    method DeleteFrom(t: nat, company: nat) returns (ok: bool)
      modifies this`rows
      ensures ok <==> Referential(Without(old(rows), company, {t}))
      ensures rows == if ok then Without(old(rows), company, {t}) else old(rows)
      ensures ok ==> forall k :: k in rows <==> k in old(rows) && !(old(rows)[k].company == company && k.table == t)
    {
      var next := Without(rows, company, {t});
      ok := forall k :: k in next ==> forall r :: r in next[k].refs ==> r in next;
      if ok {
        rows := next;
      }
    }

    /** INSERT INTO public.t SELECT * FROM archive.t, inside a savepoint. */
    method InsertFrom(a: Archive, t: nat) returns (ok: bool)
      modifies this`rows
      ensures ok <==> Inserts(old(rows), Only(a.rows, {t}))
      ensures rows == if ok then old(rows) + Only(a.rows, {t}) else old(rows)
    {
      var more := Only(a.rows, {t});
      var next: Rows := rows + more;
      ok := (forall k :: k in more ==> k !in rows)
        && forall k :: k in next ==> forall r :: r in next[k].refs ==> r in next;
      if ok {
        rows := next;
      }
    }

    /** One pass of deletes: what is stuck is what the graph of the rows at the start says. */
    method DeletePass(company: nat, remaining: seq<nat>, ghost start: Rows, ghost tables: set<nat>)
      returns (stuck: seq<nat>)
      requires Ids(remaining) <= tables && NoRepeats(remaining) && Referential(rows)
      requires rows == Without(start, company, tables - Ids(remaining))
      modifies this`rows
      ensures stuck == Pass(DeleteGraph(start, company, tables), remaining)
      ensures Referential(rows) && rows == Without(start, company, tables - Ids(stuck))
    {
      stuck := [];
      NothingTriedYet(remaining);
      for i := 0 to |remaining|
        invariant DeletedSoFar(start, company, tables, remaining, i, stuck, rows)
        invariant Stuck(DeleteGraph(start, company, tables), remaining[i..], stuck)
          == Pass(DeleteGraph(start, company, tables), remaining)
      {
        DeleteStep(start, company, tables, remaining, i, stuck, rows);
        var ok := DeleteFrom(remaining[i], company);
        if !ok {
          stuck := stuck + [remaining[i]];
        }
      }
      assert Ids(stuck) + Ids([]) == Ids(stuck);
    }

    /** Passes until nothing is left, a pass stands still, or twelve are spent. */
    method DeleteInPasses(company: nat, todo: seq<nat>) returns (r: Outcome)
      requires NoRepeats(todo) && Referential(rows)
      modifies this`rows
      ensures r in {Purged, NoOrder, TooManyPasses}
      ensures r == Purged
        <==> Left(DeleteGraph(old(rows), company, Ids(todo)), todo, MAX_PASSES) == []
      ensures r == Purged ==>
        rows == Without(old(rows), company, Ids(todo)) && Referential(rows)
      ensures r == NoOrder ==>
        !Orderable(DeleteGraph(old(rows), company, Ids(todo)), todo)
      ensures r == TooManyPasses ==> MAX_PASSES < |todo|
    {
      var remaining, pass := todo, 0;
      ghost var start, g := rows, DeleteGraph(rows, company, Ids(todo));
      while remaining != [] && pass < MAX_PASSES
        invariant pass <= MAX_PASSES && remaining == Left(g, todo, pass) && |remaining| + pass <= |todo|
        invariant AllButLeft(start, company, todo, remaining, rows)
        decreases MAX_PASSES - pass
      {
        PassReady(g, todo, pass);
        pass := pass + 1;
        var stuck := DeletePass(company, remaining, start, Ids(todo));
        if |stuck| == |remaining| {
          StandsForever(g, todo, pass - 1);
          return NoOrder;
        }
        remaining := stuck;
      }
      if remaining != [] {
        return TooManyPasses;
      }
      StaysEmpty(g, todo, pass, MAX_PASSES);
      AllGone(start, company, todo, rows);
      r := Purged;
    }

    method ListToPurge(company: nat, tables: seq<nat>, retained: set<nat>) returns (todo: seq<nat>)
      requires NoRepeats(tables)
      ensures todo == ToPurge(rows, company, tables, retained) && NoRepeats(todo)
    {
      todo := [];
      for i := 0 to |tables|
        invariant todo == ToPurge(rows, company, tables[..i], retained)
        invariant NoRepeats(todo) && forall t :: t in todo ==> t in tables[..i]
      {
        assert tables[..i + 1][..i] == tables[..i];
        assert tables[i] !in tables[..i];
        if Holds(rows, company, tables[i]) && tables[i] !in retained {
          todo := todo + [tables[i]];
        }
      }
      assert tables[..|tables|] == tables;
    }

    /** CREATE TABLE schema.t AS SELECT, one per table: refused when the schema already has one of the name. */
    method ArchiveTables(schema: nat, company: nat, todo: seq<nat>) returns (ok: bool)
      requires NoRepeats(todo)
      modifies this`archives
      ensures ok <==> Ids(todo) * old(ArchiveAt(schema)).tables == {}
      ensures ok ==>
        archives == old(archives)[schema := Archived(old(ArchiveAt(schema)), old(rows), company, Ids(todo))]
    {
      var a := ArchiveAt(schema);
      ghost var before := a;
      assert CompanyRows(rows, company, {}) == map[];
      for i := 0 to |todo|
        invariant a == Archived(before, rows, company, Ids(todo[..i])) && archives == old(archives)
        invariant Ids(todo[..i]) * before.tables == {}
      {
        ArchiveStep(before, rows, company, todo, i);
        if todo[i] in a.tables {
          return false;
        }
        a := Archive(a.tables + {todo[i]}, a.rows + CompanyRows(rows, company, {todo[i]}));
      }
      assert todo[..|todo|] == todo;
      archives := archives[schema := a];
      ok := true;
    }

    /**
     All or nothing. Purged, the company's rows are gone from every table listed and held,
     each of them, by the archive; otherwise neither the rows nor the archive has changed.
     */
    method Purge(
        company: nat, schema: nat, tables: seq<nat>, protected: set<nat>, retained: set<nat>, apply: bool, confirm: nat)
      returns (r: Outcome)
      requires NoRepeats(tables) && Referential(rows)
      modifies this
      ensures r != Purged ==> rows == old(rows) && archives == old(archives)
      ensures r == Purged ==>
        var todo := ToPurge(old(rows), company, tables, retained);
        && rows == Without(old(rows), company, Ids(todo)) && Referential(rows)
        && archives == old(archives)[schema := Archived(old(ArchiveAt(schema)), old(rows), company, Ids(todo))]
      ensures r == Purged ==> forall k :: k in rows ==> k in old(rows) && rows[k] == old(rows)[k]
      ensures r == Purged ==> forall k :: k in old(rows) ==>
        (k !in rows <==> old(rows)[k].company == company && k.table in tables && k.table !in retained)
      ensures r == Purged ==> schema in archives && forall k :: k in old(rows) && k !in rows ==>
        k in archives[schema].rows && archives[schema].rows[k] == old(rows)[k]
      ensures r == Purged ==> forall k :: k in archives[schema].rows ==>
        || (k in old(rows) && old(rows)[k].company == company && archives[schema].rows[k] == old(rows)[k])
        || (k in old(ArchiveAt(schema)).rows && archives[schema].rows[k] == old(ArchiveAt(schema)).rows[k])
      ensures r == Purged ==> forall other :: other != schema ==> ArchiveAt(other) == old(ArchiveAt(other))
      ensures r == Purged ==> exists k :: k in old(rows) && k !in rows
      ensures r == Purged <==>
        var todo := ToPurge(old(rows), company, tables, retained);
        && protected <= retained && todo != [] && apply && confirm == company
        && Ids(todo) * old(ArchiveAt(schema)).tables == {}
        && Left(DeleteGraph(old(rows), company, Ids(todo)), todo, MAX_PASSES) == []
      ensures r == NoOrder ==>
        var todo := ToPurge(old(rows), company, tables, retained);
        !Orderable(DeleteGraph(old(rows), company, Ids(todo)), todo)
    {
      if !(protected <= retained) {
        return Undeclared;
      }
      var todo := ListToPurge(company, tables, retained);
      if todo == [] {
        return NothingToPurge;
      }
      if !apply {
        return DryRun;
      }
      if confirm != company {
        return Unconfirmed;
      }
      var rowsBefore, archivesBefore := rows, archives;
      var archived := ArchiveTables(schema, company, todo);
      if !archived {
        archives := archivesBefore;
        return NotArchived;
      }
      r := DeleteInPasses(company, todo);
      if r != Purged {
        rows, archives := rowsBefore, archivesBefore;
        return;
      }
      TakesTheCompanys(rowsBefore, company, tables, retained);
    }

    /** One pass of inserts, against the graph of the rows and the archive at the start. */
    method InsertPass(a: Archive, remaining: seq<nat>, ghost start: Rows) returns (stuck: seq<nat>)
      requires Ids(remaining) <= a.tables && NoRepeats(remaining) && ArchiveOk(a)
      requires AllBackBut(start, a, remaining, rows)
      modifies this`rows
      ensures stuck == Pass(InsertGraph(start, a), remaining)
      ensures AllBackBut(start, a, stuck, rows)
    {
      stuck := [];
      NothingTriedYet(remaining);
      for i := 0 to |remaining|
        invariant InsertedSoFar(start, a, remaining, i, stuck, rows)
        invariant Stuck(InsertGraph(start, a), remaining[i..], stuck) == Pass(InsertGraph(start, a), remaining)
      {
        InsertStep(start, a, remaining, i, stuck, rows);
        var ok := InsertFrom(a, remaining[i]);
        if !ok {
          stuck := stuck + [remaining[i]];
        }
      }
      assert Ids(stuck) + Ids([]) == Ids(stuck);
    }

    method InsertInPasses(a: Archive, todo: seq<nat>) returns (ok: bool)
      requires NoRepeats(todo) && Ids(todo) == a.tables && ArchiveOk(a) && Referential(rows)
      modifies this`rows
      ensures ok <==> Left(InsertGraph(old(rows), a), todo, MAX_PASSES) == []
      ensures ok ==> rows == old(rows) + Only(a.rows, a.tables) && Referential(rows)
    {
      var remaining, pass := todo, 0;
      ghost var start, g := rows, InsertGraph(rows, a);
      NothingBack(start, a, todo);
      while remaining != [] && pass < MAX_PASSES
        invariant pass <= MAX_PASSES && remaining == Left(g, todo, pass)
        invariant AllBackBut(start, a, remaining, rows)
        decreases MAX_PASSES - pass
      {
        PassReady(g, todo, pass);
        pass := pass + 1;
        var stuck := InsertPass(a, remaining, start);
        if |stuck| == |remaining| {
          StandsForever(g, todo, pass - 1);
          return false;
        }
        remaining := stuck;
      }
      if remaining != [] {
        return false;
      }
      StaysEmpty(g, todo, pass, MAX_PASSES);
      AllBack(start, a, rows);
      ok := true;
    }

    /** All or nothing again. order is the archive's tables as the catalogue lists them. */
    method Restore(schema: nat, order: seq<nat>, apply: bool) returns (r: RestoreOutcome)
      requires Referential(rows) && ArchiveOk(ArchiveAt(schema)) && NoRepeats(order)
      requires Ids(order) == ArchiveAt(schema).tables
      modifies this`rows
      ensures r != Restored ==> rows == old(rows)
      ensures r == Restored ==>
        rows == old(rows) + Only(ArchiveAt(schema).rows, ArchiveAt(schema).tables) && Referential(rows)
      ensures r == Restored ==> forall k :: k in rows <==> k in old(rows) || k in ArchiveAt(schema).rows
      ensures r == Restored ==> forall k :: k in rows ==>
        rows[k] == if k in ArchiveAt(schema).rows then ArchiveAt(schema).rows[k] else old(rows)[k]
      ensures r == Restored
        <==> order != [] && apply && Left(InsertGraph(old(rows), ArchiveAt(schema)), order, MAX_PASSES) == []
    {
      if order == [] {
        return NothingArchived;
      }
      if !apply {
        return RestoreDryRun;
      }
      var before := rows;
      var ok := InsertInPasses(ArchiveAt(schema), order);
      if ok {
        return Restored;
      }
      rows := before;
      r := NotRestored;
    }
  }

  lemma NothingTriedYet(remaining: seq<nat>)
    ensures remaining[0..] == remaining && Ids([]) + Ids(remaining) == Ids(remaining)
  {
  }

  /** Halfway through a pass: every table not stuck nor still to try is gone. */
  ghost predicate DeletedSoFar(
      start: Rows, company: nat, tables: set<nat>, remaining: seq<nat>, i: nat, stuck: seq<nat>, rows: Rows)
    requires i <= |remaining|
  {
    && Referential(rows) && Ids(stuck) <= Ids(remaining[..i])
    && rows == Without(start, company, tables - (Ids(stuck) + Ids(remaining[i..])))
  }

  lemma DeleteStep(
      start: Rows, company: nat, tables: set<nat>, remaining: seq<nat>, i: nat, stuck: seq<nat>, rows: Rows)
    requires Ids(remaining) <= tables && NoRepeats(remaining) && i < |remaining|
    requires DeletedSoFar(start, company, tables, remaining, i, stuck, rows)
    ensures var g, t, next := DeleteGraph(start, company, tables), remaining[i], Without(rows, company, {remaining[i]});
      if Referential(next)
      then DeletedSoFar(start, company, tables, remaining, i + 1, stuck, next)
        && Stuck(g, remaining[i..], stuck) == Stuck(g, remaining[i + 1..], stuck)
      else DeletedSoFar(start, company, tables, remaining, i + 1, stuck + [t], rows)
           && Stuck(g, remaining[i..], stuck) == Stuck(g, remaining[i + 1..], stuck + [t])
  {
    var t, gone := remaining[i], tables - (Ids(stuck) + Ids(remaining[i..]));
    StepIds(remaining, i, stuck, tables);
    DeleteGoes(start, company, tables, gone, t);
    assert Without(Without(start, company, gone), company, {t}) == Without(start, company, gone + {t});
  }

  ghost predicate InsertedSoFar(start: Rows, a: Archive, remaining: seq<nat>, i: nat, stuck: seq<nat>, rows: Rows)
    requires i <= |remaining|
  {
    && Referential(rows) && Ids(stuck) <= Ids(remaining[..i])
    && rows == start + Only(a.rows, a.tables - (Ids(stuck) + Ids(remaining[i..])))
  }

  lemma InsertStep(start: Rows, a: Archive, remaining: seq<nat>, i: nat, stuck: seq<nat>, rows: Rows)
    requires Ids(remaining) <= a.tables && NoRepeats(remaining) && i < |remaining| && ArchiveOk(a)
    requires InsertedSoFar(start, a, remaining, i, stuck, rows)
    ensures var g, t, more := InsertGraph(start, a), remaining[i], Only(a.rows, {remaining[i]});
      if Inserts(rows, more)
      then InsertedSoFar(start, a, remaining, i + 1, stuck, rows + more)
        && Stuck(g, remaining[i..], stuck) == Stuck(g, remaining[i + 1..], stuck)
      else InsertedSoFar(start, a, remaining, i + 1, stuck + [t], rows)
           && Stuck(g, remaining[i..], stuck) == Stuck(g, remaining[i + 1..], stuck + [t])
  {
    var t, back := remaining[i], a.tables - (Ids(stuck) + Ids(remaining[i..]));
    StepIds(remaining, i, stuck, a.tables);
    InsertGoes(start, a, back, t);
    OnlyGrows(start, a, back, t);
  }

  ghost predicate AllBackBut(start: Rows, a: Archive, remaining: seq<nat>, rows: Rows)
  {
    Referential(rows) && rows == start + Only(a.rows, a.tables - Ids(remaining))
  }

  lemma NothingBack(start: Rows, a: Archive, todo: seq<nat>)
    requires Referential(start) && Ids(todo) == a.tables
    ensures AllBackBut(start, a, todo, start)
  {
    assert a.tables - Ids(todo) == {};
    assert start + Only(a.rows, {}) == start;
  }

  lemma AllBack(start: Rows, a: Archive, rows: Rows)
    requires AllBackBut(start, a, [], rows)
    ensures rows == start + Only(a.rows, a.tables) && Referential(rows)
  {
    assert a.tables - Ids([]) == a.tables;
  }

  lemma OnlyGrows(start: Rows, a: Archive, back: set<nat>, t: nat)
    ensures start + Only(a.rows, back) + Only(a.rows, {t}) == start + Only(a.rows, back + {t})
  {
  }

  /** The archive with the company's rows of the tables copied in. */
  function Archived(a: Archive, rows: Rows, company: nat, tables: set<nat>): Archive
  {
    Archive(a.tables + tables, a.rows + CompanyRows(rows, company, tables))
  }

  lemma ArchivedGrows(a: Archive, rows: Rows, company: nat, tables: set<nat>, t: nat)
    ensures var now := Archived(a, rows, company, tables);
      Archived(a, rows, company, tables + {t}) == Archive(now.tables + {t}, now.rows + CompanyRows(rows, company, {t}))
  {
    var one, both := CompanyRows(rows, company, {t}), CompanyRows(rows, company, tables + {t});
    assert both == CompanyRows(rows, company, tables) + one;
    assert a.rows + both == a.rows + CompanyRows(rows, company, tables) + one;
    assert a.tables + (tables + {t}) == a.tables + tables + {t};
  }

  ghost predicate AllButLeft(start: Rows, company: nat, todo: seq<nat>, remaining: seq<nat>, rows: Rows)
  {
    Referential(rows) && rows == Without(start, company, Ids(todo) - Ids(remaining))
  }

  lemma AllGone(start: Rows, company: nat, todo: seq<nat>, rows: Rows)
    requires AllButLeft(start, company, todo, [], rows)
    ensures rows == Without(start, company, Ids(todo)) && Referential(rows)
  {
    assert Ids(todo) - Ids([]) == Ids(todo);
  }

  lemma PassReady(g: Graph, todo: seq<nat>, n: nat)
    requires NoRepeats(todo)
    ensures Ids(Left(g, todo, n)) <= Ids(todo) && NoRepeats(Left(g, todo, n))
    ensures |Left(g, todo, n + 1)| <= |Left(g, todo, n)|
  {
    LeftAreSome(g, todo, n);
    LeftKeeps(g, todo, n);
    StuckShrinks(g, Left(g, todo, n), []);
  }

  lemma StandsForever(g: Graph, todo: seq<nat>, n: nat)
    requires n <= MAX_PASSES && Left(g, todo, n) != [] && |Left(g, todo, n + 1)| == |Left(g, todo, n)|
    ensures !Orderable(g, todo) && Left(g, todo, MAX_PASSES) != []
  {
    StandsStill(g, todo, n, MAX_PASSES);
    NoProgressIsFinal(g, todo, n);
  }

  lemma ArchiveStep(a: Archive, rows: Rows, company: nat, todo: seq<nat>, i: nat)
    requires NoRepeats(todo) && i < |todo| && Ids(todo[..i]) * a.tables == {}
    ensures var now := Archived(a, rows, company, Ids(todo[..i]));
      && (todo[i] in now.tables <==> todo[i] in a.tables)
      && (todo[i] in now.tables ==> Ids(todo) * a.tables != {})
      && (todo[i] !in now.tables ==> Ids(todo[..i + 1]) * a.tables == {})
      && Archived(a, rows, company, Ids(todo[..i + 1]))
         == Archive(now.tables + {todo[i]}, now.rows + CompanyRows(rows, company, {todo[i]}))
  {
    assert todo[..i + 1] == todo[..i] + [todo[i]];
    IdsConcat(todo[..i], [todo[i]]);
    assert todo[i] !in todo[..i];
    if todo[i] in a.tables {
      assert todo[i] in Ids(todo) * a.tables;
    }
    ArchivedGrows(a, rows, company, Ids(todo[..i]), todo[i]);
    assert Ids(todo[..i]) + Ids([todo[i]]) == Ids(todo[..i]) + {todo[i]};
  }

  lemma NoProgressIsFinal(g: Graph, todo: seq<nat>, n: nat)
    requires Left(g, todo, n) != [] && |Left(g, todo, n + 1)| == |Left(g, todo, n)|
    ensures !Orderable(g, todo)
  {
    if Orderable(g, todo) {
      var order :| OrderOf(g, todo, order);
      var left := Left(g, todo, n);
      forall t | t in left
        ensures t in order
      {
        LeftShrinks(g, todo, n, t);
        assert t in Ids(todo);
      }
      OrderMovesOn(g, order, left);
    }
  }

  /** Trying table i: either it joins the stuck or it is gone, and the rest of the list follows. */
  lemma StepIds(remaining: seq<nat>, i: nat, stuck: seq<nat>, tables: set<nat>)
    requires i < |remaining| && NoRepeats(remaining) && Ids(stuck) <= Ids(remaining[..i]) && Ids(remaining) <= tables
    ensures remaining[i..] == [remaining[i]] + remaining[i + 1..]
      && remaining[i..][1..] == remaining[i + 1..]
    ensures Ids(stuck + [remaining[i]]) + Ids(remaining[i + 1..]) == Ids(stuck) + Ids(remaining[i..])
    ensures var gone := tables - (Ids(stuck) + Ids(remaining[i..]));
      gone + {remaining[i]} == tables - (Ids(stuck) + Ids(remaining[i + 1..]))
        && tables - gone == Ids(stuck) + Ids(remaining[i..])
    ensures Ids(stuck) <= Ids(remaining[..i + 1])
      && Ids(stuck + [remaining[i]]) <= Ids(remaining[..i + 1])
  {
    IdsConcat([remaining[i]], remaining[i + 1..]);
    IdsConcat(stuck, [remaining[i]]);
    assert remaining[..i + 1] == remaining[..i] + [remaining[i]];
    IdsConcat(remaining[..i], [remaining[i]]);
    assert remaining == remaining[..i] + remaining[i..];
    IdsConcat(remaining[..i], remaining[i..]);
    var after := remaining[i + 1..];
    forall j | 0 <= j < |after|
      ensures after[j] != remaining[i]
    {
      assert after[j] == remaining[i + 1 + j];
    }
    assert forall j :: 0 <= j < i ==> remaining[..i][j] == remaining[j];
  }

  lemma LeftAreSome(g: Graph, todo: seq<nat>, n: nat)
    ensures Ids(Left(g, todo, n)) <= Ids(todo)
  {
    forall t | t in Left(g, todo, n)
      ensures t in todo
    {
      LeftShrinks(g, todo, n, t);
    }
  }

  // ------------------------------------------------------------------ restore against purge

  /** What a purge of the tables leaves live, and what it leaves in a schema that was empty. */
  function Live(rows: Rows, company: nat, todo: seq<nat>): Rows { Without(rows, company, Ids(todo)) }

  function Taken(rows: Rows, company: nat, todo: seq<nat>): Archive { Archived(NO_ARCHIVE, rows, company, Ids(todo)) }

  /** Nothing a purge archived is homeless: its keys are free and every reference was answered. */
  lemma NothingHomeless(rows: Rows, company: nat, todo: seq<nat>, t: nat)
    requires Referential(rows)
    ensures !Homeless(Live(rows, company, todo), Taken(rows, company, todo), t)
  {
  }

  /** A table waits to go back for exactly those it held up on the way out. */
  lemma WaitsForWhatItHeld(rows: Rows, company: nat, todo: seq<nat>, t: nat, u: nat)
    requires t in todo && u in todo && Waits(Live(rows, company, todo), Taken(rows, company, todo), t, u)
    ensures Refers(rows, company, t, u)
  {
    var live, a := Live(rows, company, todo), Taken(rows, company, todo);
    var k, r :| k in a.rows && k.table == t && r in a.rows[k].refs && r !in live && r in a.rows && r.table == u;
    assert OfCompany(rows, k, company, {t}) && OfCompany(rows, r, company, {u});
  }

  function Reversed(path: seq<nat>): (back: seq<nat>)
    ensures |back| == |path|
  {
    seq(|path|, i requires 0 <= i < |path| => path[|path| - 1 - i])
  }

  /** Turning every need round turns every chain round. */
  lemma ChainsReverse(g: Graph, h: Graph, todo: seq<nat>, order: seq<nat>, n: nat)
    requires ChainsWithin(g, todo, n) && Ids(order) == Ids(todo)
    requires forall t, u :: t in todo && u in todo && (t, u) in h.needs ==> (u, t) in g.needs
    ensures ChainsWithin(h, order, n)
  {
    forall path | Chain(h, order, path)
      ensures |path| <= n
    {
      var back := Reversed(path);
      forall i | 0 <= i < |path|
        ensures path[i] in todo
      {
        assert path[i] in Ids(order);
      }
      forall i | 0 <= i < |back| - 1
        ensures Linked(g, back[i], back[i + 1])
      {
        var j := |path| - 2 - i;
        assert Linked(h, path[j], path[j + 1]);
      }
      assert Chain(g, todo, back);
    }
  }

  lemma InsertChains(rows: Rows, company: nat, todo: seq<nat>, order: seq<nat>, n: nat)
    requires Referential(rows) && Ids(order) == Ids(todo)
    requires ChainsWithin(DeleteGraph(rows, company, Ids(todo)), todo, n)
    ensures var h := InsertGraph(Live(rows, company, todo), Taken(rows, company, todo));
      FreeToGo(h, order) && ChainsWithin(h, order, n)
  {
    var g := DeleteGraph(rows, company, Ids(todo));
    var h := InsertGraph(Live(rows, company, todo), Taken(rows, company, todo));
    forall t | t in order
      ensures t !in h.never
    {
      NothingHomeless(rows, company, todo, t);
    }
    forall t, u | t in todo && u in todo && (t, u) in h.needs
      ensures (u, t) in g.needs
    {
      WaitsForWhatItHeld(rows, company, todo, t, u);
    }
    ChainsReverse(g, h, todo, order, n);
  }

  /**
   Where the company's references run in chains of at most twelve tables, a purge clears
   every table within the longest chain's passes, and the restore of what it archived puts
   back exactly the rows there were.
   */
  lemma RestoreUndoesPurge(rows: Rows, company: nat, todo: seq<nat>, order: seq<nat>, n: nat)
    requires Referential(rows) && Ids(order) == Ids(todo) && n <= MAX_PASSES
    requires FreeToGo(DeleteGraph(rows, company, Ids(todo)), todo)
    requires ChainsWithin(DeleteGraph(rows, company, Ids(todo)), todo, n)
    ensures Left(DeleteGraph(rows, company, Ids(todo)), todo, n) == []
    ensures var live, a := Live(rows, company, todo), Taken(rows, company, todo);
      Left(InsertGraph(live, a), order, n) == [] && Left(InsertGraph(live, a), order, MAX_PASSES) == []
        && live + Only(a.rows, a.tables) == rows
  {
    ChainsBoundThePasses(DeleteGraph(rows, company, Ids(todo)), todo, n);
    InsertChains(rows, company, todo, order, n);
    var h := InsertGraph(Live(rows, company, todo), Taken(rows, company, todo));
    ChainsBoundThePasses(h, order, n);
    StaysEmpty(h, order, n, MAX_PASSES);
  }

  /** Whatever was purged can be put back in some order: only the limit on passes can stop it. */
  lemma PurgedCanBeRestored(rows: Rows, company: nat, todo: seq<nat>, order: seq<nat>)
    requires Referential(rows) && Ids(order) == Ids(todo) && |order| == |todo|
    requires Left(DeleteGraph(rows, company, Ids(todo)), todo, MAX_PASSES) == []
    ensures var live, a := Live(rows, company, todo), Taken(rows, company, todo);
      Orderable(InsertGraph(live, a), order) && Left(InsertGraph(live, a), order, |order|) == []
  {
    var g := DeleteGraph(rows, company, Ids(todo));
    var h := InsertGraph(Live(rows, company, todo), Taken(rows, company, todo));
    ClearedHadAnOrder(g, todo, MAX_PASSES);
    OrderableIffAcyclic(g, todo);
    InsertChains(rows, company, todo, order, |todo|);
    OrderableIffAcyclic(h, order);
    PassesFindAnOrder(h, order);
  }

  // ------------------------------------------------------------------ twelve is a limit

  function UpTo(n: nat): (s: seq<nat>)
    ensures |s| == n
  {
    seq(n, i => i)
  }

  lemma UpToHas(n: nat)
    ensures forall t: nat :: t in UpTo(n) <==> t < n
  {
    forall t: nat | t < n
      ensures t in UpTo(n)
    {
      assert UpTo(n)[t] == t;
    }
  }

  /** n tables of one row each, every row referring to the next table's. */
  function ChainRows(n: nat, company: nat): Rows
  {
    map i | 0 <= i < n :: RowKey(i, 0) := ChainRow(i, n, company)
  }

  function ChainRow(i: nat, n: nat, company: nat): Row { Row(company, if i + 1 < n then {RowKey(i + 1, 0)} else {}, 0) }

  predicate NeedsTheNext(g: Graph, n: nat)
  {
    && (forall t :: 0 <= t < n ==> t !in g.never)
    && (forall t, u :: 0 <= t < n && 0 <= u < n ==> ((t, u) in g.needs <==> u == t + 1))
  }

  predicate NeedsThePrevious(g: Graph, n: nat)
  {
    && (forall t :: 0 <= t < n ==> t !in g.never)
    && (forall t, u :: 0 <= t < n && 0 <= u < n ==> ((t, u) in g.needs <==> t == u + 1))
  }

  lemma {:induction false} OnePassDown(g: Graph, n: nat, k: nat)
    requires k <= n && NeedsThePrevious(g, n)
    ensures Stuck(g, UpTo(n)[k..], []) == []
    decreases n - k
  {
    if k < n {
      var rest := UpTo(n)[k..];
      assert rest[1..] == UpTo(n)[k + 1..] && rest[0] == k;
      assert forall i :: 0 <= i < |rest| ==> rest[i] == k + i;
      assert Goes(g, k, Ids([]) + Ids(rest));
      OnePassDown(g, n, k + 1);
    }
  }

  /** Against the order of names, a pass clears only the last table. */
  lemma {:induction false} OnePassUp(g: Graph, n: nat, m: nat, k: nat)
    requires k < m <= n && NeedsTheNext(g, n)
    ensures Stuck(g, UpTo(m)[k..], UpTo(k)) == UpTo(m - 1)
    decreases m - k
  {
    var rest := UpTo(m)[k..];
    assert rest[0] == k && rest[1..] == UpTo(m)[k + 1..];
    if k + 1 < m {
      assert UpTo(m)[k..][1] == k + 1;
      assert (k, k + 1) in g.needs && k + 1 in Ids(rest);
      assert UpTo(k) + [k] == UpTo(k + 1);
      OnePassUp(g, n, m, k + 1);
    } else {
      forall u | u in Ids(UpTo(k)) + Ids(rest) && u != k
        ensures (k, u) !in g.needs
      {
        assert u < m;
      }
      assert rest[1..] == [];
    }
  }

  lemma {:induction false} PassesUp(g: Graph, n: nat, p: nat)
    requires NeedsTheNext(g, n) && p <= n
    ensures Left(g, UpTo(n), p) == UpTo(n - p)
  {
    if p > 0 {
      PassesUp(g, n, p - 1);
      assert UpTo(n - p + 1)[0..] == UpTo(n - p + 1) && UpTo(0) == [];
      OnePassUp(g, n, n - p + 1, 0);
    }
  }

  lemma ChainDeleteGraph(n: nat, company: nat)
    ensures NeedsThePrevious(DeleteGraph(ChainRows(n, company), company, Ids(UpTo(n))), n)
  {
    var rows := ChainRows(n, company);
    forall t, u | 0 <= t < n && 0 <= u < n
      ensures Refers(rows, company, u, t) <==> t == u + 1
    {
      if t == u + 1 {
        assert RowKey(t, 0) in rows[RowKey(u, 0)].refs;
        assert OfCompany(rows, RowKey(u, 0), company, {u}) && OfCompany(rows, RowKey(t, 0), company, {t});
      }
    }
    UpToHas(n);
    forall t | 0 <= t < n
      ensures !HeldOutside(rows, company, Ids(UpTo(n)), t)
    {
      assert forall k :: k in rows ==> OfCompany(rows, k, company, Ids(UpTo(n)));
    }
  }

  lemma ChainIsTaken(n: nat, company: nat)
    ensures Live(ChainRows(n, company), company, UpTo(n)) == map[]
    ensures Taken(ChainRows(n, company), company, UpTo(n)) == Archive(Ids(UpTo(n)), ChainRows(n, company))
  {
    var rows := ChainRows(n, company);
    UpToHas(n);
    assert forall k :: k in rows ==> OfCompany(rows, k, company, Ids(UpTo(n)));
    assert map[] + CompanyRows(rows, company, Ids(UpTo(n))) == rows;
    assert {} + Ids(UpTo(n)) == Ids(UpTo(n));
  }

  lemma ChainInsertGraph(n: nat, company: nat)
    ensures var rows := ChainRows(n, company);
      NeedsTheNext(InsertGraph(Live(rows, company, UpTo(n)), Taken(rows, company, UpTo(n))), n)
  {
    var rows := ChainRows(n, company);
    var live, a := Live(rows, company, UpTo(n)), Taken(rows, company, UpTo(n));
    UpToHas(n);
    ChainIsTaken(n, company);
    forall t | 0 <= t < n
      ensures !Homeless(live, a, t)
    {
      NothingHomeless(rows, company, UpTo(n), t);
    }
    forall t, u | 0 <= t < n && 0 <= u < n
      ensures Waits(live, a, t, u) <==> u == t + 1
    {
      if u == t + 1 {
        assert RowKey(t, 0) in a.rows && RowKey(u, 0) in a.rows[RowKey(t, 0)].refs && RowKey(u, 0) in a.rows;
      }
    }
  }

  /** A chain in the order of names is purged in one pass whatever its length, and restored only up to twelve tables. */
  lemma LongChainsCannotComeBack(n: nat, company: nat)
    requires 0 < n
    ensures var rows := ChainRows(n, company);
      && Referential(rows)
      && Left(DeleteGraph(rows, company, Ids(UpTo(n))), UpTo(n), 1) == []
      && (Left(InsertGraph(Live(rows, company, UpTo(n)), Taken(rows, company, UpTo(n))), UpTo(n), MAX_PASSES) == []
          <==> n <= 12)
  {
    var rows := ChainRows(n, company);
    ChainDeleteGraph(n, company);
    ChainGoesDownInOne(DeleteGraph(rows, company, Ids(UpTo(n))), n);
    ChainInsertGraph(n, company);
    ChainComesUpInTwelve(InsertGraph(Live(rows, company, UpTo(n)), Taken(rows, company, UpTo(n))), n);
  }

  lemma ChainGoesDownInOne(g: Graph, n: nat)
    requires NeedsThePrevious(g, n)
    ensures Left(g, UpTo(n), 1) == []
  {
    assert UpTo(n)[0..] == UpTo(n);
    OnePassDown(g, n, 0);
    assert Left(g, UpTo(n), 0) == UpTo(n) && Left(g, UpTo(n), 1) == Pass(g, UpTo(n));
  }

  lemma ChainComesUpInTwelve(h: Graph, n: nat)
    requires NeedsTheNext(h, n)
    ensures Left(h, UpTo(n), MAX_PASSES) == [] <==> n <= MAX_PASSES
  {
    if n <= MAX_PASSES {
      PassesUp(h, n, n);
      StaysEmpty(h, UpTo(n), n, MAX_PASSES);
    } else {
      PassesUp(h, n, MAX_PASSES);
    }
  }
}
