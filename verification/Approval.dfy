/** The document lifecycle: who may edit, submit, approve, reject, cancel, post and reverse, and from which status. */
module Approval {
  import opened Outcomes

  datatype Status =
    | Draft
    | PendingApproval
    | Approved
    | Posting
    | Posted
    | Completed
    | PartiallyFulfilled
    | Failed
    | Reversed
    | Cancelled

  /** A line keeps what it moves apart from the challan value it declares. */
  datatype Line = Line(goods: int, challanValue: int)

  datatype Doc = Doc(status: Status, version: nat, lines: seq<Line>, jobWorkOut: bool)

  type Table = map<nat, Doc>

  /** How a posting that passed its guards ends: committed, thrown and rolled back, or its worker killed. */
  datatype Fate = Commits | Throws | Dies

  /** required and skip are the company's approval setting and the caller's option; allowed is every other guard. */
  datatype Posting = Posting(required: bool, skip: bool, allowed: bool, fate: Fate)

  datatype Op =
    | Create(id: nat, lines: seq<Line>, jobWorkOut: bool)
    | Update(id: nat, lines: seq<Line>)
    | AmendChallanValue(id: nat, values: seq<int>)
    | Submit(id: nat)
    | Approve(id: nat)
    | Reject(id: nat)
    | CancelDraft(id: nat)
    | Post(id: nat, how: Posting)
    | Reverse(id: nat, allowed: bool)
    | Revise(id: nat, newId: nat, lines: seq<Line>, jobWorkOut: bool, allowed: bool, how: Posting)

  predicate Editable(s: Status) { s == Draft || s == PendingApproval || s == Status.Approved || s == Failed }

  predicate IsPosted(s: Status) { s == Posted || s == Completed || s == PartiallyFulfilled }

  predicate Postable(s: Status) { Editable(s) }

  /** An edit is a new version; one that an approval covered, or waited for, goes back to draft. */
  function Edited(d: Doc, lines: seq<Line>): Doc
  {
    d.(lines := lines, version := d.version + 1,
       status := if d.status == Status.Approved || d.status == PendingApproval then Draft else d.status)
  }

  function Valued(lines: seq<Line>, values: seq<int>): seq<Line>
    requires |lines| == |values|
  {
    seq(|lines|, i requires 0 <= i < |lines| => lines[i].(challanValue := values[i]))
  }

  function Moved(t: Table, id: nat, from: set<Status>, to: Status): Table
  {
    if id in t && t[id].status in from then t[id := t[id].(status := to)] else t
  }

  predicate PostPasses(d: Doc, how: Posting)
  {
    Postable(d.status) && how.allowed && (how.required && !how.skip ==> d.status == Status.Approved)
  }

  function AfterPost(t: Table, id: nat, how: Posting): Table
  {
    if id !in t || !PostPasses(t[id], how) then t
    else match how.fate
      case Commits => t[id := t[id].(status := Posted)]
      case Throws => t[id := t[id].(status := Failed)]
      case Dies => t
  }

  function AfterReverse(t: Table, id: nat, allowed: bool): Table
  {
    if id in t && IsPosted(t[id].status) && allowed then t[id := t[id].(status := Reversed)] else t
  }

  predicate ReviseCommits(t: Table, op: Op)
    requires op.Revise?
  {
    && op.id in t && op.newId !in t
    && (t[op.id].status == Reversed || (IsPosted(t[op.id].status) && op.allowed))
    && PostPasses(Doc(Draft, 1, op.lines, op.jobWorkOut), op.how) && op.how.fate == Commits
  }

  /** What the operation leaves on disk, refused operations leaving everything as it was. */
  function After(t: Table, op: Op): Table
  {
    match op
    case Create(id, lines, jobWorkOut) => if id in t then t else t[id := Doc(Draft, 1, lines, jobWorkOut)]
    case Update(id, lines) => if id in t && Editable(t[id].status) then t[id := Edited(t[id], lines)] else t
    case AmendChallanValue(id, values) =>
      if id in t && t[id].jobWorkOut && IsPosted(t[id].status) && |values| == |t[id].lines|
      then t[id := t[id].(lines := Valued(t[id].lines, values), version := t[id].version + 1)] else t
    case Submit(id) => Moved(t, id, {Draft, Failed}, PendingApproval)
    case Approve(id) => Moved(t, id, {Draft, PendingApproval}, Status.Approved)
    case Reject(id) => Moved(t, id, {PendingApproval, Status.Approved}, Draft)
    case CancelDraft(id) => if id in t && Editable(t[id].status) then t[id := t[id].(status := Cancelled)] else t
    case Post(id, how) => AfterPost(t, id, how)
    case Reverse(id, allowed) => AfterReverse(t, id, allowed)
    case Revise(id, newId, lines, jobWorkOut, allowed, how) =>
      if ReviseCommits(t, op)
      then AfterReverse(t, id, allowed)[newId := Doc(Posted, 1, lines, jobWorkOut)] else t
  }

  datatype Refusal = NotFound | InvalidState | NotApproved | NotAllowed | PostingFailed | WorkerDied

  /** inv_documents. A transaction is a snapshot kept until it commits. */
  class DocumentTable {
    var rows: Table

    constructor ()
      ensures rows == map[]
    {
      rows := map[];
    }

    method CreateDocument(id: nat, lines: seq<Line>, jobWorkOut: bool)
      requires id !in rows
      modifies this
      ensures rows == After(old(rows), Create(id, lines, jobWorkOut))
    {
      rows := rows[id := Doc(Draft, 1, lines, jobWorkOut)];
    }

    method UpdateDocument(id: nat, lines: seq<Line>) returns (r: Result<Doc, Refusal>)
      modifies this
      ensures rows == After(old(rows), Update(id, lines))
      ensures r.Ok? <==> id in old(rows) && Editable(old(rows)[id].status)
    {
      if id !in rows {
        return Err(NotFound);
      }
      var doc := rows[id];
      if !Editable(doc.status) {
        return Err(InvalidState);
      }
      var header := doc.(version := doc.version + 1);
      if doc.status == Status.Approved || doc.status == PendingApproval {
        header := header.(status := Draft);
      }
      rows := rows[id := header.(lines := lines)];
      r := Ok(rows[id]);
    }

    /** transition(): submit, approve and reject differ only in the statuses they leave and reach. */
    method Transition(id: nat, from: set<Status>, to: Status) returns (r: Result<Doc, Refusal>)
      modifies this
      ensures rows == Moved(old(rows), id, from, to)
      ensures r.Ok? <==> id in old(rows) && old(rows)[id].status in from
    {
      if id !in rows {
        return Err(NotFound);
      }
      if rows[id].status !in from {
        return Err(InvalidState);
      }
      rows := rows[id := rows[id].(status := to)];
      r := Ok(rows[id]);
    }

    method Cancel(id: nat) returns (r: Result<Doc, Refusal>)
      modifies this
      ensures rows == After(old(rows), CancelDraft(id))
      ensures r.Ok? <==> id in old(rows) && Editable(old(rows)[id].status)
    {
      if id !in rows {
        return Err(NotFound);
      }
      if !Editable(rows[id].status) {
        return Err(InvalidState);
      }
      rows := rows[id := rows[id].(status := Cancelled)];
      r := Ok(rows[id]);
    }

    method PostDocument(id: nat, how: Posting) returns (r: Result<Doc, Refusal>)
      modifies this
      ensures rows == After(old(rows), Post(id, how))
      ensures r.Ok? ==> id in rows && r.value == rows[id] && IsPosted(rows[id].status)
      ensures id in rows && IsPosted(rows[id].status) ==> r.Ok?
    {
      if id !in rows {
        return Err(NotFound);
      }
      var doc := rows[id];
      if IsPosted(doc.status) {
        return Ok(doc);
      }
      if !Postable(doc.status) {
        return Err(InvalidState);
      }
      if how.required && doc.status != Status.Approved && !how.skip {
        return Err(NotApproved);
      }
      if !how.allowed {
        return Err(NotAllowed);
      }
      var snapshot := rows;
      rows := rows[id := doc.(status := Status.Posting)];
      match how.fate
      case Commits =>
        rows := rows[id := rows[id].(status := Posted)];
        r := Ok(rows[id]);
      case Throws =>
        rows := snapshot;
        rows := rows[id := rows[id].(status := Failed)];
        r := Err(PostingFailed);
      case Dies =>
        rows := snapshot;
        r := Err(WorkerDied);
    }

    method ReverseDocument(id: nat, allowed: bool) returns (r: Result<Doc, Refusal>)
      modifies this
      ensures rows == After(old(rows), Reverse(id, allowed))
      ensures r.Ok? <==> id in rows && rows[id].status == Reversed
    {
      if id !in rows {
        return Err(NotFound);
      }
      if rows[id].status == Reversed {
        return Ok(rows[id]);
      }
      if !IsPosted(rows[id].status) {
        return Err(InvalidState);
      }
      if !allowed {
        return Err(NotAllowed);
      }
      rows := rows[id := rows[id].(status := Reversed)];
      r := Ok(rows[id]);
    }

    /** Reverse, create and post inside one transaction: the first failure takes back all three. */
    method ReviseDocument(id: nat, newId: nat, lines: seq<Line>, jobWorkOut: bool, allowed: bool, how: Posting)
      returns (r: Result<Doc, Refusal>)
      requires newId !in rows
      modifies this
      ensures rows == After(old(rows), Revise(id, newId, lines, jobWorkOut, allowed, how))
      ensures r.Ok? <==> ReviseCommits(old(rows), Revise(id, newId, lines, jobWorkOut, allowed, how))
    {
      var snapshot := rows;
      var reversed := ReverseDocument(id, allowed);
      if reversed.Err? {
        return reversed;
      }
      CreateDocument(newId, lines, jobWorkOut);
      r := PostDocument(newId, how);
      if r.Err? {
        rows := snapshot;
      } else {
        assert rows == AfterReverse(snapshot, id, allowed)[newId := Doc(Posted, 1, lines, jobWorkOut)];
      }
    }
  }

  // ------------------------------------------------------------------ runs

  function Run(ops: seq<Op>): Table
  {
    if ops == [] then map[] else After(Run(ops[..|ops| - 1]), ops[|ops| - 1])
  }

  /** What every reachable row satisfies: the transaction's own status never reaches the disk. */
  lemma {:induction false} PostingIsNeverCommitted(ops: seq<Op>, id: nat)
    requires id in Run(ops)
    ensures Run(ops)[id].status !in {Status.Posting, Completed, PartiallyFulfilled}
    ensures 1 <= Run(ops)[id].version
  {
    if ops != [] {
      var t, op := Run(ops[..|ops| - 1]), ops[|ops| - 1];
      if id in t {
        PostingIsNeverCommitted(ops[..|ops| - 1], id);
      }
    }
  }

  /** An edit stores the lines it was given, counts a version and asks for approval anew, but of a failed document. */
  lemma EditStores(t: Table, id: nat, lines: seq<Line>)
    requires id in t
    ensures var d, after := t[id], After(t, Update(id, lines));
      after == match d.status
               case Draft | PendingApproval | Approved => t[id := Doc(Draft, d.version + 1, lines, d.jobWorkOut)]
               case Failed => t[id := Doc(Failed, d.version + 1, lines, d.jobWorkOut)]
               case _ => t
  {
  }

  /** A document is created a draft, once. */
  lemma CreatedAsDraft(t: Table, id: nat, lines: seq<Line>, jobWorkOut: bool)
    ensures After(t, Create(id, lines, jobWorkOut)) == if id in t then t else t[id := Doc(Draft, 1, lines, jobWorkOut)]
  {
  }

  /**
   Amending a posted job-work challan changes the values it declares and nothing it moves;
   nothing else can be amended.
   */
  lemma AmendmentKeepsGoods(t: Table, id: nat, values: seq<int>)
    requires id in t
    ensures var after := After(t, AmendChallanValue(id, values));
      if t[id].jobWorkOut && |values| == |t[id].lines|
         && (t[id].status == Posted || t[id].status == Completed || t[id].status == PartiallyFulfilled)
      then
        && after == t[id := after[id]] && after[id].status == t[id].status && after[id].version == t[id].version + 1
        && after[id].jobWorkOut && |after[id].lines| == |values|
        && forall i :: 0 <= i < |values| ==>
             after[id].lines[i].goods == t[id].lines[i].goods && after[id].lines[i].challanValue == values[i]
      else after == t
  {
  }

  /** The statuses each step leaves and reaches; from any other it leaves the table as it was. */
  lemma StepsGo(t: Table, id: nat, allowed: bool)
    requires id in t
    ensures After(t, Submit(id))
      == if t[id].status == Draft || t[id].status == Failed then t[id := t[id].(status := PendingApproval)] else t
    ensures After(t, Approve(id))
      == if t[id].status == Draft || t[id].status == PendingApproval
         then t[id := t[id].(status := Status.Approved)] else t
    ensures After(t, Reject(id))
      == if t[id].status == PendingApproval || t[id].status == Status.Approved
         then t[id := t[id].(status := Draft)] else t
    ensures After(t, CancelDraft(id)) == match t[id].status
      case Draft | PendingApproval | Approved | Failed => t[id := t[id].(status := Cancelled)]
      case _ => t
    ensures After(t, Reverse(id, allowed)) == match t[id].status
      case Posted | Completed | PartiallyFulfilled => if allowed then t[id := t[id].(status := Reversed)] else t
      case _ => t
  {
  }

  /**
   A posting that passes its guards commits as POSTED, fails as FAILED or leaves no trace; one
   that does not changes nothing.
   */
  lemma PostGoes(t: Table, id: nat, how: Posting)
    requires id in t
    ensures var open := match t[id].status
                        case Approved => true
                        case Draft | PendingApproval | Failed => !how.required || how.skip
                        case _ => false;
      After(t, Post(id, how))
      == if !open || !how.allowed then t
         else match how.fate
              case Commits => t[id := t[id].(status := Posted)]
              case Throws => t[id := t[id].(status := Failed)]
              case Dies => t
  {
  }

  /**
   A revision that commits leaves the old document reversed and the new one posted, as entered;
   any other changes nothing.
   */
  lemma RevisionGoes(t: Table, op: Op)
    requires op.Revise? && op.id in t && op.newId !in t
    ensures var was := t[op.id].status;
      var posted := was == Posted || was == Completed || was == PartiallyFulfilled;
      After(t, op)
      == if (was == Reversed || (posted && op.allowed)) && op.how.allowed && (!op.how.required || op.how.skip)
            && op.how.fate == Commits
         then t[op.id := t[op.id].(status := Reversed)][op.newId := Doc(Posted, 1, op.lines, op.jobWorkOut)]
         else t
  {
  }

  /** No operation touches a reversed or cancelled document, nor takes any document off the table. */
  lemma TerminalIsTerminal(t: Table, op: Op, id: nat)
    requires id in t
    ensures id in After(t, op)
    ensures t[id].status == Reversed || t[id].status == Cancelled ==>
      After(t, op)[id] == t[id]
    ensures IsPosted(t[id].status) ==>
      After(t, op)[id].status in {t[id].status, Reversed}
  {
  }

  lemma {:induction false} TerminalForever(t: Table, ops: seq<Op>, more: seq<Op>, id: nat)
    requires t == Run(ops) && id in t && (t[id].status == Reversed || t[id].status == Cancelled)
    ensures id in Run(ops + more) && Run(ops + more)[id] == t[id]
  {
    if more == [] {
      assert ops + more == ops;
    } else {
      var k := |more| - 1;
      assert (ops + more)[..|ops + more| - 1] == ops + more[..k];
      TerminalForever(t, ops, more[..k], id);
      TerminalIsTerminal(Run(ops + more[..k]), more[k], id);
    }
  }

  /** The document's row after the first n operations. */
  function RowAt(ops: seq<Op>, n: nat, id: nat): Option<Doc>
    requires n <= |ops|
  {
    if id in Run(ops[..n]) then Some(Run(ops[..n])[id]) else None
  }

  lemma RowAtPrefix(ops: seq<Op>, k: nat, n: nat, id: nat)
    requires n <= k <= |ops|
    ensures RowAt(ops[..k], n, id) == RowAt(ops, n, id)
  {
    assert ops[..k][..n] == ops[..n];
  }

  /** Step i approved the document, and nothing has touched its row since. */
  ghost predicate ApprovedAt(ops: seq<Op>, i: nat, id: nat)
  {
    && i < |ops| && ops[i] == Approve(id)
    && RowAt(ops, i, id).Some? && RowAt(ops, i, id).value.status in {Draft, PendingApproval}
    && (forall j :: i < j <= |ops| ==> RowAt(ops, j, id) == Some(RowAt(ops, i, id).value.(status := Status.Approved)))
  }

  lemma ApprovedStays(ops: seq<Op>, k: nat, i: nat, id: nat)
    requires |ops| == k + 1 && ApprovedAt(ops[..k], i, id) && RowAt(ops, k + 1, id) == RowAt(ops, k, id)
    ensures ApprovedAt(ops, i, id)
  {
    RowAtPrefix(ops, k, i, id);
    RowAtPrefix(ops, k, k, id);
    forall j | i < j <= k
      ensures RowAt(ops, j, id) == RowAt(ops[..k], j, id)
    {
      RowAtPrefix(ops, k, j, id);
    }
  }

  lemma ApprovedNow(ops: seq<Op>, id: nat)
    requires ops != [] && ops[|ops| - 1] == Approve(id)
    requires id in Run(ops[..|ops| - 1]) && Run(ops[..|ops| - 1])[id].status in {Draft, PendingApproval}
    ensures ApprovedAt(ops, |ops| - 1, id)
  {
    assert ops[..|ops|] == ops;
  }

  lemma {:induction false} ApprovedWasApproved(ops: seq<Op>, id: nat) returns (i: nat)
    requires id in Run(ops) && Run(ops)[id].status == Status.Approved
    ensures ApprovedAt(ops, i, id)
  {
    var k := |ops| - 1;
    if Run(ops)[id] == Run(ops[..k])[id] {
      i := ApprovedWasApproved(ops[..k], id);
      assert ops[..|ops|] == ops;
      ApprovedStays(ops, k, i, id);
    } else {
      i := k;
      ApprovedNow(ops, id);
    }
  }

  /** A posting or a revision under an approval that is required and not skipped. */
  predicate UnderApproval(op: Op) { (op.Post? || op.Revise?) && op.how.required && !op.how.skip }

  ghost predicate BecomesPosted(t: Table, op: Op, id: nat)
  {
    id in After(t, op) && IsPosted(After(t, op)[id].status) && (id in t ==> !IsPosted(t[id].status))
  }

  /**
   The version posted is the version approved: some earlier step approved the document, no
   step in between touched it, and the posting changed its status alone. A revision is refused
   whole, its replacement being a draft.
   */
  lemma PostedIsApproved(ops: seq<Op>, op: Op, id: nat) returns (i: nat)
    requires UnderApproval(op)
    ensures op.Revise? ==> After(Run(ops), op) == Run(ops)
    ensures BecomesPosted(Run(ops), op, id) ==>
      && op.Post? && id in Run(ops) && ApprovedAt(ops, i, id)
      && After(Run(ops), op)[id] == RowAt(ops, i, id).value.(status := Posted)
  {
    i := 0;
    if BecomesPosted(Run(ops), op, id) {
      i := ApprovedWasApproved(ops, id);
      assert ops[..|ops|] == ops;
      assert RowAt(ops, |ops|, id) == Some(Run(ops)[id]);
    }
  }

  /** A failed posting cannot be retried under approval until it is submitted and approved again. */
  lemma FailedNeedsApprovalAgain(ops: seq<Op>, id: nat, how: Posting)
    requires id in Run(ops) && Run(ops)[id].status == Failed && how.required && !how.skip
    ensures After(Run(ops), Post(id, how)) == Run(ops)
    ensures After(Run(ops), Approve(id)) == Run(ops)
    ensures After(After(After(Run(ops), Submit(id)), Approve(id)), Post(id, how)) ==
            if !how.allowed || how.fate == Dies then Run(ops)[id := Run(ops)[id].(status := Status.Approved)]
            else Run(ops)[id := Run(ops)[id].(status := if how.fate == Commits then Posted else Failed)]
  {
  }
}
