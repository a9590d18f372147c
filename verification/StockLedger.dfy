/**
 The movement ledger and the balance rows kept beside it. A warehouse or batch of 0 stands
 for none. A document never heard of is one still being entered.
 */
module StockLedger {
  import opened Outcomes
  import opened DocumentTypes

  datatype Key = Key(item: nat, warehouse: nat, batch: nat)

  datatype Kind = Physical | Reversal(of: nat)

  /** A movement's id is its place in the ledger. */
  datatype Movement = Movement(doc: nat, line: nat, key: Key, qty: int, value: Option<int>, kind: Kind)

  datatype BalanceRow = BalanceRow(key: Key, onHand: int)

  datatype Line = Line(direction: Flow, key: Key, baseQty: int, value: int, valued: bool)

  datatype Status = Entered | Posted | Failed | Reversed

  datatype Books = Books(movements: seq<Movement>, rows: seq<BalanceRow>, status: map<nat, Status>)

  function StatusOf(b: Books, doc: nat): Status { if doc in b.status then b.status[doc] else Entered }

  // ------------------------------------------------------------------ balances

  /** Adds to the row of the key, or inserts it. */
  function ApplyDelta(rows: seq<BalanceRow>, key: Key, delta: int): seq<BalanceRow>
  {
    if delta == 0 then rows
    else if rows == [] then [BalanceRow(key, delta)]
    else if rows[0].key == key then [BalanceRow(key, rows[0].onHand + delta)] + rows[1..]
    else [rows[0]] + ApplyDelta(rows[1..], key, delta)
  }

  predicate Matches(row: Key, asked: Key)
  {
    row.item == asked.item && (asked.warehouse == 0 || row.warehouse == asked.warehouse)
      && (asked.batch == 0 || row.batch == asked.batch)
  }

  /** On hand for an item over every row the warehouse and batch asked about cover. */
  function Available(rows: seq<BalanceRow>, asked: Key): int
  {
    if rows == [] then 0 else (if Matches(rows[0].key, asked) then rows[0].onHand else 0) + Available(rows[1..], asked)
  }

  function OnHand(rows: seq<BalanceRow>, key: Key): int
  {
    if rows == [] then 0 else (if rows[0].key == key then rows[0].onHand else 0) + OnHand(rows[1..], key)
  }

  // ------------------------------------------------------------------ posting and reversing, on values

  function Record(b: Books, m: Movement): Books
  {
    b.(movements := b.movements + [m], rows := ApplyDelta(b.rows, m.key, m.qty))
  }

  function MovementFor(doc: nat, i: nat, l: Line): Movement
  {
    var sign := if l.direction == In then 1 else -1;
    Movement(doc, i, l.key, sign * l.baseQty, if l.valued then Some(sign * l.value) else None, Kind.Physical)
  }

  predicate Moves(l: Line) { l.direction != Neither && 0 < l.baseQty }

  /** The negative-stock guard: blocks an outward line that is short by more than 0.0001. */
  predicate Blocked(rows: seq<BalanceRow>, l: Line, blocks: bool)
  {
    blocks && l.direction == Out && Available(rows, l.key) + 1 < l.baseQty
  }

  function PostLines(b: Books, doc: nat, lines: seq<Line>, blocks: bool): Option<Books>
  {
    if lines == [] then Some(b)
    else
      var k := |lines| - 1;
      var before := PostLines(b, doc, lines[..k], blocks);
      if before.None? then None
      else if !Moves(lines[k]) then before
      else if Blocked(before.value.rows, lines[k], blocks) then None
      else Some(Record(before.value, MovementFor(doc, k, lines[k])))
  }

  /** Fails anywhere after the movements as well as at the guard; a failure leaves only the status. */
  function Post(b: Books, doc: nat, lines: seq<Line>, blocks: bool, laterStepFails: bool): Books
  {
    if StatusOf(b, doc) in {Posted, Reversed} then b
    else
      var r := PostLines(b, doc, lines, blocks);
      if r.None? || laterStepFails then b.(status := b.status[doc := Failed])
      else r.value.(status := b.status[doc := Posted])
  }

  function Compensation(m: Movement, id: nat): Movement
  {
    m.(qty := -m.qty, value := if m.value.Some? then Some(-m.value.value) else None, kind := Reversal(id))
  }

  predicate PhysicalOf(m: Movement, doc: nat) { m.doc == doc && m.kind == Kind.Physical }

  /** Compensates the document's physical movements among the first k. */
  function ReverseUpTo(b: Books, doc: nat, k: nat): Books
    requires k <= |b.movements|
  {
    if k == 0 then b
    else
      var before := ReverseUpTo(b, doc, k - 1);
      if PhysicalOf(b.movements[k - 1], doc) then Record(before, Compensation(b.movements[k - 1], k - 1)) else before
  }

  function Reverse(b: Books, doc: nat, laterStepFails: bool): Books
  {
    if StatusOf(b, doc) != Posted || laterStepFails then b
    else
      var after := ReverseUpTo(b, doc, |b.movements|);
      after.(status := b.status[doc := Reversed])
  }

  /** Reversal, replacement and posting stand or fall together. */
  function Revise(b: Books, doc: nat, replacement: nat, lines: seq<Line>, blocks: bool, laterStepFails: bool): Books
  {
    var reversed := Reverse(b, doc, false);
    if StatusOf(reversed, doc) != Reversed then b
    else
      var posted := Post(reversed, replacement, lines, blocks, laterStepFails);
      if StatusOf(posted, replacement) == Posted then posted else b
  }

  // ------------------------------------------------------------------ the tables as posting updates them

  /** The scan for a row has come this far without finding it. */
  lemma PassedRow(rows: seq<BalanceRow>, i: nat, key: Key, delta: int)
    requires i < |rows| && rows[i].key != key && delta != 0
    ensures rows[..i] + ApplyDelta(rows[i..], key, delta) == rows[..i + 1] + ApplyDelta(rows[i + 1..], key, delta)
  {
    assert rows[i..][1..] == rows[i + 1..];
    assert rows[..i + 1] == rows[..i] + [rows[i]];
  }

  lemma ScanEnds(rows: seq<BalanceRow>, i: nat, key: Key, delta: int)
    requires i <= |rows| && delta != 0 && (i < |rows| ==> rows[i].key == key)
    ensures rows[..i] + ApplyDelta(rows[i..], key, delta) ==
      if i < |rows| then rows[..i] + ([BalanceRow(key, rows[i].onHand + delta)] + rows[i + 1..])
      else rows + [BalanceRow(key, delta)]
  {
    if i < |rows| {
      assert rows[i..][1..] == rows[i + 1..];
    } else {
      assert rows[..i] == rows;
    }
  }

  class Ledger {
    var movements: seq<Movement>
    var rows: seq<BalanceRow>
    var status: map<nat, Status>

    function State(): Books
      reads this
    {
      Books(movements, rows, status)
    }

    method ApplyBalance(key: Key, delta: int)
      modifies this`rows
      ensures rows == ApplyDelta(old(rows), key, delta)
    {
      if delta == 0 {
        return;
      }
      var i := 0;
      while i < |rows| && rows[i].key != key
        invariant 0 <= i <= |rows| && rows == old(rows)
        invariant rows[..i] + ApplyDelta(rows[i..], key, delta) == ApplyDelta(rows, key, delta)
      {
        PassedRow(rows, i, key, delta);
        i := i + 1;
      }
      ScanEnds(rows, i, key, delta);
      if i < |rows| {
        rows := rows[..i] + ([BalanceRow(key, rows[i].onHand + delta)] + rows[i + 1..]);
      } else {
        rows := rows + [BalanceRow(key, delta)];
      }
    }

    method RecordMovement(m: Movement)
      modifies this`movements, this`rows
      ensures State() == Record(old(State()), m)
    {
      movements := movements + [m];
      ApplyBalance(m.key, m.qty);
    }

    method PostDocument(doc: nat, lines: seq<Line>, blocks: bool, laterStepFails: bool) returns (posted: bool)
      modifies this
      ensures State() == Post(old(State()), doc, lines, blocks, laterStepFails)
      ensures posted <==> StatusOf(State(), doc) == Posted
      ensures posted && StatusOf(old(State()), doc) != Posted ==>
        && WritesLines(old(movements), movements, doc, lines)
        && (forall key :: OnHand(rows, key) == OnHand(old(rows), key) + Brought(lines, key) - Taken(lines, key))
    {
      var s := StatusOf(State(), doc);
      if s == Posted || s == Reversed {
        return s == Posted;
      }
      ghost var start := State();
      var snapshot := State();
      var i, failed := 0, false;
      while i < |lines| && !failed
        invariant 0 <= i <= |lines| && status == snapshot.status
        invariant !failed ==> PostLines(start, doc, lines[..i], blocks) == Some(State())
        invariant failed ==> PostLines(start, doc, lines, blocks) == None
      {
        assert lines[..i + 1][..i] == lines[..i];
        if Moves(lines[i]) {
          if Blocked(rows, lines[i], blocks) {
            FailsEarly(start, doc, lines, i + 1, blocks);
            failed := true;
          } else {
            RecordMovement(MovementFor(doc, i, lines[i]));
          }
        }
        i := i + 1;
      }
      assert !failed ==> lines[..i] == lines;
      if failed || laterStepFails {
        movements, rows := snapshot.movements, snapshot.rows;
        status := status[doc := Failed];
        return false;
      }
      status := status[doc := Posted];
      PostIsAllOrNothing(start, doc, lines, blocks, laterStepFails);
      return true;
    }

    method ReverseDocument(doc: nat, laterStepFails: bool) returns (reversed: bool)
      modifies this
      ensures State() == Reverse(old(State()), doc, laterStepFails)
      ensures reversed <==> StatusOf(State(), doc) == Reversed
      ensures reversed && StatusOf(old(State()), doc) == Posted ==>
        forall key :: OnHand(rows, key) == OnHand(old(rows), key) - DocOnKey(old(movements), doc, key)
    {
      if StatusOf(State(), doc) == Posted {
        ReverseGivesBack(State(), doc);
      }
      var s := StatusOf(State(), doc);
      if s != Posted {
        return s == Reversed;
      }
      var snapshot := State();
      for k := 0 to |snapshot.movements|
        invariant State() == ReverseUpTo(snapshot, doc, k)
        invariant status == snapshot.status
      {
        if PhysicalOf(snapshot.movements[k], doc) {
          RecordMovement(Compensation(snapshot.movements[k], k));
        }
      }
      if laterStepFails {
        movements, rows := snapshot.movements, snapshot.rows;
        return false;
      }
      status := status[doc := Reversed];
      return true;
    }

    method ReviseDocument(doc: nat, replacement: nat, lines: seq<Line>, blocks: bool, laterStepFails: bool)
      returns (revised: bool)
      modifies this
      ensures State() == Revise(old(State()), doc, replacement, lines, blocks, laterStepFails)
    {
      var snapshot := State();
      var reversed := ReverseDocument(doc, false);
      if !reversed {
        return false;
      }
      revised := PostDocument(replacement, lines, blocks, laterStepFails);
      if !revised {
        movements, rows, status := snapshot.movements, snapshot.rows, snapshot.status;
      }
    }
  }

  /** A line refused at any point refuses the document. */
  lemma {:induction false} FailsEarly(b: Books, doc: nat, lines: seq<Line>, i: nat, blocks: bool)
    requires i <= |lines| && PostLines(b, doc, lines[..i], blocks).None?
    ensures PostLines(b, doc, lines, blocks).None?
    decreases |lines|
  {
    if i == |lines| {
      assert lines[..i] == lines;
    } else {
      assert lines[..|lines| - 1][..i] == lines[..i];
      FailsEarly(b, doc, lines[..|lines| - 1], i, blocks);
    }
  }

  // ------------------------------------------------------------------ runs

  datatype Event =
    | PostEvent(doc: nat, lines: seq<Line>, blocks: bool, fails: bool)
    | ReverseEvent(doc: nat, fails: bool)
    | ReviseEvent(doc: nat, replacement: nat, lines: seq<Line>, blocks: bool, fails: bool)

  function Step(b: Books, e: Event): Books
  {
    match e
    case PostEvent(doc, lines, blocks, fails) => Post(b, doc, lines, blocks, fails)
    case ReverseEvent(doc, fails) => Reverse(b, doc, fails)
    case ReviseEvent(doc, replacement, lines, blocks, fails) => Revise(b, doc, replacement, lines, blocks, fails)
  }

  function Run(opening: seq<BalanceRow>, es: seq<Event>): Books
  {
    if es == [] then Books([], opening, map[]) else Step(Run(opening, es[..|es| - 1]), es[|es| - 1])
  }

  /** What the movements add up to under a key. */
  function LedgerQty(ms: seq<Movement>, key: Key): int
  {
    if ms == [] then 0
    else LedgerQty(ms[..|ms| - 1], key) + if ms[|ms| - 1].key == key then ms[|ms| - 1].qty else 0
  }

  function DocQty(ms: seq<Movement>, doc: nat): int
  {
    if ms == [] then 0
    else DocQty(ms[..|ms| - 1], doc) + if ms[|ms| - 1].doc == doc then ms[|ms| - 1].qty else 0
  }

  function ValueOf(m: Movement): int { if m.value.Some? then m.value.value else 0 }

  function DocValue(ms: seq<Movement>, doc: nat): int
  {
    if ms == [] then 0
    else DocValue(ms[..|ms| - 1], doc) + if ms[|ms| - 1].doc == doc then ValueOf(ms[|ms| - 1]) else 0
  }

  /** A reversal names an earlier physical movement of its own document and cancels it. */
  ghost predicate ReversalOk(ms: seq<Movement>, j: nat)
    requires j < |ms|
  {
    ms[j].kind.Reversal? ==>
      var i := ms[j].kind.of;
      i < j && ms[i].kind == Kind.Physical && ms[j] == Compensation(ms[i], i)
  }

  ghost predicate Agrees(opening: seq<BalanceRow>, b: Books)
  {
    forall key :: OnHand(b.rows, key) == OnHand(opening, key) + LedgerQty(b.movements, key)
  }

  /** Of a document: nothing before it is posted, no reversal until it is reversed, nothing left after. */
  ghost predicate DocOk(b: Books, doc: nat)
  {
    match StatusOf(b, doc)
    case Posted =>
      forall i :: 0 <= i < |b.movements| && b.movements[i].doc == doc ==> b.movements[i].kind == Kind.Physical
    case Reversed => DocQty(b.movements, doc) == 0 && DocValue(b.movements, doc) == 0
    case _ => forall i :: 0 <= i < |b.movements| ==> b.movements[i].doc != doc
  }

  ghost predicate OneReversalEach(ms: seq<Movement>)
  {
    && (forall j :: 0 <= j < |ms| ==> ReversalOk(ms, j))
    && (forall j, k ::
        0 <= j < k < |ms| && ms[j].kind.Reversal? && ms[k].kind.Reversal? ==> ms[j].kind.of != ms[k].kind.of)
  }

  ghost predicate Inv(opening: seq<BalanceRow>, b: Books)
  {
    Agrees(opening, b) && OneReversalEach(b.movements) && forall doc: nat :: DocOk(b, doc)
  }

  lemma {:induction false} DeltaMovesOneRow(rows: seq<BalanceRow>, key: Key, delta: int, other: Key)
    ensures OnHand(ApplyDelta(rows, key, delta), other) == OnHand(rows, other) + if other == key then delta else 0
  {
    if delta != 0 && rows != [] {
      if rows[0].key == key {
        assert ApplyDelta(rows, key, delta)[1..] == rows[1..];
      } else {
        DeltaMovesOneRow(rows[1..], key, delta, other);
        assert ApplyDelta(rows, key, delta)[1..] == ApplyDelta(rows[1..], key, delta);
      }
    }
  }

  lemma RecordKeepsAgreement(opening: seq<BalanceRow>, b: Books, m: Movement)
    requires Agrees(opening, b)
    ensures Agrees(opening, Record(b, m))
  {
    assert (b.movements + [m])[..|b.movements|] == b.movements;
    forall key {
      DeltaMovesOneRow(b.rows, m.key, m.qty, key);
    }
  }

  // ------------------------------------------------------------------ posting keeps it

  /** What posting adds: physical movements of the one document, after everything already there. */
  ghost predicate Extends(b: Books, b': Books, doc: nat, physical: bool)
  {
    && |b.movements| <= |b'.movements| && b'.movements[..|b.movements|] == b.movements && b'.status == b.status
    && forall i :: |b.movements| <= i < |b'.movements| ==>
       b'.movements[i].doc == doc && (b'.movements[i].kind == Kind.Physical <==> physical)
  }

  lemma {:induction false} PostLinesKeeps(opening: seq<BalanceRow>, b: Books, doc: nat, lines: seq<Line>, blocks: bool)
    requires Agrees(opening, b) && OneReversalEach(b.movements) && PostLines(b, doc, lines, blocks).Some?
    ensures var b' := PostLines(b, doc, lines, blocks).value;
      Agrees(opening, b') && OneReversalEach(b'.movements) && Extends(b, b', doc, true)
  {
    if lines != [] {
      var k := |lines| - 1;
      PostLinesKeeps(opening, b, doc, lines[..k], blocks);
      var before := PostLines(b, doc, lines[..k], blocks).value;
      if Moves(lines[k]) {
        RecordKeepsAgreement(opening, before, MovementFor(doc, k, lines[k]));
        AppendPhysical(before.movements, MovementFor(doc, k, lines[k]));
      }
    }
  }

  lemma AppendPhysical(ms: seq<Movement>, m: Movement)
    requires OneReversalEach(ms) && m.kind == Kind.Physical
    ensures OneReversalEach(ms + [m])
  {
    forall j | 0 <= j < |ms|
      ensures ReversalOk(ms + [m], j)
    {
      assert ReversalOk(ms, j);
    }
  }

  lemma {:induction false} OtherDocsUntouched(ms: seq<Movement>, more: seq<Movement>, doc: nat)
    requires forall i :: 0 <= i < |more| ==> more[i].doc != doc
    ensures DocQty(ms + more, doc) == DocQty(ms, doc)
      && DocValue(ms + more, doc) == DocValue(ms, doc)
  {
    if more == [] {
      assert ms + more == ms;
    } else {
      assert (ms + more)[..|ms + more| - 1] == ms + more[..|more| - 1];
      OtherDocsUntouched(ms, more[..|more| - 1], doc);
    }
  }

  /** A document other than the one acted on keeps its own account. */
  lemma OthersKeepTheirAccount(b: Books, b': Books, doc: nat, physical: bool, other: nat, s: Status)
    requires Extends(b, b', doc, physical) && DocOk(b, other) && other != doc
    ensures DocOk(b'.(status := b.status[doc := s]), other)
  {
    var n := |b.movements|;
    assert b'.movements == b.movements + b'.movements[n..];
    OtherDocsUntouched(b.movements, b'.movements[n..], other);
    assert forall i :: 0 <= i < n ==> b'.movements[i] == b.movements[i];
  }

  lemma PostKeepsInv(opening: seq<BalanceRow>, b: Books, doc: nat, lines: seq<Line>, blocks: bool, fails: bool)
    requires Inv(opening, b)
    ensures Inv(opening, Post(b, doc, lines, blocks, fails))
  {
    var after := Post(b, doc, lines, blocks, fails);
    if StatusOf(b, doc) != Posted && StatusOf(b, doc) != Reversed {
      assert DocOk(b, doc);
      var r := PostLines(b, doc, lines, blocks);
      if r.None? || fails {
        forall other: nat
          ensures DocOk(after, other)
        {
          assert DocOk(b, other);
        }
      } else {
        PostLinesKeeps(opening, b, doc, lines, blocks);
        forall other: nat
          ensures DocOk(after, other)
        {
          assert DocOk(b, other);
          if other != doc {
            OthersKeepTheirAccount(b, r.value, doc, true, other, Posted);
          } else {
            assert forall i :: 0 <= i < |b.movements| ==> r.value.movements[i] == b.movements[i];
          }
        }
      }
    }
  }

  // ------------------------------------------------------------------ reversing keeps it

  /** The account of the physical movements among the first k. */
  function PhysicalQty(ms: seq<Movement>, doc: nat, k: nat): int
    requires k <= |ms|
  {
    if k == 0 then 0 else PhysicalQty(ms, doc, k - 1) + if PhysicalOf(ms[k - 1], doc) then ms[k - 1].qty else 0
  }

  function PhysicalValue(ms: seq<Movement>, doc: nat, k: nat): int
    requires k <= |ms|
  {
    if k == 0 then 0 else PhysicalValue(ms, doc, k - 1) + if PhysicalOf(ms[k - 1], doc) then ValueOf(ms[k - 1]) else 0
  }

  lemma {:induction false} AllPhysical(ms: seq<Movement>, doc: nat, k: nat)
    requires k <= |ms| && forall i :: 0 <= i < |ms| && ms[i].doc == doc ==> ms[i].kind == Kind.Physical
    ensures PhysicalQty(ms, doc, k) == DocQty(ms[..k], doc)
      && PhysicalValue(ms, doc, k) == DocValue(ms[..k], doc)
  {
    if k != 0 {
      AllPhysical(ms, doc, k - 1);
      assert ms[..k][..k - 1] == ms[..k - 1];
    }
  }

  ghost predicate ReversalsBelow(ms: seq<Movement>, from: nat, k: nat)
    requires from <= |ms|
  {
    forall j :: from <= j < |ms| && ms[j].kind.Reversal? ==> ms[j].kind.of < k
  }

  lemma {:induction false} ReverseUpToTotals(opening: seq<BalanceRow>, b: Books, doc: nat, k: nat)
    requires Agrees(opening, b) && k <= |b.movements|
    ensures var b' := ReverseUpTo(b, doc, k);
      && Agrees(opening, b')
      && DocQty(b'.movements, doc) == DocQty(b.movements, doc) - PhysicalQty(b.movements, doc, k)
      && DocValue(b'.movements, doc) == DocValue(b.movements, doc) - PhysicalValue(b.movements, doc, k)
  {
    if k != 0 {
      ReverseUpToTotals(opening, b, doc, k - 1);
      var before := ReverseUpTo(b, doc, k - 1);
      var m := b.movements[k - 1];
      if PhysicalOf(m, doc) {
        RecordKeepsAgreement(opening, before, Compensation(m, k - 1));
      }
    }
  }

  lemma {:induction false} ReverseUpToExtends(b: Books, doc: nat, k: nat)
    requires k <= |b.movements|
    ensures var b' := ReverseUpTo(b, doc, k);
      Extends(b, b', doc, false) && ReversalsBelow(b'.movements, |b.movements|, k)
  {
    if k != 0 {
      ReverseUpToExtends(b, doc, k - 1);
    }
  }

  lemma {:induction false} ReverseUpToDistinct(b: Books, doc: nat, k: nat)
    requires OneReversalEach(b.movements) && k <= |b.movements|
    requires forall i :: 0 <= i < |b.movements| && b.movements[i].doc == doc ==> b.movements[i].kind == Kind.Physical
    ensures OneReversalEach(ReverseUpTo(b, doc, k).movements)
  {
    if k != 0 {
      ReverseUpToDistinct(b, doc, k - 1);
      ReverseUpToExtends(b, doc, k - 1);
      if PhysicalOf(b.movements[k - 1], doc) {
        var before := ReverseUpTo(b, doc, k - 1);
        assert before.movements[k - 1] == b.movements[k - 1];
        AppendReversal(b.movements, before.movements, doc, k - 1);
      }
    }
  }

  /** No earlier reversal names movement i: not one of the old rows, whose document was not reversed, nor a new one. */
  lemma AppendReversal(booked: seq<Movement>, ms: seq<Movement>, doc: nat, i: nat)
    requires OneReversalEach(ms) && i < |booked| <= |ms| && ms[..|booked|] == booked && PhysicalOf(ms[i], doc)
    requires forall j :: 0 <= j < |booked| && booked[j].doc == doc ==> booked[j].kind == Kind.Physical
    requires ReversalsBelow(ms, |booked|, i)
    ensures OneReversalEach(ms + [Compensation(ms[i], i)])
  {
    var more := ms + [Compensation(ms[i], i)];
    assert forall j :: 0 <= j < |booked| ==> ms[j] == booked[j];
    forall j | 0 <= j < |more|
      ensures ReversalOk(more, j)
    {
      if j < |ms| {
        assert ReversalOk(ms, j);
      }
    }
    forall j | 0 <= j < |ms| && ms[j].kind.Reversal?
      ensures ms[j].kind.of != i
    {
      assert ReversalOk(ms, j);
    }
  }

  lemma ReverseKeepsInv(opening: seq<BalanceRow>, b: Books, doc: nat, fails: bool)
    requires Inv(opening, b)
    ensures Inv(opening, Reverse(b, doc, fails))
  {
    if StatusOf(b, doc) == Posted && !fails {
      var n := |b.movements|;
      var b' := ReverseUpTo(b, doc, n);
      assert DocOk(b, doc);
      ReverseUpToTotals(opening, b, doc, n);
      ReverseUpToExtends(b, doc, n);
      ReverseUpToDistinct(b, doc, n);
      AllPhysical(b.movements, doc, n);
      assert b.movements[..n] == b.movements;
      forall other: nat
        ensures DocOk(Reverse(b, doc, fails), other)
      {
        assert DocOk(b, other);
        if other != doc {
          OthersKeepTheirAccount(b, b', doc, false, other, Reversed);
        }
      }
    }
  }

  lemma StepKeepsInv(opening: seq<BalanceRow>, b: Books, e: Event)
    requires Inv(opening, b)
    ensures Inv(opening, Step(b, e))
  {
    match e {
      case PostEvent(doc, lines, blocks, fails) => PostKeepsInv(opening, b, doc, lines, blocks, fails);
      case ReverseEvent(doc, fails) => ReverseKeepsInv(opening, b, doc, fails);
      case ReviseEvent(doc, replacement, lines, blocks, fails) =>
        ReverseKeepsInv(opening, b, doc, false);
        PostKeepsInv(opening, Reverse(b, doc, false), replacement, lines, blocks, fails);
    }
  }

  /**
   After any run of posts, failed posts, reversals and revisions: every balance is its
   opening figure plus its movements, every physical movement has at most one reversal, and
   a reversed document's movements add up to nothing in quantity and in value.
   */
  lemma {:induction false} BalancesAgreeWithLedger(opening: seq<BalanceRow>, es: seq<Event>)
    ensures var b := Run(opening, es);
      && (forall key :: OnHand(b.rows, key) == OnHand(opening, key) + LedgerQty(b.movements, key))
      && OneReversalEach(b.movements)
      && (forall doc: nat ::
          StatusOf(b, doc) == Reversed ==> DocQty(b.movements, doc) == 0 && DocValue(b.movements, doc) == 0)
    ensures Inv(opening, Run(opening, es))
  {
    if es != [] {
      BalancesAgreeWithLedger(opening, es[..|es| - 1]);
      StepKeepsInv(opening, Run(opening, es[..|es| - 1]), es[|es| - 1]);
    }
    var b := Run(opening, es);
    forall doc: nat | StatusOf(b, doc) == Reversed
      ensures DocQty(b.movements, doc) == 0 && DocValue(b.movements, doc) == 0
    {
      assert DocOk(b, doc);
    }
  }

  // ------------------------------------------------------------------ what posting does to the stock

  /** What a document's lines bring onto a key and take off it, line by line, in base units. */
  function Brought(lines: seq<Line>, key: Key): int
  {
    if lines == [] then 0
    else
      var l := lines[|lines| - 1];
      Brought(lines[..|lines| - 1], key) + if l.direction == In && l.key == key && 0 < l.baseQty then l.baseQty else 0
  }

  function Taken(lines: seq<Line>, key: Key): int
  {
    if lines == [] then 0
    else
      var l := lines[|lines| - 1];
      Taken(lines[..|lines| - 1], key) + if l.direction == Out && l.key == key && 0 < l.baseQty then l.baseQty else 0
  }

  /** What its valued lines are worth, inward less outward. */
  function NetWorth(lines: seq<Line>): int
  {
    if lines == [] then 0
    else
      var l := lines[|lines| - 1];
      NetWorth(lines[..|lines| - 1])
      + if l.baseQty <= 0 || !l.valued || l.direction == Neither then 0
        else if l.direction == In then l.value else -l.value
  }

  /** Inward lines add what they say to their own key, outward ones take it off, and no other key moves. */
  lemma {:induction false} PostingMovesStock(b: Books, doc: nat, lines: seq<Line>, blocks: bool, key: Key)
    requires PostLines(b, doc, lines, blocks).Some?
    ensures var after := PostLines(b, doc, lines, blocks).value;
      && OnHand(after.rows, key) == OnHand(b.rows, key) + Brought(lines, key) - Taken(lines, key)
      && LedgerQty(after.movements, key) == LedgerQty(b.movements, key) + Brought(lines, key) - Taken(lines, key)
  {
    if lines != [] {
      var k := |lines| - 1;
      PostingMovesStock(b, doc, lines[..k], blocks, key);
      if Moves(lines[k]) {
        var before := PostLines(b, doc, lines[..k], blocks).value;
        var m := MovementFor(doc, k, lines[k]);
        DeltaMovesOneRow(before.rows, m.key, m.qty, key);
        assert (before.movements + [m])[..|before.movements|] == before.movements;
      }
    }
  }

  lemma {:induction false} PostingMovesValue(b: Books, doc: nat, lines: seq<Line>, blocks: bool)
    requires PostLines(b, doc, lines, blocks).Some?
    ensures DocValue(PostLines(b, doc, lines, blocks).value.movements, doc)
      == DocValue(b.movements, doc) + NetWorth(lines)
  {
    if lines != [] {
      var k := |lines| - 1;
      PostingMovesValue(b, doc, lines[..k], blocks);
      if Moves(lines[k]) {
        var before := PostLines(b, doc, lines[..k], blocks).value;
        var m := MovementFor(doc, k, lines[k]);
        assert (before.movements + [m])[..|before.movements|] == before.movements;
      }
    }
  }

  /** The movement of a line says which line, which document, which key, how much and which way. */
  predicate IsOfLine(m: Movement, doc: nat, i: nat, l: Line)
  {
    && m.doc == doc && m.line == i && m.key == l.key && m.kind == Kind.Physical && 0 < l.baseQty
    && l.direction != Neither && m.qty == (if l.direction == In then l.baseQty else -l.baseQty)
    && (if l.valued then m.value == Some(if l.direction == In then l.value else -l.value) else m.value == None)
  }

  /** Posting writes one movement a moving line, in the order of the lines, behind what was there. */
  ghost predicate WritesLines(before: seq<Movement>, after: seq<Movement>, doc: nat, lines: seq<Line>)
  {
    && |before| <= |after| && after[..|before|] == before
    && (forall j :: |before| <= j < |after| ==>
        after[j].line < |lines| && IsOfLine(after[j], doc, after[j].line, lines[after[j].line]))
    && (forall j, k :: |before| <= j < k < |after| ==> after[j].line < after[k].line)
    && (forall i :: 0 <= i < |lines| && lines[i].direction != Neither && 0 < lines[i].baseQty ==>
        exists j :: |before| <= j < |after| && after[j].line == i)
  }

  lemma {:induction false} PostingWritesLines(b: Books, doc: nat, lines: seq<Line>, blocks: bool)
    requires PostLines(b, doc, lines, blocks).Some?
    ensures WritesLines(b.movements, PostLines(b, doc, lines, blocks).value.movements, doc, lines)
  {
    if lines != [] {
      var k := |lines| - 1;
      PostingWritesLines(b, doc, lines[..k], blocks);
      var before := PostLines(b, doc, lines[..k], blocks).value;
      WritesOneMore(b.movements, before.movements, doc, lines);
    }
  }

  lemma {:induction false} WritesOneMore(start: seq<Movement>, before: seq<Movement>, doc: nat, lines: seq<Line>)
    requires lines != [] && WritesLines(start, before, doc, lines[..|lines| - 1])
    ensures var k := |lines| - 1;
      WritesLines(start, if Moves(lines[k]) then before + [MovementFor(doc, k, lines[k])] else before, doc, lines)
  {
    var k := |lines| - 1;
    var after := if Moves(lines[k]) then before + [MovementFor(doc, k, lines[k])] else before;
    forall j | |start| <= j < |after|
      ensures after[j].line < |lines| && IsOfLine(after[j], doc, after[j].line, lines[after[j].line])
    {
      if j < |before| {
        assert lines[..k][after[j].line] == lines[after[j].line];
      }
    }
    forall i | 0 <= i < |lines| && lines[i].direction != Neither && 0 < lines[i].baseQty
      ensures exists j :: |start| <= j < |after| && after[j].line == i
    {
      LineIsWritten(start, before, doc, lines, i);
    }
  }

  lemma {:induction false} LineIsWritten(
      start: seq<Movement>, before: seq<Movement>, doc: nat, lines: seq<Line>, i: nat)
    requires lines != [] && WritesLines(start, before, doc, lines[..|lines| - 1])
    requires i < |lines| && lines[i].direction != Neither && 0 < lines[i].baseQty
    ensures var k := |lines| - 1;
      var after := if Moves(lines[k]) then before + [MovementFor(doc, k, lines[k])] else before;
      exists j :: |start| <= j < |after| && after[j].line == i
  {
    var k := |lines| - 1;
    var after := if Moves(lines[k]) then before + [MovementFor(doc, k, lines[k])] else before;
    if i < k {
      assert lines[..k][i] == lines[i];
      var j :| |start| <= j < |before| && before[j].line == i;
      assert after[j].line == i;
    } else {
      assert after[|before|].line == i;
    }
  }

  /**
   Where negative stock is blocked a document is refused exactly at an outward line that asks
   for more than 0.0001 over what its item, warehouse and batch have on hand by then.
   */
  lemma BlockedIffShort(b: Books, doc: nat, lines: seq<Line>, l: Line, blocks: bool)
    requires PostLines(b, doc, lines, blocks).Some?
    ensures PostLines(b, doc, lines + [l], blocks).None?
      <==> blocks && l.direction == Out && 0 < l.baseQty
           && Available(PostLines(b, doc, lines, blocks).value.rows, l.key) - l.baseQty < -1
  {
    assert (lines + [l])[..|lines|] == lines;
  }

  /** Without the block nothing is refused. */
  lemma {:induction false} UnblockedPosts(b: Books, doc: nat, lines: seq<Line>)
    ensures PostLines(b, doc, lines, false).Some?
  {
    if lines != [] {
      UnblockedPosts(b, doc, lines[..|lines| - 1]);
    }
  }

  /** Asked of one warehouse and one batch, what is available is what the one key holds. */
  lemma {:induction false} AvailableOfOneKey(rows: seq<BalanceRow>, key: Key)
    requires key.warehouse != 0 && key.batch != 0
    ensures Available(rows, key) == OnHand(rows, key)
  {
    if rows != [] {
      AvailableOfOneKey(rows[1..], key);
    }
  }

  /** A document is posted, with everything above, or failed with nothing of it left. */
  lemma PostIsAllOrNothing(b: Books, doc: nat, lines: seq<Line>, blocks: bool, fails: bool)
    ensures var after := Post(b, doc, lines, blocks, fails);
      if StatusOf(b, doc) == Posted || StatusOf(b, doc) == Reversed then after == b
      else if PostLines(b, doc, lines, blocks).Some? && !fails then
        && StatusOf(after, doc) == Posted && WritesLines(b.movements, after.movements, doc, lines)
        && (forall key :: OnHand(after.rows, key) == OnHand(b.rows, key) + Brought(lines, key) - Taken(lines, key))
        && DocValue(after.movements, doc) == DocValue(b.movements, doc) + NetWorth(lines)
        && (forall other: nat :: other != doc ==> StatusOf(after, other) == StatusOf(b, other))
      else
        && after.movements == b.movements && after.rows == b.rows && StatusOf(after, doc) == Failed
        && (forall other: nat :: other != doc ==> StatusOf(after, other) == StatusOf(b, other))
  {
    if PostLines(b, doc, lines, blocks).Some? {
      PostingWritesLines(b, doc, lines, blocks);
      PostingMovesValue(b, doc, lines, blocks);
      forall key {
        PostingMovesStock(b, doc, lines, blocks, key);
      }
    }
  }

  // ------------------------------------------------------------------ what reversing and revising do to it

  /** What a document's own movements moved on a key. */
  function DocOnKey(ms: seq<Movement>, doc: nat, key: Key): int
  {
    if ms == [] then 0
    else
      var m := ms[|ms| - 1];
      DocOnKey(ms[..|ms| - 1], doc, key) + if m.doc == doc && m.kind == Kind.Physical && m.key == key then m.qty else 0
  }

  lemma {:induction false} ReverseUpToOnHand(b: Books, doc: nat, k: nat, key: Key)
    requires k <= |b.movements|
    ensures OnHand(ReverseUpTo(b, doc, k).rows, key) == OnHand(b.rows, key) - DocOnKey(b.movements[..k], doc, key)
  {
    if k != 0 {
      ReverseUpToOnHand(b, doc, k - 1, key);
      var m, before := b.movements[k - 1], ReverseUpTo(b, doc, k - 1);
      assert b.movements[..k][..k - 1] == b.movements[..k - 1];
      if PhysicalOf(m, doc) {
        DeltaMovesOneRow(before.rows, m.key, -m.qty, key);
      }
    }
  }

  /** A posted document reversed gives back on every key exactly what it moved there, and is marked so. */
  lemma ReverseGivesBack(b: Books, doc: nat)
    requires StatusOf(b, doc) == Posted
    ensures var after := Reverse(b, doc, false);
      && StatusOf(after, doc) == Reversed
      && (forall key :: OnHand(after.rows, key) == OnHand(b.rows, key) - DocOnKey(b.movements, doc, key))
      && (forall other: nat :: other != doc ==> StatusOf(after, other) == StatusOf(b, other))
      && |b.movements| <= |after.movements| && after.movements[..|b.movements|] == b.movements
  {
    assert b.movements[..|b.movements|] == b.movements;
    ReverseUpToExtends(b, doc, |b.movements|);
    forall key {
      ReverseUpToOnHand(b, doc, |b.movements|, key);
    }
  }

  lemma {:induction false} DocOnKeyOfLines(ms: seq<Movement>, more: seq<Movement>, doc: nat, key: Key)
    requires forall i :: 0 <= i < |more| ==> more[i].doc == doc && more[i].kind == Kind.Physical
    ensures DocOnKey(ms + more, doc, key) == DocOnKey(ms, doc, key) + LedgerQty(ms + more, key) - LedgerQty(ms, key)
  {
    if more == [] {
      assert ms + more == ms;
    } else {
      assert (ms + more)[..|ms + more| - 1] == ms + more[..|more| - 1];
      DocOnKeyOfLines(ms, more[..|more| - 1], doc, key);
    }
  }

  lemma {:induction false} NothingOnKey(ms: seq<Movement>, doc: nat, key: Key)
    requires forall i :: 0 <= i < |ms| ==> ms[i].doc != doc
    ensures DocOnKey(ms, doc, key) == 0
  {
    if ms != [] {
      NothingOnKey(ms[..|ms| - 1], doc, key);
    }
  }

  /** Posted and then reversed, on any run before, a document leaves every balance where it was. */
  lemma PostThenReverseRestores(opening: seq<BalanceRow>, b: Books, doc: nat, lines: seq<Line>, blocks: bool)
    requires Inv(opening, b) && StatusOf(b, doc) != Posted && StatusOf(b, doc) != Reversed
    requires PostLines(b, doc, lines, blocks).Some?
    ensures var back := Reverse(Post(b, doc, lines, blocks, false), doc, false);
      StatusOf(back, doc) == Reversed && forall key :: OnHand(back.rows, key) == OnHand(b.rows, key)
  {
    var posted := Post(b, doc, lines, blocks, false);
    assert DocOk(b, doc);
    ReverseGivesBack(posted, doc);
    PostLinesKeeps(opening, b, doc, lines, blocks);
    var more := posted.movements[|b.movements|..];
    assert posted.movements == b.movements + more;
    forall key
      ensures OnHand(Reverse(posted, doc, false).rows, key) == OnHand(b.rows, key)
    {
      PostingMovesStock(b, doc, lines, blocks, key);
      DocOnKeyOfLines(b.movements, more, doc, key);
      NothingOnKey(b.movements, doc, key);
    }
  }

  /** Old document off, unless it was reversed before, and new lines on, on every key. */
  ghost predicate Replaces(b: Books, after: Books, doc: nat, lines: seq<Line>)
  {
    forall key :: OnHand(after.rows, key)
                  == OnHand(b.rows, key) - (if StatusOf(b, doc) == Posted then DocOnKey(b.movements, doc, key) else 0)
                     + Brought(lines, key) - Taken(lines, key)
  }

  /**
   A revision changes nothing, or leaves the old document reversed and the new one posted in
   its place. Of a document reversed before, it posts another replacement and takes nothing back.
   */
  lemma RevisionReplaces(b: Books, doc: nat, replacement: nat, lines: seq<Line>, blocks: bool, fails: bool)
    requires doc != replacement && StatusOf(b, replacement) !in {Posted, Reversed}
    ensures var after := Revise(b, doc, replacement, lines, blocks, fails);
      after == b
      || (StatusOf(b, doc) in {Posted, Reversed} && StatusOf(after, doc) == Reversed
          && StatusOf(after, replacement) == Posted
          && Replaces(b, after, doc, lines))
    ensures StatusOf(b, doc) in {Posted, Reversed} && !blocks && !fails ==>
      StatusOf(Revise(b, doc, replacement, lines, blocks, fails), replacement) == Posted
  {
    var reversed := Reverse(b, doc, false);
    if StatusOf(b, doc) == Posted {
      ReverseGivesBack(b, doc);
      assert StatusOf(reversed, replacement) == StatusOf(b, replacement);
    }
    PostIsAllOrNothing(reversed, replacement, lines, blocks, fails);
    UnblockedPosts(reversed, replacement, lines);
    var posted := Post(reversed, replacement, lines, blocks, fails);
    if StatusOf(posted, replacement) == Posted && StatusOf(b, doc) == Posted {
      forall key
        ensures OnHand(posted.rows, key)
          == OnHand(b.rows, key) - DocOnKey(b.movements, doc, key) + Brought(lines, key) - Taken(lines, key)
      {
        assert OnHand(posted.rows, key) == OnHand(reversed.rows, key) + Brought(lines, key) - Taken(lines, key);
      }
    }
  }

  // ------------------------------------------------------------------ transfers

  /** One transfer line as entered becomes an outward and an inward leg. */
  function Legs(item: nat, from: nat, to: nat, batch: nat, qty: int, outValue: int, inValue: int): seq<Line>
  {
    [Line(Out, Key(item, from, batch), qty, outValue, true), Line(In, Key(item, to, batch), qty, inValue, true)]
  }

  datatype TransferLine = TransferLine(item: nat, from: nat, to: nat, batch: nat, qty: int, outValue: int, inValue: int)

  function TransferLines(raw: seq<TransferLine>): seq<Line>
  {
    if raw == [] then []
    else
      var r := raw[|raw| - 1];
      TransferLines(raw[..|raw| - 1]) + Legs(r.item, r.from, r.to, r.batch, r.qty, r.outValue, r.inValue)
  }

  function ItemQty(ms: seq<Movement>, item: nat): int
  {
    if ms == [] then 0
    else ItemQty(ms[..|ms| - 1], item) + if ms[|ms| - 1].key.item == item then ms[|ms| - 1].qty else 0
  }

  /** What transfer lines carry to a key, and from it. */
  function CarriedTo(raw: seq<TransferLine>, key: Key): int
  {
    if raw == [] then 0
    else
      var r := raw[|raw| - 1];
      CarriedTo(raw[..|raw| - 1], key) + if key == Key(r.item, r.to, r.batch) && 0 < r.qty then r.qty else 0
  }

  function CarriedFrom(raw: seq<TransferLine>, key: Key): int
  {
    if raw == [] then 0
    else
      var r := raw[|raw| - 1];
      CarriedFrom(raw[..|raw| - 1], key) + if key == Key(r.item, r.from, r.batch) && 0 < r.qty then r.qty else 0
  }

  lemma {:induction false} TransferLinesCarry(raw: seq<TransferLine>, key: Key)
    ensures Brought(TransferLines(raw), key) == CarriedTo(raw, key)
    ensures Taken(TransferLines(raw), key) == CarriedFrom(raw, key)
  {
    if raw != [] {
      var before, r := TransferLines(raw[..|raw| - 1]), raw[|raw| - 1];
      var legs := Legs(r.item, r.from, r.to, r.batch, r.qty, r.outValue, r.inValue);
      TransferLinesCarry(raw[..|raw| - 1], key);
      assert TransferLines(raw) == before + [legs[0]] + [legs[1]];
      OneLineMore(before, legs[0], key);
      OneLineMore(before + [legs[0]], legs[1], key);
    }
  }

  lemma {:induction false} OneLineMore(lines: seq<Line>, l: Line, key: Key)
    ensures Brought(lines + [l], key)
      == Brought(lines, key) + if l.key == key && l.direction == In && 0 < l.baseQty then l.baseQty else 0
    ensures Taken(lines + [l], key)
      == Taken(lines, key) + if l.key == key && l.direction == Out && 0 < l.baseQty then l.baseQty else 0
  {
    assert (lines + [l])[..|lines|] == lines;
  }

  /** A posted transfer takes its goods off the warehouses they leave and puts them in those they reach. */
  lemma TransferMovesStock(b: Books, doc: nat, raw: seq<TransferLine>, blocks: bool, key: Key)
    requires PostLines(b, doc, TransferLines(raw), blocks).Some?
    ensures OnHand(PostLines(b, doc, TransferLines(raw), blocks).value.rows, key)
      == OnHand(b.rows, key) + CarriedTo(raw, key) - CarriedFrom(raw, key)
  {
    PostingMovesStock(b, doc, TransferLines(raw), blocks, key);
    TransferLinesCarry(raw, key);
  }

  /** One movement moves what an item and batch asked about have on hand by its quantity, or not at all. */
  lemma {:induction false} DeltaMovesAvailable(rows: seq<BalanceRow>, key: Key, delta: int, asked: Key)
    ensures Available(ApplyDelta(rows, key, delta), asked)
      == Available(rows, asked) + if Matches(key, asked) then delta else 0
  {
    if delta != 0 && rows != [] {
      if rows[0].key == key {
        assert ApplyDelta(rows, key, delta)[1..] == rows[1..];
      } else {
        DeltaMovesAvailable(rows[1..], key, delta, asked);
        assert ApplyDelta(rows, key, delta)[1..] == ApplyDelta(rows[1..], key, delta);
      }
    }
  }

  /**
   Moved between warehouses, an item keeps its total: on the ledger, and over its balance rows,
   all of them or those of any one batch.
   */
  ghost predicate SameTotals(b: Books, b': Books, item: nat)
  {
    && ItemQty(b'.movements, item) == ItemQty(b.movements, item)
    && forall batch: nat :: Available(b'.rows, Key(item, 0, batch)) == Available(b.rows, Key(item, 0, batch))
  }

  /** A posted transfer leaves every item's totals over all warehouses where they were. */
  lemma {:induction false} TransferKeepsItemTotals(b: Books, doc: nat, raw: seq<TransferLine>, blocks: bool, item: nat)
    requires PostLines(b, doc, TransferLines(raw), blocks).Some?
    ensures SameTotals(b, PostLines(b, doc, TransferLines(raw), blocks).value, item)
  {
    if raw != [] {
      var k := |raw| - 1;
      var before, r := TransferLines(raw[..k]), raw[k];
      var legs := Legs(r.item, r.from, r.to, r.batch, r.qty, r.outValue, r.inValue);
      assert TransferLines(raw) == before + [legs[0]] + [legs[1]];
      LegsCancel(b, doc, before, r, blocks, item);
      TransferKeepsItemTotals(b, doc, raw[..k], blocks, item);
    }
  }

  /** The two legs of one transfer line cancel in the item's totals. */
  lemma LegsCancel(b: Books, doc: nat, before: seq<Line>, r: TransferLine, blocks: bool, item: nat)
    requires var legs := Legs(r.item, r.from, r.to, r.batch, r.qty, r.outValue, r.inValue);
      PostLines(b, doc, before + [legs[0]] + [legs[1]], blocks).Some?
    ensures var legs := Legs(r.item, r.from, r.to, r.batch, r.qty, r.outValue, r.inValue);
      && PostLines(b, doc, before, blocks).Some?
      && SameTotals(PostLines(b, doc, before, blocks).value,
                    PostLines(b, doc, before + [legs[0]] + [legs[1]], blocks).value, item)
  {
    var legs := Legs(r.item, r.from, r.to, r.batch, r.qty, r.outValue, r.inValue);
    LineMovesTotals(b, doc, before + [legs[0]], legs[1], blocks, item);
    LineMovesTotals(b, doc, before, legs[0], blocks, item);
  }

  ghost predicate TotalsMove(b: Books, b': Books, key: Key, item: nat, moved: int)
  {
    && ItemQty(b'.movements, item) == ItemQty(b.movements, item) + (if key.item == item then moved else 0)
    && forall batch: nat :: var asked := Key(item, 0, batch);
         Available(b'.rows, asked) == Available(b.rows, asked) + if Matches(key, asked) then moved else 0
  }

  lemma RecordMovesTotals(b: Books, m: Movement, item: nat)
    ensures TotalsMove(b, Record(b, m), m.key, item, m.qty)
  {
    assert (b.movements + [m])[..|b.movements|] == b.movements;
    forall batch: nat {
      DeltaMovesAvailable(b.rows, m.key, m.qty, Key(item, 0, batch));
    }
  }

  /** One posted line moves its item's totals by what it moves, in or out. */
  lemma LineMovesTotals(b: Books, doc: nat, lines: seq<Line>, l: Line, blocks: bool, item: nat)
    requires PostLines(b, doc, lines + [l], blocks).Some?
    ensures PostLines(b, doc, lines, blocks).Some?
    ensures TotalsMove(PostLines(b, doc, lines, blocks).value, PostLines(b, doc, lines + [l], blocks).value, l.key,
                       item, if Moves(l) then MovementFor(doc, |lines|, l).qty else 0)
  {
    assert (lines + [l])[..|lines|] == lines;
    if Moves(l) {
      RecordMovesTotals(PostLines(b, doc, lines, blocks).value, MovementFor(doc, |lines|, l), item);
    }
  }
}
