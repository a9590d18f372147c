/** The period lock, and everything that posting, reversing, revising and loading leave alone under one. */
module PeriodLock {
  import opened Outcomes
  import opened DocumentTypes

  /** Branch 0 is every branch. Dates are day numbers. */
  datatype Lock = Lock(branch: nat, upTo: int, released: bool)

  datatype Kind = PhysicalMove | ReversalMove | RevaluationMove

  datatype Movement = Movement(
    doc: nat, branch: nat, warehouse: nat, date: int, docType: DocType, kind: Kind, value: Option<int>)

  datatype LineValuation = LineValuation(rate: Option<int>, amount: Option<int>, landed: int)

  datatype Status = Draft | Failed | Posted | Reversed

  datatype Document = Document(
    branch: nat, date: int, docType: DocType, effect: StockEffect, status: Status, lines: seq<LineValuation>)

  datatype Books = Books(locks: seq<Lock>, docs: map<nat, Document>, movements: seq<Movement>)

  /** Does the lock cover a date of a branch? */
  predicate Covers(l: Lock, branch: nat, date: int)
  {
    !l.released && (l.branch == 0 || l.branch == branch) && date <= l.upTo
  }

  predicate Open(locks: seq<Lock>, branch: nat, date: int)
  {
    forall i :: 0 <= i < |locks| ==> !Covers(locks[i], branch, date)
  }

  /** Asks only the latest lock of the branch, as the query's ordering does; that decides for all of them. */
  method AssertPeriodOpen(locks: seq<Lock>, branch: nat, date: int) returns (open: bool)
    ensures open <==> Open(locks, branch, date)
    ensures open <==> forall i :: 0 <= i < |locks| ==>
      locks[i].released || (locks[i].branch != 0 && locks[i].branch != branch) || locks[i].upTo < date
  {
    var latest: Option<Lock> := None;
    for i := 0 to |locks|
      invariant latest.Some? ==>
        latest.value in locks && !latest.value.released && (latest.value.branch == 0 || latest.value.branch == branch)
      invariant forall k :: 0 <= k < i && !locks[k].released && (locks[k].branch == 0 || locks[k].branch == branch) ==>
        latest.Some? && locks[k].upTo <= latest.value.upTo
    {
      var l := locks[i];
      if !l.released && (l.branch == 0 || l.branch == branch) && (latest.None? || latest.value.upTo < l.upTo) {
        latest := Some(l);
      }
    }
    open := latest.None? || latest.value.upTo < date;
  }

  // ------------------------------------------------------------------ the steps

  /** A receipt a landed cost loads, with the valuation its lines are left with. */
  datatype Load = Load(target: nat, lines: seq<LineValuation>)

  datatype Event =
    | Edit(doc: nat, content: Document)
    | Post(doc: nat, lines: seq<LineValuation>, moved: seq<(nat, Option<int>)>, loads: seq<Load>)
    | PostFails(doc: nat)
    | Reverse(doc: nat)
    | Revise(doc: nat, replacement: nat, content: Document, lines: seq<LineValuation>, moved: seq<(nat, Option<int>)>,
             loads: seq<Load>)
    | AddLock(lock: Lock)
    | Release(index: nat)

  predicate Has(b: Books, doc: nat, s: Status) { doc in b.docs && b.docs[doc].status == s }

  predicate Editable(b: Books, doc: nat)
  {
    doc !in b.docs || b.docs[doc].status == Draft || b.docs[doc].status == Failed
  }

  /** A receipt a cost can be loaded onto: posted, carrying valuation, and itself in an open period. */
  predicate LoadOk(b: Books, l: Load)
  {
    && Has(b, l.target, Posted)
    && ValuesLinesNow(b.docs[l.target].docType, b.docs[l.target].effect)
    && Open(b.locks, b.docs[l.target].branch, b.docs[l.target].date)
  }

  predicate LoadsOk(b: Books, d: Document, loads: seq<Load>)
  {
    d.docType.LandedCost? ==> loads != [] && forall i :: 0 <= i < |loads| ==> LoadOk(b, loads[i])
  }

  function LoadAll(docs: map<nat, Document>, loads: seq<Load>): map<nat, Document>
  {
    if loads == [] then docs
    else
      var before := LoadAll(docs, loads[..|loads| - 1]);
      var l := loads[|loads| - 1];
      if l.target in before then before[l.target := before[l.target].(lines := l.lines)] else before
  }

  /** The movements a posting writes: all on the document's own branch and date. */
  function Written(doc: nat, d: Document, moved: seq<(nat, Option<int>)>): (ms: seq<Movement>)
    ensures forall m :: m in ms ==> m.branch == d.branch && m.date == d.date
  {
    if !MovesStockNow(d.docType, d.effect) then []
    else seq(|moved|, i requires 0 <= i < |moved| =>
             Movement(doc, d.branch, moved[i].0, d.date, d.docType, PhysicalMove, moved[i].1))
  }

  function PostStep(
      b: Books, doc: nat, lines: seq<LineValuation>, moved: seq<(nat, Option<int>)>, loads: seq<Load>): Books
  {
    if doc !in b.docs || (b.docs[doc].status != Draft && b.docs[doc].status != Failed) then b
    else
      var d := b.docs[doc];
      if !Open(b.locks, d.branch, d.date) then b
      else if !LoadsOk(b, d, loads) then b.(docs := b.docs[doc := d.(status := Failed)])
      else
        var loaded := if d.docType.LandedCost? then LoadAll(b.docs, loads) else b.docs;
        Books(b.locks, loaded[doc := d.(status := Posted, lines := lines)], b.movements + Written(doc, d, moved))
  }

  /** Posting that got past its guards and failed, for whatever reason, is rolled back and leaves its mark. */
  function FailStep(b: Books, doc: nat): Books
  {
    if doc !in b.docs || (b.docs[doc].status != Draft && b.docs[doc].status != Failed) then b
    else if !Open(b.locks, b.docs[doc].branch, b.docs[doc].date) then b
    else b.(docs := b.docs[doc := b.docs[doc].(status := Failed)])
  }

  function Negated(m: Movement): Movement
  {
    m.(kind := ReversalMove, value := if m.value.Some? then Some(-m.value.value) else None)
  }

  /** Compensating movements carry the date and branch of the movement they compensate. */
  function Compensations(ms: seq<Movement>, doc: nat): seq<Movement>
  {
    if ms == [] then []
    else
      var m := ms[|ms| - 1];
      Compensations(ms[..|ms| - 1], doc) + if m.doc == doc && m.kind == PhysicalMove then [Negated(m)] else []
  }

  function ReverseStep(b: Books, doc: nat): Books
  {
    if !Has(b, doc, Posted) || b.docs[doc].docType.LandedCost?
      || !Open(b.locks, b.docs[doc].branch, b.docs[doc].date) then b
    else Books(b.locks, b.docs[doc := b.docs[doc].(status := Reversed)], b.movements + Compensations(b.movements, doc))
  }

  /** Reverse, create and post in one transaction: unless the replacement posts, nothing happened. */
  function ReviseStep(
      b: Books, doc: nat, replacement: nat, content: Document, lines: seq<LineValuation>,
      moved: seq<(nat, Option<int>)>, loads: seq<Load>): Books
  {
    var reversed := ReverseStep(b, doc);
    if !Has(reversed, doc, Reversed) || replacement in b.docs then b
    else
      var created := reversed.(docs := reversed.docs[replacement := content.(status := Draft)]);
      var posted := PostStep(created, replacement, lines, moved, loads);
      if Has(posted, replacement, Posted) then posted else b
  }

  function Step(b: Books, e: Event): Books
  {
    match e
    case Edit(doc, content) => if Editable(b, doc) then b.(docs := b.docs[doc := content.(status := Draft)]) else b
    case Post(doc, lines, moved, loads) => PostStep(b, doc, lines, moved, loads)
    case PostFails(doc) => FailStep(b, doc)
    case Reverse(doc) => ReverseStep(b, doc)
    case Revise(doc, replacement, content, lines, moved, loads) =>
      ReviseStep(b, doc, replacement, content, lines, moved, loads)
    case AddLock(lock) => b.(locks := b.locks + [lock])
    case Release(i) => if i < |b.locks| then b.(locks := b.locks[i := b.locks[i].(released := true)]) else b
  }

  function Run(b: Books, es: seq<Event>): Books
  {
    if es == [] then b else Step(Run(b, es[..|es| - 1]), es[|es| - 1])
  }

  // ------------------------------------------------------------------ what each step does where it may

  /** In plain terms: no lock in force reaches the date in the document's branch or in all of them. */
  predicate NothingLocked(locks: seq<Lock>, branch: nat, date: int)
  {
    forall i :: 0 <= i < |locks| ==>
      locks[i].released || (locks[i].branch != 0 && locks[i].branch != branch) || locks[i].upTo < date
  }

  /** The receipts a landed cost may load: posted, valued, and each in an open period of its own. */
  ghost predicate MayLoad(b: Books, loads: seq<Load>)
  {
    && loads != []
    && forall i :: 0 <= i < |loads| ==>
         && loads[i].target in b.docs && b.docs[loads[i].target].status == Posted
         && ValuesLinesNow(b.docs[loads[i].target].docType, b.docs[loads[i].target].effect)
         && NothingLocked(b.locks, b.docs[loads[i].target].branch, b.docs[loads[i].target].date)
  }

  /** An entered document in an open period posts, with the valuation given, or fails for what it would load. */
  lemma PostGoes(b: Books, doc: nat, lines: seq<LineValuation>, moved: seq<(nat, Option<int>)>, loads: seq<Load>)
    ensures var after := PostStep(b, doc, lines, moved, loads);
      if doc !in b.docs || (b.docs[doc].status != Draft && b.docs[doc].status != Failed)
         || !NothingLocked(b.locks, b.docs[doc].branch, b.docs[doc].date) then after == b
      else if b.docs[doc].docType.LandedCost? && !MayLoad(b, loads) then
        after == b.(docs := b.docs[doc := b.docs[doc].(status := Failed)])
      else
        && doc in after.docs && after.docs[doc] == b.docs[doc].(status := Posted, lines := lines)
        && after.locks == b.locks
        && (!b.docs[doc].docType.LandedCost? ==> after.docs == b.docs[doc := after.docs[doc]])
        && |b.movements| <= |after.movements| && after.movements[..|b.movements|] == b.movements
        && (!MovesStockNow(b.docs[doc].docType, b.docs[doc].effect) ==> after.movements == b.movements)
        && (MovesStockNow(b.docs[doc].docType, b.docs[doc].effect) ==>
            && |after.movements| == |b.movements| + |moved|
            && forall i :: 0 <= i < |moved| ==>
                 after.movements[|b.movements| + i]
                 == Movement(doc, b.docs[doc].branch, moved[i].0, b.docs[doc].date, b.docs[doc].docType,
                             PhysicalMove, moved[i].1))
  {
    if doc in b.docs && b.docs[doc].docType.LandedCost? {
      assert LoadsOk(b, b.docs[doc], loads) <==> MayLoad(b, loads);
    }
  }

  /** The lines the last load gives a receipt. */
  function LastLoad(loads: seq<Load>, target: nat): Option<seq<LineValuation>>
  {
    if loads == [] then None
    else
      var last := loads[|loads| - 1];
      if last.target == target then Some(last.lines) else LastLoad(loads[..|loads| - 1], target)
  }

  /** A landed cost leaves every receipt it loads with the lines it gives it, and every other document as it was. */
  lemma {:induction false} LoadsLand(docs: map<nat, Document>, loads: seq<Load>, d: nat)
    requires d in docs
    ensures d in LoadAll(docs, loads)
    ensures var last := LastLoad(loads, d);
      LoadAll(docs, loads)[d] == if last.Some? then docs[d].(lines := last.value) else docs[d]
  {
    if loads != [] {
      LoadsLand(docs, loads[..|loads| - 1], d);
    }
  }

  function SumOf(ms: seq<Movement>, p: Movement -> bool): int
  {
    if ms == [] then 0
    else
      var m := ms[|ms| - 1];
      SumOf(ms[..|ms| - 1], p) + if p(m) && m.value.Some? then m.value.value else 0
  }

  /** Of a document's own physical movements. */
  function OfDoc(p: Movement -> bool, doc: nat): Movement -> bool
  {
    (m: Movement) => p(m) && m.doc == doc && m.kind == PhysicalMove
  }

  /** Picks by where, when and what, not by the kind of movement or its figures. */
  ghost predicate KindBlind(p: Movement -> bool)
  {
    forall m: Movement, n: Movement :: SamePlace(m, n) ==> p(m) == p(n)
  }

  predicate SamePlace(m: Movement, n: Movement)
  {
    m.doc == n.doc && m.branch == n.branch && m.warehouse == n.warehouse && m.date == n.date && m.docType == n.docType
  }

  lemma {:induction false} SumOfConcat(a: seq<Movement>, b: seq<Movement>, p: Movement -> bool)
    ensures SumOf(a + b, p) == SumOf(a, p) + SumOf(b, p)
  {
    if b == [] {
      assert a + b == a;
    } else {
      assert (a + b)[..|a + b| - 1] == a + b[..|b| - 1];
      SumOfConcat(a, b[..|b| - 1], p);
    }
  }

  lemma TakesBackOne(m: Movement, doc: nat, p: Movement -> bool)
    requires KindBlind(p)
    ensures SumOf(if m.doc == doc && m.kind == PhysicalMove then [Negated(m)] else [], p)
      == -(if OfDoc(p, doc)(m) && m.value.Some? then m.value.value else 0)
  {
    assert SamePlace(m, Negated(m)) && p(m) == p(Negated(m));
    assert [Negated(m)][..0] == [];
  }

  lemma {:induction false} CompensationsTakeBack(ms: seq<Movement>, doc: nat, p: Movement -> bool)
    requires KindBlind(p)
    ensures SumOf(Compensations(ms, doc), p) == -SumOf(ms, OfDoc(p, doc))
  {
    if ms != [] {
      var m, before := ms[|ms| - 1], Compensations(ms[..|ms| - 1], doc);
      CompensationsTakeBack(ms[..|ms| - 1], doc, p);
      SumOfConcat(before, if m.doc == doc && m.kind == PhysicalMove then [Negated(m)] else [], p);
      TakesBackOne(m, doc, p);
    }
  }

  lemma {:induction false} CompensationsAreReversals(ms: seq<Movement>, doc: nat)
    ensures forall c :: c in Compensations(ms, doc) ==> c.kind == ReversalMove && c.doc == doc
  {
    if ms != [] {
      CompensationsAreReversals(ms[..|ms| - 1], doc);
    }
  }

  /**
   A posted document in an open period is reversed, on the same dates, branches and warehouses,
   at the value it moved.
   */
  lemma ReverseGoes(b: Books, doc: nat, p: Movement -> bool)
    requires KindBlind(p)
    ensures var after := ReverseStep(b, doc);
      if doc !in b.docs || b.docs[doc].status != Posted || b.docs[doc].docType.LandedCost?
         || !NothingLocked(b.locks, b.docs[doc].branch, b.docs[doc].date) then after == b
      else
        && after.locks == b.locks && after.docs == b.docs[doc := b.docs[doc].(status := Reversed)]
        && SumOf(after.movements, p) == SumOf(b.movements, p) - SumOf(b.movements, OfDoc(p, doc))
        && |b.movements| <= |after.movements| && after.movements[..|b.movements|] == b.movements
        && forall i :: |b.movements| <= i < |after.movements| ==>
             after.movements[i].kind == ReversalMove && after.movements[i].doc == doc
  {
    CompensationsAreReversals(b.movements, doc);
    CompensationsTakeBack(b.movements, doc, p);
    SumOfConcat(b.movements, Compensations(b.movements, doc), p);
  }

  /** A posted document and its replacement, neither a landed cost, both in open periods. */
  predicate MayRevise(b: Books, doc: nat, replacement: nat, content: Document)
  {
    && doc in b.docs && b.docs[doc].status == Posted && replacement !in b.docs
    && !b.docs[doc].docType.LandedCost? && !content.docType.LandedCost?
    && NothingLocked(b.locks, b.docs[doc].branch, b.docs[doc].date)
    && NothingLocked(b.locks, content.branch, content.date)
  }

  /** A revision changes nothing, or leaves its document reversed and its replacement posted as entered. */
  lemma ReviseGoes(
      b: Books, doc: nat, replacement: nat, content: Document, lines: seq<LineValuation>,
      moved: seq<(nat, Option<int>)>, loads: seq<Load>)
    ensures var after := ReviseStep(b, doc, replacement, content, lines, moved, loads);
      after == b
      || (&& doc in b.docs && (b.docs[doc].status == Posted || b.docs[doc].status == Reversed) && replacement !in b.docs
          && doc in after.docs && after.docs[doc].status == Reversed
          && replacement in after.docs && after.docs[replacement] == content.(status := Posted, lines := lines))
    ensures MayRevise(b, doc, replacement, content) ==>
      var after := ReviseStep(b, doc, replacement, content, lines, moved, loads);
      replacement in after.docs && after.docs[replacement].status == Posted
  {
    var reversed := ReverseStep(b, doc);
    var created := reversed.(docs := reversed.docs[replacement := content.(status := Draft)]);
    PostGoes(created, replacement, lines, moved, loads);
    if replacement !in b.docs && doc in created.docs {
      LoadsLand(created.docs, loads, doc);
    }
  }

  /** Edits, failed postings and locks: what they leave. */
  lemma OtherStepsGo(b: Books, doc: nat, content: Document, lock: Lock, i: nat)
    ensures var s := if doc in b.docs then b.docs[doc].status else Draft;
      && Step(b, Edit(doc, content))
         == (if s == Draft || s == Failed then b.(docs := b.docs[doc := content.(status := Draft)]) else b)
      && Step(b, PostFails(doc))
         == (if doc in b.docs && (s == Draft || s == Failed)
             && NothingLocked(b.locks, b.docs[doc].branch, b.docs[doc].date)
             then b.(docs := b.docs[doc := b.docs[doc].(status := Failed)]) else b)
    ensures Step(b, AddLock(lock)) == b.(locks := b.locks + [lock])
    ensures Step(b, Release(i)) == if i < |b.locks| then b.(locks := b.locks[i := b.locks[i].(released := true)]) else b
  {
  }

  // ------------------------------------------------------------------ what a lock keeps

  /** A document is on the books once posted, and stays on them when reversed. */
  predicate OnBooks(d: Document) { d.status == Posted || d.status == Reversed }

  /** Movements stand with the document that made them. */
  ghost predicate MovementsOk(b: Books)
  {
    forall m :: m in b.movements ==>
      m.doc in b.docs && OnBooks(b.docs[m.doc]) && m.branch == b.docs[m.doc].branch && m.date == b.docs[m.doc].date
  }

  /** Nothing under the lock differs: no movement came, no document on the books changed, none joined them. */
  ghost predicate Frozen(l: Lock, b: Books, b': Books)
  {
    && |b.movements| <= |b'.movements| && b'.movements[..|b.movements|] == b.movements
    && (forall i :: |b.movements| <= i < |b'.movements| ==> !Covers(l, b'.movements[i].branch, b'.movements[i].date))
    && (forall d :: d in b.docs && OnBooks(b.docs[d]) && Covers(l, b.docs[d].branch, b.docs[d].date) ==>
        d in b'.docs && b'.docs[d] == b.docs[d])
    && (forall d :: d in b'.docs && OnBooks(b'.docs[d]) && Covers(l, b'.docs[d].branch, b'.docs[d].date) ==>
        d in b.docs && b.docs[d] == b'.docs[d])
  }

  lemma FrozenTransitive(l: Lock, a: Books, b: Books, c: Books)
    requires Frozen(l, a, b) && Frozen(l, b, c)
    ensures Frozen(l, a, c)
  {
    assert c.movements[..|a.movements|] == b.movements[..|a.movements|];
    forall i | |a.movements| <= i < |c.movements|
      ensures !Covers(l, c.movements[i].branch, c.movements[i].date)
    {
      if i < |b.movements| {
        assert c.movements[i] == c.movements[..|b.movements|][i];
      }
    }
  }

  lemma {:induction false} LoadingTouchesTargets(docs: map<nat, Document>, loads: seq<Load>, d: nat)
    requires d in docs && forall i :: 0 <= i < |loads| ==> loads[i].target in docs
    ensures d in LoadAll(docs, loads)
    ensures LoadAll(docs, loads)[d].(lines := docs[d].lines) == docs[d]
    ensures (forall i :: 0 <= i < |loads| ==> loads[i].target != d) ==>
      LoadAll(docs, loads)[d] == docs[d]
  {
    if loads != [] {
      LoadingTouchesTargets(docs, loads[..|loads| - 1], d);
      LoadingTouchesTargets(docs, loads[..|loads| - 1], loads[|loads| - 1].target);
    }
  }

  lemma {:induction false} LoadingAddsNothing(docs: map<nat, Document>, loads: seq<Load>)
    ensures LoadAll(docs, loads).Keys == docs.Keys
  {
    if loads != [] {
      LoadingAddsNothing(docs, loads[..|loads| - 1]);
    }
  }

  lemma PostIsFrozen(
      b: Books, k: nat, doc: nat, lines: seq<LineValuation>, moved: seq<(nat, Option<int>)>, loads: seq<Load>)
    requires k < |b.locks|
    ensures Frozen(b.locks[k], b, PostStep(b, doc, lines, moved, loads))
  {
    var b' := PostStep(b, doc, lines, moved, loads);
    if doc in b.docs && LoadsOk(b, b.docs[doc], loads) && b.docs[doc].docType.LandedCost? {
      LoadingAddsNothing(b.docs, loads);
      forall d | d in b.docs
        ensures LoadAll(b.docs, loads)[d].(lines := b.docs[d].lines) == b.docs[d]
        ensures Covers(b.locks[k], b.docs[d].branch, b.docs[d].date) ==>
          LoadAll(b.docs, loads)[d] == b.docs[d]
      {
        LoadingTouchesTargets(b.docs, loads, d);
      }
    }
  }

  lemma {:induction false} CompensationsShareDates(ms: seq<Movement>, doc: nat)
    ensures forall c :: c in Compensations(ms, doc) ==>
      exists m :: m in ms && m.doc == doc && c.doc == doc && c.branch == m.branch && c.date == m.date
  {
    if ms != [] {
      CompensationsShareDates(ms[..|ms| - 1], doc);
      assert forall m :: m in ms[..|ms| - 1] ==> m in ms;
    }
  }

  lemma ReverseIsFrozen(b: Books, k: nat, doc: nat)
    requires k < |b.locks| && MovementsOk(b)
    ensures Frozen(b.locks[k], b, ReverseStep(b, doc))
  {
    CompensationsShareDates(b.movements, doc);
    var more := Compensations(b.movements, doc);
    var b' := ReverseStep(b, doc);
    if b' != b {
      forall i | |b.movements| <= i < |b'.movements|
        ensures !Covers(b.locks[k], b'.movements[i].branch, b'.movements[i].date)
      {
        assert b'.movements[i] in more;
      }
    }
  }

  lemma StepKeepsMovements(b: Books, e: Event)
    requires MovementsOk(b)
    ensures MovementsOk(Step(b, e))
  {
    match e {
      case Post(doc, lines, moved, loads) => PostKeepsMovements(b, doc, lines, moved, loads);
      case Reverse(doc) => CompensationsShareDates(b.movements, doc);
      case Revise(doc, replacement, content, lines, moved, loads) =>
        CompensationsShareDates(b.movements, doc);
        var reversed := ReverseStep(b, doc);
        if replacement !in b.docs {
          var created := reversed.(docs := reversed.docs[replacement := content.(status := Draft)]);
          PostKeepsMovements(created, replacement, lines, moved, loads);
        }
      case _ =>
    }
  }

  lemma PostKeepsMovements(
      b: Books, doc: nat, lines: seq<LineValuation>, moved: seq<(nat, Option<int>)>, loads: seq<Load>)
    requires MovementsOk(b)
    ensures MovementsOk(PostStep(b, doc, lines, moved, loads))
  {
    if doc in b.docs && LoadsOk(b, b.docs[doc], loads) && b.docs[doc].docType.LandedCost? {
      LoadingAddsNothing(b.docs, loads);
      forall d | d in b.docs
        ensures LoadAll(b.docs, loads)[d].(lines := b.docs[d].lines) == b.docs[d]
      {
        LoadingTouchesTargets(b.docs, loads, d);
      }
    }
  }

  lemma ReviseIsFrozen(
      b: Books, k: nat, doc: nat, replacement: nat, content: Document, lines: seq<LineValuation>,
      moved: seq<(nat, Option<int>)>, loads: seq<Load>)
    requires k < |b.locks| && MovementsOk(b)
    ensures Frozen(b.locks[k], b, ReviseStep(b, doc, replacement, content, lines, moved, loads))
  {
    ReverseIsFrozen(b, k, doc);
    var reversed := ReverseStep(b, doc);
    if replacement !in b.docs {
      var created := reversed.(docs := reversed.docs[replacement := content.(status := Draft)]);
      CreateIsFrozen(b.locks[k], reversed, replacement, content);
      FrozenTransitive(b.locks[k], b, reversed, created);
      PostIsFrozen(created, k, replacement, lines, moved, loads);
      FrozenTransitive(b.locks[k], b, created, PostStep(created, replacement, lines, moved, loads));
    }
  }

  lemma CreateIsFrozen(l: Lock, b: Books, doc: nat, content: Document)
    requires doc !in b.docs
    ensures Frozen(l, b, b.(docs := b.docs[doc := content.(status := Draft)]))
  {
  }

  lemma StepIsFrozen(b: Books, k: nat, e: Event)
    requires k < |b.locks| && MovementsOk(b) && e != Release(k)
    ensures k < |Step(b, e).locks| && Step(b, e).locks[k] == b.locks[k]
      && Frozen(b.locks[k], b, Step(b, e))
  {
    match e {
      case Post(doc, lines, moved, loads) => PostIsFrozen(b, k, doc, lines, moved, loads);
      case Reverse(doc) => ReverseIsFrozen(b, k, doc);
      case Revise(doc, replacement, content, lines, moved, loads) =>
        ReviseIsFrozen(b, k, doc, replacement, content, lines, moved, loads);
      case _ =>
    }
  }

  /** While a lock stands, no run of steps changes anything it covers. */
  lemma {:induction false} LockFreezesItsPeriod(b: Books, k: nat, es: seq<Event>)
    requires k < |b.locks| && MovementsOk(b) && Release(k) !in es
    ensures var b' := Run(b, es);
      k < |b'.locks| && b'.locks[k] == b.locks[k] && MovementsOk(b') && Frozen(b.locks[k], b, b')
  {
    if es != [] {
      var before, last := es[..|es| - 1], es[|es| - 1];
      LockFreezesItsPeriod(b, k, before);
      assert last in es;
      StepIsFrozen(Run(b, before), k, last);
      StepKeepsMovements(Run(b, before), last);
      FrozenTransitive(b.locks[k], b, Run(b, before), Run(b, es));
    }
  }
}
