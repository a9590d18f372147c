/**
 How much of a receipt is still on hand: the layers a run of receipts and issues leaves
 behind against the closed form read from the movement ledger.
 */
module ReceiptRemainder {
  import opened FixedPoint
  import opened Sequences
  import opened CostLayers
  import opened LayerOrder

  /** One physical movement of one item in one valuation scope; its id is its place in the ledger. */
  datatype Movement = Movement(line: nat, date: int, qty: int)

  /** Received on the ledger later than the movement with this date and id. */
  function ReceivedAfter(ms: seq<Movement>, date: int, id: nat): int
  {
    if ms == [] then 0
    else
      var k := |ms| - 1;
      ReceivedAfter(ms[..k], date, id)
      + if 0 < ms[k].qty && (date < ms[k].date || (date == ms[k].date && id < k)) then ms[k].qty else 0
  }

  /** The receipt movement of a line, the one with the lowest id. */
  ghost predicate OwnMovement(ms: seq<Movement>, line: nat, own: nat)
  {
    && own < |ms| && ms[own].line == line && 0 < ms[own].qty
    && forall i :: 0 <= i < own ==> !(ms[i].line == line && 0 < ms[i].qty)
  }

  /** What of an inward line is still on hand for an item whose method keeps no layers. */
  method ReceiptQtyStillOnHand(ms: seq<Movement>, line: nat, lineQty: int, onHand: int) returns (r: int)
    ensures forall own: nat :: OwnMovement(ms, line, own) ==>
      r == StillOnHand(lineQty, onHand, ReceivedAfter(ms, ms[own].date, own))
    ensures (forall i :: 0 <= i < |ms| ==> !(ms[i].line == line && 0 < ms[i].qty)) ==>
      r == StillOnHand(lineQty, onHand, 0)
  {
    var own := 0;
    while own < |ms| && !(ms[own].line == line && 0 < ms[own].qty)
      invariant 0 <= own <= |ms|
      invariant forall i :: 0 <= i < own ==> !(ms[i].line == line && 0 < ms[i].qty)
    {
      own := own + 1;
    }
    if own == |ms| {
      return Max(0, Min(onHand, lineQty));
    }
    assert OwnMovement(ms, line, own);
    var receivedAfter := 0;
    for k := 0 to |ms|
      invariant receivedAfter == ReceivedAfter(ms[..k], ms[own].date, own)
    {
      assert ms[..k + 1][..k] == ms[..k];
      if 0 < ms[k].qty && (ms[own].date < ms[k].date || (ms[own].date == ms[k].date && own < k)) {
        receivedAfter := receivedAfter + ms[k].qty;
      }
    }
    assert ms[..|ms|] == ms;
    r := Max(0, Min(lineQty, onHand - receivedAfter));
  }

  // ------------------------------------------------------------------ runs of postings

  datatype Event = Receive(date: int, qty: int) | Issue(date: int, qty: int)

  /**
   The ledger and the layers side by side. Layers lie in the order an issue reads them, by
   date and then by id; dates and own are the date and the movement of each layer's receipt.
   onHand is what the ledger adds up to, kept counts the last units issues left undrawn.
   */
  datatype Stock = Stock(movements: seq<Movement>, own: seq<nat>, dates: seq<int>, received: seq<int>, rems: seq<int>,
                         onHand: int, kept: int)

  const EMPTY := Stock([], [], [], [], [], 0, 0)

  /** A receipt may bear any date; no issue takes more than the ledger says is there. */
  predicate Legal(s: Stock, e: Event)
  {
    match e
    case Receive(_, qty) => 0 < qty
    case Issue(_, qty) => 0 < qty <= s.onHand
  }

  /** Every event moves a line of its own. */
  function Step(s: Stock, e: Event): Stock
    requires Shaped(s)
  {
    var id := |s.movements|;
    match e
    case Receive(date, qty) =>
      var p := Place(s.dates, date);
      Stock(s.movements + [Movement(id, date, qty)],
            InsertAt(s.own, p, id), InsertAt(s.dates, p, date), InsertAt(s.received, p, qty),
            InsertAt(s.rems, p, qty), s.onHand + qty, s.kept)
    case Issue(date, qty) =>
      var d := DrawFrom(s.rems, Fifo, 0, qty);
      s.(movements := s.movements + [Movement(id, date, -qty)], rems := d.left, onHand := s.onHand - qty,
         kept := s.kept + d.unmet)
  }

  predicate Shaped(s: Stock) { |s.own| == |s.dates| == |s.received| == |s.rems| }

  function Run(es: seq<Event>): (s: Stock)
    ensures Shaped(s)
  {
    if es == [] then EMPTY else Step(Run(es[..|es| - 1]), es[|es| - 1])
  }

  predicate LegalRun(es: seq<Event>)
  {
    es == [] || (LegalRun(es[..|es| - 1]) && Legal(Run(es[..|es| - 1]), es[|es| - 1]))
  }

  /** No issue of the run asks for exactly one unit more than some number of whole oldest layers. */
  ghost predicate NoIssueLeavesAUnit(es: seq<Event>)
  {
    es == [] || (
      && NoIssueLeavesAUnit(es[..|es| - 1])
      && var last := es[|es| - 1]; (last.Issue? ==> !LeavesAUnit(Run(es[..|es| - 1]).rems, 0, last.qty)))
  }

  /** No receipt of the run is dated before one that has been drawn from. */
  ghost predicate NoReceiptBehindADraw(es: seq<Event>)
  {
    es == [] || (
      && NoReceiptBehindADraw(es[..|es| - 1])
      && var s, last := Run(es[..|es| - 1]), es[|es| - 1];
      (last.Receive? ==> var p := Place(s.dates, last.date); s.rems[p..] == s.received[p..]))
  }

  /** What the receipt's line reads off the movement ledger. */
  function LedgerReading(s: Stock, i: nat): int
    requires i < |s.received| == |s.own| && s.own[i] < |s.movements|
  {
    StillOnHand(s.received[i], s.onHand, ReceivedAfter(s.movements, s.movements[s.own[i]].date, s.own[i]))
  }

  // ------------------------------------------------------------------ filing among the layers

  lemma FilingKeepsBound(own: seq<nat>, p: nat, id: nat)
    requires p <= |own| && forall i :: 0 <= i < |own| ==> own[i] < id
    ensures forall i :: 0 <= i <= |own| ==> InsertAt(own, p, id)[i] <= id
  {
  }

  lemma InsertSums(s: seq<int>, p: nat, x: int, q: nat)
    requires p <= |s| && q <= |s|
    ensures q <= p ==> Sum(InsertAt(s, p, x)[q..]) == Sum(s[q..]) + x
    ensures p <= q ==> Sum(InsertAt(s, p, x)[q + 1..]) == Sum(s[q..])
  {
    if q <= p {
      assert InsertAt(s, p, x)[q..] == s[q..p] + [x] + s[p..];
      assert s[q..] == s[q..p] + s[p..];
      SumConcat(s[q..p] + [x], s[p..]);
      SumConcat(s[q..p], [x]);
      SumConcat(s[q..p], s[p..]);
    }
    if p <= q {
      assert InsertAt(s, p, x)[q + 1..] == s[q..];
    }
  }

  // ------------------------------------------------------------------ what every run keeps

  /** Received on the ledger on later dates. */
  function ReceivedLater(ms: seq<Movement>, date: int): int
  {
    if ms == [] then 0
    else
      var k := |ms| - 1;
      ReceivedLater(ms[..k], date) + if 0 < ms[k].qty && date < ms[k].date then ms[k].qty else 0
  }

  /** For a movement not yet there, received after it is received on a later date. */
  lemma {:induction false} NothingYetAfter(ms: seq<Movement>, date: int, id: nat)
    requires |ms| <= id
    ensures ReceivedAfter(ms, date, id) == ReceivedLater(ms, date)
  {
    if ms != [] {
      NothingYetAfter(ms[..|ms| - 1], date, id);
    }
  }

  /** What the ledger received on later dates lies in the layers filed from that date's place on. */
  predicate LaterIsBehind(s: Stock, d: int)
    requires Shaped(s)
  {
    ReceivedLater(s.movements, d) == Sum(s.received[Place(s.dates, d)..])
  }

  /** A layer knows its movement, and what the ledger received after it lies behind it. */
  predicate LayerOk(s: Stock, i: nat)
    requires Shaped(s) && i < |s.own|
  {
    && s.own[i] < |s.movements| && s.movements[s.own[i]].date == s.dates[i]
    && s.movements[s.own[i]].qty == s.received[i] && 0 < s.received[i]
    && ReceivedAfter(s.movements, s.dates[i], s.own[i]) == Sum(s.received[i + 1..])
  }

  ghost predicate LedgerInv(s: Stock)
  {
    && Shaped(s) && InDateOrder(s.dates)
    && (forall i :: 0 <= i < |s.own| ==> s.own[i] < |s.movements|)
    && (forall d :: LaterIsBehind(s, d))
    && (forall i :: 0 <= i < |s.own| ==> LayerOk(s, i))
  }

  ghost predicate Inv(s: Stock)
  {
    && LedgerInv(s) && Layers(s.received, s.rems)
    && Sum(s.rems) == s.onHand + s.kept && 0 <= s.onHand && 0 <= s.kept
  }

  lemma ReceiveKeepsLater(s: Stock, e: Event, d: int)
    requires LedgerInv(s) && e.Receive? && 0 < e.qty
    ensures LaterIsBehind(Step(s, e), d)
  {
    var s' := Step(s, e);
    assert s'.movements[..|s.movements|] == s.movements;
    assert LaterIsBehind(s, d);
    FilingMovesPlaces(s.dates, e.date, d);
    InsertSums(s.received, Place(s.dates, e.date), e.qty, Place(s.dates, d));
  }

  /** A layer already there: the new receipt is after it exactly when it is filed behind it. */
  lemma ReceiveKeepsOldLayer(s: Stock, e: Event, i: nat)
    requires LedgerInv(s) && e.Receive? && 0 < e.qty && i < |s.own|
    ensures LayerOk(Step(s, e), if i < Place(s.dates, e.date) then i else i + 1)
  {
    var s', p := Step(s, e), Place(s.dates, e.date);
    assert s'.movements[..|s.movements|] == s.movements;
    assert LayerOk(s, i);
    PlaceSplits(s.dates, e.date);
    InsertSums(s.received, p, e.qty, i + 1);
  }

  lemma ReceiveOpensLayer(s: Stock, e: Event)
    requires LedgerInv(s) && e.Receive? && 0 < e.qty
    ensures LayerOk(Step(s, e), Place(s.dates, e.date))
  {
    var s', p, id := Step(s, e), Place(s.dates, e.date), |s.movements|;
    assert s'.movements[..id] == s.movements;
    assert LaterIsBehind(s, e.date);
    NothingYetAfter(s.movements, e.date, id);
    InsertSums(s.received, p, e.qty, p);
    assert s'.own[p] == id && s'.dates[p] == e.date;
  }

  lemma ReceiveKeepsLedger(s: Stock, e: Event)
    requires LedgerInv(s) && e.Receive? && 0 < e.qty
    ensures LedgerInv(Step(s, e))
  {
    var s', p := Step(s, e), Place(s.dates, e.date);
    FilingKeepsOrder(s.dates, e.date);
    FilingKeepsBound(s.own, p, |s.movements|);
    forall d
      ensures LaterIsBehind(s', d)
    {
      ReceiveKeepsLater(s, e, d);
    }
    forall i | 0 <= i < |s'.own|
      ensures LayerOk(s', i)
    {
      ReceiveKeepsLayers(s, e, i);
    }
  }

  lemma ReceiveKeepsLayers(s: Stock, e: Event, i: nat)
    requires LedgerInv(s) && e.Receive? && 0 < e.qty && i <= |s.own|
    ensures LayerOk(Step(s, e), i)
  {
    var p := Place(s.dates, e.date);
    if i == p {
      ReceiveOpensLayer(s, e);
    } else {
      ReceiveKeepsOldLayer(s, e, if i < p then i else i - 1);
    }
  }

  lemma ReceiveKeepsInv(s: Stock, e: Event)
    requires Inv(s) && e.Receive? && 0 < e.qty
    ensures Inv(Step(s, e))
  {
    ReceiveKeepsLedger(s, e);
    InsertSums(s.rems, Place(s.dates, e.date), e.qty, 0);
    assert s.rems[0..] == s.rems && Step(s, e).rems[0..] == Step(s, e).rems;
  }

  lemma IssueKeepsLedger(s: Stock, e: Event)
    requires LedgerInv(s) && e.Issue? && 0 < e.qty
    ensures LedgerInv(Step(s, e))
  {
    var s' := Step(s, e);
    assert s'.movements[..|s.movements|] == s.movements;
    forall d
      ensures LaterIsBehind(s', d)
    {
      assert LaterIsBehind(s, d);
    }
    forall i | 0 <= i < |s'.own|
      ensures LayerOk(s', i)
    {
      assert LayerOk(s, i);
    }
  }

  lemma IssueKeepsInv(s: Stock, e: Event)
    requires Inv(s) && e.Issue? && Legal(s, e)
    ensures Inv(Step(s, e))
    ensures DrawFrom(s.rems, Fifo, 0, e.qty).unmet == if LeavesAUnit(s.rems, 0, e.qty) then 1 else 0
  {
    IssueKeepsLedger(s, e);
    DrawTotals(s.rems, Fifo, 0, e.qty);
    assert s.rems[0..|s.rems|] == s.rems;
    UnmetUnit(s.rems, 0, e.qty);
    forall j | 0 <= j < |s.rems|
      ensures 0 <= Step(s, e).rems[j] <= s.rems[j]
    {
      DrawTouchesStockOnly(s.rems, Fifo, 0, e.qty, j);
    }
  }

  lemma {:induction false} RunKeepsInv(es: seq<Event>)
    requires LegalRun(es)
    ensures Inv(Run(es))
    ensures Run(es).kept == 0 <==> NoIssueLeavesAUnit(es)
  {
    if es != [] {
      var before, last := es[..|es| - 1], es[|es| - 1];
      RunKeepsInv(before);
      if last.Receive? {
        ReceiveKeepsInv(Run(before), last);
      } else {
        IssueKeepsInv(Run(before), last);
      }
    }
  }

  // ------------------------------------------------------------------ the reading against the layers

  /** Every layer holds what its receipt reads off the ledger. */
  ghost predicate LayersAgreeWithLedger(s: Stock)
    requires LedgerInv(s)
  {
    forall i :: 0 <= i < |s.rems| ==> s.rems[i] == LedgerReading(s, i)
  }

  lemma ReadingIsClosedForm(s: Stock, i: nat)
    requires LedgerInv(s) && i < |s.received|
    ensures LedgerReading(s, i) == ClosedForm(s.received, s.onHand, i)
  {
    assert LayerOk(s, i);
  }

  lemma OnHandWithinReceived(s: Stock)
    requires Inv(s)
    ensures Sum(ClosedForms(s.received, s.onHand, 0)) == s.onHand
  {
    SumOrdered(s.rems, s.received);
    ClosedFormsSumToOnHand(s.received, s.onHand, 0);
    assert s.received[0..] == s.received;
  }

  /** In a reachable state the closed form holds exactly when nothing was kept and the layers are drawn oldest first. */
  lemma ClosedFormIffOrderly(s: Stock)
    requires Inv(s)
    ensures ClosedFormHolds(s.received, s.rems, s.onHand) <==> s.kept == 0 && OldestFirst(s.received, s.rems)
  {
    ClosedFormIffOldestFirst(s.received, s.rems);
    if ClosedFormHolds(s.received, s.rems, s.onHand) {
      OnHandWithinReceived(s);
      assert s.rems == ClosedForms(s.received, s.onHand, 0);
    }
  }

  lemma LayersAgreeIffOrderly(s: Stock)
    requires Inv(s)
    ensures LayersAgreeWithLedger(s) <==> s.kept == 0 && OldestFirst(s.received, s.rems)
  {
    ClosedFormIffOrderly(s);
    forall i | 0 <= i < |s.received|
      ensures LedgerReading(s, i) == ClosedForm(s.received, s.onHand, i)
    {
      ReadingIsClosedForm(s, i);
    }
  }

  /**
   The closed form, read off the movement ledger, names what every layer holds exactly when
   no issue of the run left its last 0.0001 undrawn and no layer has been drawn while one
   dated before it still holds stock. Receipts may be entered in any order of dates.
   */
  lemma {:induction false} ClosedFormOnRuns(es: seq<Event>, s: Stock)
    requires LegalRun(es) && s == Run(es)
    ensures LedgerInv(s)
    ensures LayersAgreeWithLedger(s) <==> NoIssueLeavesAUnit(es) && OldestFirst(s.received, s.rems)
  {
    RunKeepsInv(es);
    LayersAgreeIffOrderly(s);
    var agrees, orderly := LayersAgreeWithLedger(s), OldestFirst(s.received, s.rems);
    assert agrees <==> s.kept == 0 && orderly;
  }

  // ------------------------------------------------------------------ which runs draw oldest first throughout

  ghost predicate OldestFirstThroughout(es: seq<Event>)
  {
    && OldestFirst(Run(es).received, Run(es).rems)
    && (es == [] || OldestFirstThroughout(es[..|es| - 1]))
  }

  /** The layers are drawn oldest first all along exactly when no receipt was dated before one already drawn from. */
  lemma {:induction false} BackdatingIsWhatDisturbs(es: seq<Event>)
    requires LegalRun(es)
    ensures OldestFirstThroughout(es) <==> NoReceiptBehindADraw(es)
  {
    if es != [] {
      var before, last := es[..|es| - 1], es[|es| - 1];
      BackdatingIsWhatDisturbs(before);
      RunKeepsInv(before);
      var s := Run(before);
      if OldestFirst(s.received, s.rems) {
        if last.Receive? {
          ReceiptKeepsOldestFirst(s.received, s.rems, Place(s.dates, last.date), last.qty);
        } else {
          IssueKeepsOldestFirst(s.received, s.rems, 0, last.qty);
        }
      }
    }
  }

  predicate DatedInOrder(es: seq<Event>)
  {
    forall i, j :: 0 <= i < j < |es| && es[i].Receive? && es[j].Receive? ==> es[i].date <= es[j].date
  }

  lemma {:induction false} LatestDate(es: seq<Event>, date: int)
    requires forall i :: 0 <= i < |es| && es[i].Receive? ==> es[i].date <= date
    ensures forall k :: 0 <= k < |Run(es).dates| ==> Run(es).dates[k] <= date
  {
    if es != [] {
      LatestDate(es[..|es| - 1], date);
      assert es[|es| - 1].Receive? ==> es[|es| - 1].date <= date;
    }
  }

  /** Receipts entered in the order of their dates never disturb: there the tolerance is all that can. */
  lemma {:induction false} InOrderNeverDisturbs(es: seq<Event>)
    requires DatedInOrder(es)
    ensures NoReceiptBehindADraw(es)
  {
    if es != [] {
      var before, last := es[..|es| - 1], es[|es| - 1];
      InOrderNeverDisturbs(before);
      if last.Receive? {
        LatestDate(before, last.date);
        var dates := Run(before).dates;
        assert Place(dates, last.date) == |dates|;
      }
    }
  }

  // ------------------------------------------------------------------ sums, and two runs that go wrong

  /** What the receipts from i on read off the ledger, together. */
  function Readings(s: Stock, i: nat): int
    requires i <= |s.received| == |s.own| && forall k :: 0 <= k < |s.own| ==> s.own[k] < |s.movements|
    decreases |s.received| - i
  {
    if i == |s.received| then 0 else LedgerReading(s, i) + Readings(s, i + 1)
  }

  lemma {:induction false} ReadingsAreClosedForms(s: Stock, i: nat)
    requires LedgerInv(s) && i <= |s.received|
    ensures Readings(s, i) == Sum(ClosedForms(s.received, s.onHand, i))
    decreases |s.received| - i
  {
    if i < |s.received| {
      ReadingIsClosedForm(s, i);
      ReadingsAreClosedForms(s, i + 1);
      assert ClosedForms(s.received, s.onHand, i)[1..] == ClosedForms(s.received, s.onHand, i + 1);
    }
  }

  /** What the receipts read off the ledger always adds up to what is on hand. */
  lemma ReadingsSumToOnHand(es: seq<Event>)
    requires LegalRun(es)
    ensures LedgerInv(Run(es)) && Readings(Run(es), 0) == Run(es).onHand
  {
    RunKeepsInv(es);
    ReadingsAddUp(Run(es));
  }

  lemma ReadingsAddUp(s: Stock)
    requires Inv(s)
    ensures Readings(s, 0) == s.onHand
  {
    OnHandWithinReceived(s);
    ReadingsAreClosedForms(s, 0);
  }

  /** A one-unit issue is booked out of the ledger and drawn from no layer. */
  lemma OneUnitIssueBreaksTheClosedForm(s: Stock)
    requires Inv(s) && s.kept == 0 && 0 < s.onHand
    ensures var s' := Step(s, Issue(0, 1));
      s'.rems == s.rems && Sum(s'.rems) == s'.onHand + 1
  {
  }

  /** Fifty on date 2, thirty issued, then fifty dated 1. */
  const BACKDATED := [Receive(2, 50), Issue(3, 30), Receive(1, 50)]

  lemma Then(es: seq<Event>, s: Stock, e: Event)
    requires s == Run(es)
    ensures Run(es + [e]) == Step(s, e)
    ensures LegalRun(es) && Legal(s, e) ==> LegalRun(es + [e])
    ensures NoIssueLeavesAUnit(es) && (e.Issue? ==> !LeavesAUnit(s.rems, 0, e.qty)) ==> NoIssueLeavesAUnit(es + [e])
  {
    assert (es + [e])[..|es|] == es;
  }

  lemma DrawThirty()
    ensures DrawFrom([50], Fifo, 0, 30) == Draw([20], 0, [Take(0, 30)]) && !LeavesAUnit([50], 0, 30)
  {
    assert DrawFrom([20], Fifo, 1, 0) == Draw([20], 0, []);
    assert Held([50], 0, 0) == 0 && Held([50], 0, 1) == 50;
  }

  lemma BackdatedRun()
    ensures LegalRun(BACKDATED) && NoIssueLeavesAUnit(BACKDATED)
    ensures Run(BACKDATED)
      == Stock([Movement(0, 2, 50), Movement(1, 3, -30), Movement(2, 1, 50)], [2, 0], [1, 2], [50, 50], [50, 20], 70, 0)
  {
    var s0 := Stock([Movement(0, 2, 50)], [0], [2], [50], [50], 50, 0);
    var s1 := Stock([Movement(0, 2, 50), Movement(1, 3, -30)], [0], [2], [50], [20], 20, 0);
    Then([], EMPTY, Receive(2, 50));
    assert Step(EMPTY, Receive(2, 50)) == s0;
    Then([Receive(2, 50)], s0, Issue(3, 30));
    DrawThirty();
    assert Step(s0, Issue(3, 30)) == s1;
    Then([Receive(2, 50), Issue(3, 30)], s1, Receive(1, 50));
    assert Place([2], 1) == 0;
    assert BACKDATED == [Receive(2, 50), Issue(3, 30)] + [Receive(1, 50)];
  }

  /** Nothing is kept, and yet the layers hold 50 and 20 where the ledger reads 20 and 50. */
  lemma BackdatedReceiptMisleads()
    ensures LegalRun(BACKDATED) && NoIssueLeavesAUnit(BACKDATED) && LedgerInv(Run(BACKDATED))
    ensures var s := Run(BACKDATED);
      s.rems == [50, 20] && |s.received| == 2 && LedgerReading(s, 0) == 20 && LedgerReading(s, 1) == 50
  {
    BackdatedRun();
    RunKeepsInv(BACKDATED);
    var s := Run(BACKDATED);
    ReadingIsClosedForm(s, 0);
    ReadingIsClosedForm(s, 1);
    assert s.received[1..] == [50] && s.received[2..] == [];
  }
}
