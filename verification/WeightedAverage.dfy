/** The weighted-average half of a reversal: a scope's stored quantity and average, unwound line by line. */
module WeightedAverage {
  import opened Outcomes
  import opened FixedPoint

  datatype Direction = In | Out

  /** One row of inv_wac_state. */
  datatype State = State(qty: int, average: int)

  /** What a posted line recorded. No rate means it was never valued. */
  datatype Line = Line(direction: Direction, baseQty: int, rate: Option<int>)

  /** The average after the pool moves to newQty worth value; one unit or less keeps the average it had. */
  function Reaverage(newQty: int, value: int, average: int): (newAverage: int)
    ensures newQty <= 1 ==> newAverage == average
    ensures 1 < newQty ==> Abs(2 * (newAverage * newQty - value)) <= newQty
  {
    if 1 < newQty then RoundDiv(value, newQty) else average
  }

  /** The two branches. The stored average is clipped at zero. */
  function Unwound(s: State, direction: Direction, baseQty: int, rate: int): State
  {
    var newQty := if direction == In then s.qty - baseQty else s.qty + baseQty;
    var value := s.qty * s.average + (if direction == In then -(baseQty * rate) else baseQty * rate);
    State(newQty, Max(0, Reaverage(newQty, value, s.average)))
  }

  /** What reversing a line leaves of its scope's row; a scope without a row starts from nothing. */
  function AfterReversal(row: Option<State>, line: Line): Option<State>
  {
    if line.baseQty <= 0 || line.rate.None? then row
    else Some(Unwound(if row.Some? then row.value else State(0, 0), line.direction, line.baseQty, line.rate.value))
  }

  /** An item in its valuation scope; warehouse 0 is the whole company. */
  datatype Scope = Scope(item: nat, warehouse: nat)

  /** inv_wac_state of one company. */
  class WacTable {
    var rows: map<Scope, State>

    function RowOf(scope: Scope): Option<State>
      reads this
    {
      if scope in rows then Some(rows[scope]) else None
    }

    method ReverseLine(scope: Scope, line: Line)
      modifies this
      ensures RowOf(scope) == AfterReversal(old(RowOf(scope)), line)
      ensures forall other :: other != scope ==> RowOf(other) == old(RowOf(other))
    {
      if line.baseQty <= 0 {
        return;
      }
      if line.rate.None? {
        return;
      }
      var rate := line.rate.value;
      var q, avg := 0, 0;
      if scope in rows {
        q, avg := rows[scope].qty, rows[scope].average;
      }
      var newQ, newAvg;
      if line.direction == In {
        newQ := q - line.baseQty;
        newAvg := if 1 < newQ then RoundDiv(q * avg - line.baseQty * rate, newQ) else avg;
      } else {
        newQ := q + line.baseQty;
        newAvg := if 1 < newQ then RoundDiv(q * avg + line.baseQty * rate, newQ) else avg;
      }
      rows := rows[scope := State(newQ, Max(0, newAvg))];
    }
  }

  // ------------------------------------------------------------------ the two branches against each other

  /** A scaled gap bounded by c bounds the clipped gap too, when the target is not negative. */
  lemma ClippingComesNearer(x: int, target: int, q: int, c: int)
    requires 0 < q && 0 <= target && 2 * Abs(x * q - target * q) <= c
    ensures 2 * (q * Abs(Max(0, x) - target)) <= c
  {
    assert x * q - target * q == (x - target) * q;
    if x < 0 {
      MulMonotone(x, 0, q);
      assert Max(0, x) == 0;
      assert q * target <= target * q - x * q;
    } else if x < target {
      assert q * (target - x) == -((x - target) * q);
    } else {
      assert q * (x - target) == (x - target) * q;
    }
  }

  /**
   Outward then inward gives the quantity back from every state. On more than one unit
   2 |gap| q <= 2 q + b, which is the average within 0.00005 x (2 + b / q); on one unit or less
   there is no bound, the inward branch keeping whatever average the outward one left.
   */
  lemma OutwardThenInward(s: State, b: int, r: int)
    requires 0 < b && 0 <= s.average && 0 <= r
    ensures var out, back := Unwound(s, Out, b, r), Unwound(Unwound(s, Out, b, r), In, b, r);
      && back.qty == s.qty
      && if 1 < s.qty then 2 * (s.qty * Abs(back.average - s.average)) <= 2 * s.qty + b else back.average == out.average
  {
    if 1 < s.qty {
      var q, a := s.qty, s.average;
      MulMonotone(0, q, a);
      MulMonotone(0, b, r);
      RoundDivSign(q * a + b * r, q + b);
      var a1 := RoundDiv(q * a + b * r, q + b);
      assert Unwound(s, Out, b, r) == State(q + b, a1);
      OutInGap(q, a, b, r, a1);
    }
  }

  lemma OutInGap(q: int, a: int, b: int, r: int, a1: int)
    requires 1 < q && 0 < b && 0 <= a && a1 == RoundDiv(q * a + b * r, q + b)
    ensures 2 * (q * Abs(Unwound(State(q + b, a1), In, b, r).average - a)) <= 2 * q + b
  {
    var value, n := q * a + b * r, (q + b) * a1 - b * r;
    var x := RoundDiv(n, q);
    assert a1 * (q + b) == (q + b) * a1;
    assert Abs(2 * (n - q * a)) <= q + b;
    assert Abs(2 * (x * q - n)) <= q;
    ClippingComesNearer(x, a, q, 2 * q + b) by { assert a * q == q * a; }
  }

  /** The bound is not slack alone: the average really can come back different. */
  lemma OutwardThenInwardDrifts()
    ensures Unwound(Unwound(State(2, 0), Out, 5, 1), In, 5, 1) == State(2, 1)
  {
    assert RoundDiv(5, 7) == 1 && RoundDiv(2, 2) == 1;
  }

  /** Half away from zero against an integer: n / d rounds to a exactly within the half unit. */
  lemma RoundsTo(n: int, d: int, a: int)
    requires 0 < d && 0 <= a && a * d <= n
    ensures RoundDiv(n, d) == a <==> 2 * (n - a * d) < d
  {
    MulMonotone(0, a, d);
    if 2 * (n - a * d) < d {
      RoundDivUnique(n, d, a);
    }
  }

  /** A negative quotient reaches -1 from the half unit on. */
  lemma RoundsBelowZero(n: int, d: int)
    requires 0 < d && n < 0
    ensures RoundDiv(n, d) < 0 <==> d <= 2 * -n
  {
    if d <= 2 * -n {
      if 0 <= RoundDiv(n, d) {
        MulMonotone(0, RoundDiv(n, d), d);
      }
    } else {
      RoundDivUnique(n, d, 0);
    }
  }

  /** With nothing clipped, the second rounding lands exactly where the first started. */
  lemma UnclippedComesBack(q: int, a: int, b: int, r: int, a1: int)
    requires 0 < b && 1 < q - b && 0 <= a && Abs(2 * (a1 * (q - b) - (q * a - b * r))) <= q - b
    ensures RoundDiv((q - b) * a1 + b * r, q) == a
  {
    var n := (q - b) * a1 + b * r;
    assert a1 * (q - b) == (q - b) * a1;
    assert a * q == q * a;
    assert Abs(2 * (n - a * q)) <= q - b;
    MulMonotone(0, a, q);
    RoundDivUnique(n, q, a);
  }

  /** And from below: a positive integer is reached from half a unit under it on. */
  lemma RoundsUpTo(n: int, d: int, a: int)
    requires 0 < d && 0 < a && n < a * d
    ensures RoundDiv(n, d) == a <==> 2 * (a * d - n) <= d
  {
    if 2 * (a * d - n) <= d {
      MulMonotone(1, a, d);
      RoundDivUnique(n, d, a);
    }
  }

  /** Whether the state comes back whole from inward then outward. */
  predicate Restored(s: State, b: int, r: int)
  {
    if 1 < s.qty - b then 2 * (b * r - s.qty * s.average) < s.qty
    else 1 < s.qty ==> -s.qty <= 2 * (b * r - b * s.average) < s.qty
  }

  /**
   Inward then outward, from every state, gives the quantity back, and the state whole exactly
   so: where more than one unit stays, when the value withdrawn exceeds the value held by less
   than half a unit per unit of quantity (past that the clip at zero has thrown value away);
   where less stays but more was held, when the line is worth what the average says of it, to
   the same half unit; and always where no more than a unit was held.
   */
  lemma InwardThenOutward(s: State, b: int, r: int)
    requires 0 < b && 0 <= s.average && 0 <= r
    ensures Unwound(Unwound(s, In, b, r), Out, b, r).qty == s.qty
    ensures Unwound(Unwound(s, In, b, r), Out, b, r) == s <==> Restored(s, b, r)
  {
    if 1 < s.qty - b {
      MoreThanAUnitStays(s, b, r);
    } else if 1 < s.qty {
      LessThanAUnitStays(s, b, r);
    }
  }

  lemma LessThanAUnitStays(s: State, b: int, r: int)
    requires 0 < b && s.qty - b <= 1 < s.qty && 0 <= s.average && 0 <= r
    ensures Unwound(Unwound(s, In, b, r), Out, b, r) == s <==> -s.qty <= 2 * (b * r - b * s.average) < s.qty
  {
    var q, a := s.qty, s.average;
    KeptThenReaveraged(s, b, r);
    ValueApart(q, a, b, r);
    RoundsOnto((q - b) * a + b * r, q, a);
  }

  lemma KeptThenReaveraged(s: State, b: int, r: int)
    requires s.qty - b <= 1 < s.qty && 0 <= s.average
    ensures Unwound(Unwound(s, In, b, r), Out, b, r)
      == State(s.qty, Max(0, RoundDiv((s.qty - b) * s.average + b * r, s.qty)))
  {
    assert Unwound(s, In, b, r) == State(s.qty - b, s.average);
  }

  lemma ValueApart(q: int, a: int, b: int, r: int)
    requires 0 <= b && 0 <= r
    ensures (q - b) * a + b * r - a * q == b * r - b * a
    ensures a == 0 ==> 0 <= (q - b) * a + b * r
  {
    MulDistributes(q, -b, a);
    MulMonotone(0, b, r);
  }

  lemma RoundsOnto(n: int, q: int, a: int)
    requires 0 < q && 0 <= a && (a == 0 ==> 0 <= n)
    ensures Max(0, RoundDiv(n, q)) == a <==> -q <= 2 * (n - a * q) < q
  {
    if a * q <= n {
      RoundsTo(n, q, a);
      MulMonotone(0, a, q);
      RoundDivSign(n, q);
    } else {
      RoundsUpTo(n, q, a);
    }
  }

  lemma MoreThanAUnitStays(s: State, b: int, r: int)
    requires 0 < b && 1 < s.qty - b && 0 <= s.average && 0 <= r
    ensures Unwound(Unwound(s, In, b, r), Out, b, r) == s <==> 2 * (b * r - s.qty * s.average) < s.qty
  {
    var q, a := s.qty, s.average;
    var value := q * a - b * r;
    var x := RoundDiv(value, q - b);
    assert Unwound(s, In, b, r) == State(q - b, Max(0, x));
    if 0 <= value {
      RoundDivSign(value, q - b);
    } else {
      RoundsBelowZero(value, q - b);
    }
    var a1 := Max(0, x);
    assert Unwound(State(q - b, a1), Out, b, r) == State(q, Max(0, RoundDiv((q - b) * a1 + b * r, q)));
    if 0 <= x {
      UnclippedComesBack(q, a, b, r, x);
    } else {
      ClippedComesBack(q, a, b, r);
    }
  }

  lemma ClippedComesBack(q: int, a: int, b: int, r: int)
    requires 0 < b && 0 < q && 0 <= a && 0 <= r && q * a < b * r
    ensures Max(0, RoundDiv((q - b) * 0 + b * r, q)) == a <==> 2 * (b * r - q * a) < q
  {
    assert a * q == q * a;
    MulMonotone(0, b, r);
    RoundsTo(b * r, q, a);
    RoundDivSign(b * r, q);
  }

  /** A scope without a row starts from nothing; a line without a quantity or never valued leaves the row alone. */
  lemma ReversalStartsFromNothing(line: Line)
    ensures AfterReversal(None, line)
      == if 0 < line.baseQty && line.rate.Some? then AfterReversal(Some(State(0, 0)), line) else None
    ensures forall s: State :: AfterReversal(Some(s), line).Some?
    ensures line.baseQty <= 0 || line.rate.None? ==> forall s: State :: AfterReversal(Some(s), line) == Some(s)
  {
  }

  /** Over any list of reversed lines the quantity moves by what the valued ones say, and by nothing else. */
  function NetQty(lines: seq<Line>): int
  {
    if lines == [] then 0
    else
      var l := lines[|lines| - 1];
      NetQty(lines[..|lines| - 1]) +
      if l.baseQty <= 0 || l.rate.None? then 0 else if l.direction == In then -l.baseQty else l.baseQty
  }

  function AfterReversals(row: Option<State>, lines: seq<Line>): Option<State>
  {
    if lines == [] then row else AfterReversal(AfterReversals(row, lines[..|lines| - 1]), lines[|lines| - 1])
  }

  function QtyOf(row: Option<State>): int { if row.Some? then row.value.qty else 0 }

  lemma {:induction false} ReversalsMoveTheRecordedQuantity(row: Option<State>, lines: seq<Line>)
    requires row.Some? ==> 0 <= row.value.average
    ensures QtyOf(AfterReversals(row, lines)) == QtyOf(row) + NetQty(lines)
    ensures AfterReversals(row, lines).Some? ==>
      0 <= AfterReversals(row, lines).value.average
    ensures (forall i :: 0 <= i < |lines| ==> lines[i].rate.None?) ==>
      AfterReversals(row, lines) == row
  {
    if lines != [] {
      ReversalsMoveTheRecordedQuantity(row, lines[..|lines| - 1]);
    }
  }
}
