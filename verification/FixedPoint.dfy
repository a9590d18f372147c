/** Success or refusal, the shape of every guarded operation of the posting engine. */
module Outcomes {
  datatype Option<+T> = None | Some(value: T)

  datatype Result<+T, +E> = Ok(value: T) | Err(error: E)
}

/**
 Fixed-point arithmetic. A quantity, a rate and an amount are all whole numbers of
 0.0001, the four decimals every NUMERIC(18,4) column keeps, and rounding is half away
 from zero. A product of two such figures is a whole number of 0.00000001.
 */
module FixedPoint {
  const SCALE: int := 10000

  function Abs(x: int): nat { if x < 0 then -x else x }

  function Max(x: int, y: int): int { if x < y then y else x }

  function Min(x: int, y: int): int { if x < y then x else y }

  /** The integer nearest to n / d; a tie goes away from zero. */
  function RoundDiv(n: int, d: int): (r: int)
    requires 0 < d
    ensures 0 <= n ==> -d < 2 * (r * d - n) <= d
    ensures n <= 0 ==> -d <= 2 * (r * d - n) < d
  {
    if 0 <= n then (2 * n + d) / (2 * d) else -((-2 * n + d) / (2 * d))
  }

  /** qty x rate rounded to four decimals. */
  function Amount(qty: int, rate: int): (r: int)
    ensures Abs(2 * (r * SCALE - qty * rate)) <= SCALE
  {
    RoundDiv(qty * rate, SCALE)
  }

  /** amount / qty rounded to four decimals. */
  function UnitRate(amount: int, qty: int): (r: int)
    requires 0 < qty
    ensures Abs(2 * (r * qty - amount * SCALE)) <= qty
  {
    RoundDiv(amount * SCALE, qty)
  }

  /** Ten thousand units are one whole: at a rate it is worth the rate, and an amount over it is the rate. */
  lemma OneWhole(x: int)
    ensures Amount(10000, x) == x && UnitRate(x, 10000) == x
  {
    RoundDivUnique(10000 * x, SCALE, x);
    RoundDivUnique(x * SCALE, 10000, x);
  }

  /** A multiple of d strictly between -d and d is zero. */
  lemma NoMultipleBetween(gap: int, d: int)
    requires 0 < d && -d < gap * d < d
    ensures gap == 0
  {
    if 1 <= gap {
      MulMonotone(1, gap, d);
    }
    if gap <= -1 {
      MulMonotone(gap, -1, d);
    }
  }

  /** The contract of RoundDiv leaves one candidate: any integer within the same half unit is it. */
  lemma RoundDivUnique(n: int, d: int, r: int)
    requires 0 < d
    requires 0 <= n ==> -d < 2 * (r * d - n) <= d
    requires n < 0 ==> -d <= 2 * (r * d - n) < d
    ensures r == RoundDiv(n, d)
  {
    var q := RoundDiv(n, d);
    assert (q - r) * d == (q * d - n) - (r * d - n);
    NoMultipleBetween(q - r, d);
  }

  lemma MulMonotone(a: int, b: int, c: int)
    requires a <= b && 0 <= c
    ensures a * c <= b * c
  {
    assert (b - a) * c == b * c - a * c;
    assert 0 <= (b - a) * c;
  }

  lemma MulDistributes(a: int, b: int, c: int)
    ensures (a + b) * c == a * c + b * c
  {
  }

  /** Rounding never crosses zero. */
  lemma RoundDivSign(n: int, d: int)
    requires 0 < d
    ensures 0 <= n ==> 0 <= RoundDiv(n, d)
    ensures n <= 0 ==> RoundDiv(n, d) <= 0
  {
    var r := RoundDiv(n, d);
    if 0 <= n && r < 0 {
      MulMonotone(r, -1, d);
    }
    if n <= 0 && 0 < r {
      MulMonotone(1, r, d);
    }
  }

  function Sum(s: seq<int>): int
  {
    if s == [] then 0 else s[0] + Sum(s[1..])
  }

  lemma {:induction false} SumConcat(a: seq<int>, b: seq<int>)
    ensures Sum(a + b) == Sum(a) + Sum(b)
  {
    if a == [] {
      assert a + b == b;
    } else {
      assert (a + b)[1..] == a[1..] + b;
      SumConcat(a[1..], b);
    }
  }

  lemma SumAppend(s: seq<int>, x: int)
    ensures Sum(s + [x]) == Sum(s) + x
  {
    SumConcat(s, [x]);
  }

  lemma SumPrefix(s: seq<int>, i: nat)
    requires i < |s|
    ensures Sum(s[..i + 1]) == Sum(s[..i]) + s[i]
  {
    assert s[..i + 1] == s[..i] + [s[i]];
    SumAppend(s[..i], s[i]);
  }

  lemma SumSplit(s: seq<int>, i: nat)
    requires i <= |s|
    ensures Sum(s) == Sum(s[..i]) + Sum(s[i..])
  {
    assert s == s[..i] + s[i..];
    SumConcat(s[..i], s[i..]);
  }

  lemma {:induction false} SumUpdate(s: seq<int>, i: nat, x: int)
    requires i < |s|
    ensures Sum(s[i := x]) == Sum(s) - s[i] + x
  {
    if i == 0 {
      assert s[i := x][1..] == s[1..];
    } else {
      assert s[i := x][1..] == s[1..][i - 1 := x];
      SumUpdate(s[1..], i - 1, x);
    }
  }

  lemma {:induction false} SumNonNegative(s: seq<int>)
    requires forall i :: 0 <= i < |s| ==> 0 <= s[i]
    ensures 0 <= Sum(s)
  {
    if s != [] {
      assert forall i :: 0 <= i < |s[1..]| ==> s[1..][i] == s[i + 1];
      SumNonNegative(s[1..]);
    }
  }

  lemma {:induction false} SumZero(s: seq<int>)
    requires forall i :: 0 <= i < |s| ==> s[i] == 0
    ensures Sum(s) == 0
  {
    if s != [] {
      SumZero(s[1..]);
    }
  }
}
