/**
 The string functions of the host language the model needs: trim, case folding over ASCII,
 and whole numbers as text.
 */
module Text {
  function Lower(c: char): char { if 'A' <= c <= 'Z' then (c as int + 32) as char else c }

  function Fold(s: string): string { seq(|s|, i requires 0 <= i < |s| => Lower(s[i])) }

  predicate Blank(c: char) { c == ' ' || c == '\t' || c == '\n' || c == '\r' || c == '\0' || c == 11 as char }

  function TrimLeft(s: string): string { if s != "" && Blank(s[0]) then TrimLeft(s[1..]) else s }

  function TrimRight(s: string): string { if s != "" && Blank(s[|s| - 1]) then TrimRight(s[..|s| - 1]) else s }

  function Trim(s: string): string { TrimRight(TrimLeft(s)) }

  /** A letter and its capital fold alike, and no other two characters do. */
  lemma FoldsCase(c: char, d: char)
    ensures Lower(c) == Lower(d)
      <==> c == d || ('A' <= c <= 'Z' && d as int == c as int + 32) || ('A' <= d <= 'Z' && c as int == d as int + 32)
  {
  }

  /** Texts fold alike exactly when they do so character by character. */
  lemma FoldedAlike(s: string, t: string)
    ensures Fold(s) == Fold(t) <==> |s| == |t| && forall i :: 0 <= i < |s| ==> Lower(s[i]) == Lower(t[i])
  {
    if Fold(s) == Fold(t) {
      forall i | 0 <= i < |s|
        ensures Lower(s[i]) == Lower(t[i])
      {
        assert Fold(s)[i] == Fold(t)[i];
      }
    }
  }

  predicate AllBlank(s: string)
  {
    forall i :: 0 <= i < |s| ==>
      s[i] == ' ' || s[i] == '\t' || s[i] == '\n' || s[i] == '\r' || s[i] == '\0' || s[i] == 11 as char
  }

  lemma {:induction false} TrimsLeft(s: string) returns (n: nat)
    ensures n <= |s| && TrimLeft(s) == s[n..] && AllBlank(s[..n])
    ensures TrimLeft(s) != "" ==> !AllBlank([TrimLeft(s)[0]])
  {
    n := 0;
    if s != "" && Blank(s[0]) {
      var m := TrimsLeft(s[1..]);
      n := m + 1;
      assert s[..n] == [s[0]] + s[1..][..m];
    } else if s != "" {
      assert [s[0]][0] == s[0];
    }
  }

  lemma {:induction false} TrimsRight(s: string) returns (n: nat)
    ensures n <= |s| && TrimRight(s) == s[..n] && AllBlank(s[n..])
    ensures TrimRight(s) != "" ==> !AllBlank([TrimRight(s)[|TrimRight(s)| - 1]])
  {
    n := |s|;
    if s != "" && Blank(s[|s| - 1]) {
      n := TrimsRight(s[..|s| - 1]);
      assert s[n..] == s[..|s| - 1][n..] + [s[|s| - 1]];
    } else if s != "" {
      assert [s[|s| - 1]][0] == s[|s| - 1];
    }
  }

  /** Trimming takes the blanks off both ends and nothing else. */
  lemma TrimTakesBlanks(s: string) returns (before: string, after: string)
    ensures s == before + Trim(s) + after && AllBlank(before) && AllBlank(after)
    ensures Trim(s) != "" ==> !AllBlank([Trim(s)[|Trim(s)| - 1]]) && !AllBlank([Trim(s)[0]])
  {
    var n := TrimsLeft(s);
    var m := TrimsRight(s[n..]);
    before, after := s[..n], s[n..][m..];
    assert s == s[..n] + s[n..] && s[n..] == s[n..][..m] + s[n..][m..];
    if Trim(s) != "" {
      assert Trim(s)[0] == TrimLeft(s)[0];
    }
  }

  // ------------------------------------------------------------------ whole numbers

  predicate Digit(c: char) { '0' <= c <= '9' }

  function Decimal(n: nat): string
  {
    (if n < 10 then "" else Decimal(n / 10)) + [(n % 10 + '0' as int) as char]
  }

  function Signed(n: int): string { if n < 0 then "-" + Decimal(-n) else Decimal(n) }

  function NatOf(digits: string): nat
  {
    if digits == "" then 0
    else
      var c := digits[|digits| - 1];
      10 * NatOf(digits[..|digits| - 1]) + if Digit(c) then c as int - '0' as int else 0
  }

  /** Written out and read back a number is itself; it is written in digits, and zero alone starts with a zero. */
  lemma {:induction false} DecimalReadsBack(n: nat)
    ensures NatOf(Decimal(n)) == n && Decimal(n) != ""
    ensures forall i :: 0 <= i < |Decimal(n)| ==> '0' <= Decimal(n)[i] <= '9'
    ensures 0 < n ==> Decimal(n)[0] != '0'
  {
    var s := Decimal(n);
    if 10 <= n {
      DecimalReadsBack(n / 10);
      assert s[..|s| - 1] == Decimal(n / 10);
    } else {
      assert s[..|s| - 1] == "";
    }
  }
}
