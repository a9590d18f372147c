/** The canonical form of a request body, by which a repeated idempotency key is recognised. */
module CanonicalRequest {
  import opened Sequences
  import opened Text

  datatype Key = IntKey(index: int) | StrKey(name: string)

  datatype Entry = Entry(key: Key, val: Value)

  /** A decoded body: an array is an ordered list of distinct keys, whether it was a list or an object. */
  datatype Value = Null | Bool(b: bool) | Int(n: int) | Float(x: real) | Str(s: string) | Arr(entries: seq<Entry>)

  const IGNORED := [StrKey("idempotency_key"), StrKey("cmp_id"), StrKey("fy_id"), StrKey("bo_id")]

  predicate Ignored(k: Key) { k in IGNORED }

  // ------------------------------------------------------------------ well-formed bodies

  predicate IsList(es: seq<Entry>) { forall i :: 0 <= i < |es| ==> es[i].key == IntKey(i) }

  predicate Space(c: char) { c == ' ' || c == '\t' || c == '\n' || c == '\r' || c == 11 as char || c == 12 as char }

  function SkipSpaces(s: string): string { if s != "" && Space(s[0]) then SkipSpaces(s[1..]) else s }

  function SkipSign(s: string): string { if s != "" && (s[0] == '+' || s[0] == '-') then s[1..] else s }

  function SkipDigits(s: string): (t: string)
    ensures |t| <= |s|
  {
    if s != "" && Digit(s[0]) then SkipDigits(s[1..]) else s
  }

  function SkipExponent(s: string): string
  {
    if s != "" && (s[0] == 'e' || s[0] == 'E') && SkipSign(s[1..]) != "" && Digit(SkipSign(s[1..])[0])
    then SkipDigits(SkipSign(s[1..])) else s
  }

  /** A string the host language compares as a number, and, when it is a plain integer, files under an integer key. */
  predicate IsNumeric(s: string)
  {
    var t := SkipSign(SkipSpaces(s));
    var u := SkipDigits(t);
    var w := if u != "" && u[0] == '.' then SkipDigits(u[1..]) else u;
    (u != t || (w != u && |w| + 1 < |u|)) && SkipSpaces(SkipExponent(w)) == ""
  }

  function Digits(s: string): string { s[..|s| - |SkipDigits(s)|] }

  function Pow10(n: nat): (p: real)
    ensures 0.0 < p
  {
    if n == 0 then 1.0 else 10.0 * Pow10(n - 1)
  }

  predicate Negative(s: string) { s != "" && s[0] == '-' }

  /** What a numeric string stands for. */
  function NumberOf(s: string): real
  {
    var t := SkipSpaces(s);
    var u := SkipSign(t);
    var w := SkipDigits(u);
    var fraction := if w != "" && w[0] == '.' then Digits(w[1..]) else "";
    var x := if w != "" && w[0] == '.' then SkipDigits(w[1..]) else w;
    var size := NatOf(Digits(u) + fraction) as real / Pow10(|fraction|);
    var e := if SkipExponent(x) == x then 0 else NatOf(Digits(SkipSign(x[1..])));
    var scaled := if e != 0 && Negative(x[1..]) then size / Pow10(e) else size * Pow10(e);
    if Negative(t) then -scaled else scaled
  }

  // ------------------------------------------------------------------ the order of keys

  predicate IsNumber(k: Key) { k.IntKey? || IsNumeric(k.name) }

  function Number(k: Key): real { if k.IntKey? then k.index as real else NumberOf(k.name) }

  function TextOf(k: Key): string
  {
    if k.StrKey? then k.name else Signed(k.index)
  }

  predicate NameLess(a: string, b: string)
  {
    b != "" && (a == "" || a[0] < b[0] || (a[0] == b[0] && NameLess(a[1..], b[1..])))
  }

  /** The host language's comparison: two numbers by value, anything else by its characters. */
  predicate KeyLess(a: Key, b: Key)
  {
    if IsNumber(a) && IsNumber(b) then Number(a) < Number(b) else NameLess(TextOf(a), TextOf(b))
  }

  /** The comparison is an order on these keys: it decides every two and never runs in a circle. */
  ghost predicate Ranks(ks: set<Key>)
  {
    && (forall a, b :: a in ks && b in ks && a != b ==> KeyLess(a, b) || KeyLess(b, a))
    && (forall a, b, c :: a in ks && b in ks && c in ks && KeyLess(a, b) && KeyLess(b, c) ==> KeyLess(a, c))
  }

  // ------------------------------------------------------------------ well-formed bodies

  predicate DistinctKeys(es: seq<Entry>) { forall i, j :: 0 <= i < j < |es| ==> es[i].key != es[j].key }

  function Keys(es: seq<Entry>): set<Key> { set e | e in es :: e.key }

  function KeptKeys(es: seq<Entry>): set<Key> { set e | e in es && !Ignored(e.key) :: e.key }

  /** Every array at any depth is a list, or the comparison of keys is an order on those it keeps. */
  ghost predicate WellFormed(v: Value)
  {
    v.Arr? ==>
      && DistinctKeys(v.entries) && (IsList(v.entries) || Ranks(KeptKeys(v.entries)))
      && forall i :: 0 <= i < |v.entries| ==> WellFormed(v.entries[i].val)
  }

  lemma {:induction false} NamesAreOrdered(a: string, b: string)
    ensures a == b || NameLess(a, b) || NameLess(b, a)
    ensures !(NameLess(a, b) && NameLess(b, a)) && !NameLess(a, a)
  {
    if a != "" {
      NamesAreOrdered(a[1..], a[1..]);
    }
    if a != "" && b != "" {
      NamesAreOrdered(a[1..], b[1..]);
      if a[0] == b[0] && a[1..] == b[1..] {
        assert a == [a[0]] + a[1..] && b == [b[0]] + b[1..];
      }
    }
  }

  lemma {:induction false} NamesChain(a: string, b: string, c: string)
    requires NameLess(a, b) && NameLess(b, c)
    ensures NameLess(a, c)
  {
    if a != "" && a[0] == b[0] && b[0] == c[0] {
      NamesChain(a[1..], b[1..], c[1..]);
    }
  }

  lemma KeyLessOneWay(a: Key, b: Key)
    ensures !(KeyLess(a, b) && KeyLess(b, a)) && !KeyLess(a, a)
  {
    NamesAreOrdered(TextOf(a), TextOf(b));
    NamesAreOrdered(TextOf(a), TextOf(a));
  }

  /** Integer keys rank, and so do names none of which is a number. */
  lemma OrdinaryKeysRank(ks: set<Key>)
    requires (forall k :: k in ks ==> k.IntKey?) || (forall k :: k in ks ==> k.StrKey? && !IsNumeric(k.name))
    ensures Ranks(ks)
  {
    forall a, b | a in ks && b in ks && a != b
      ensures KeyLess(a, b) || KeyLess(b, a)
    {
      NamesAreOrdered(TextOf(a), TextOf(b));
    }
    forall a, b, c | a in ks && b in ks && c in ks && KeyLess(a, b) && KeyLess(b, c)
      ensures KeyLess(a, c)
    {
      if a.StrKey? {
        NamesChain(a.name, b.name, c.name);
      }
    }
  }

  // ------------------------------------------------------------------ sorting by key

  predicate Sorted(es: seq<Entry>) { forall i, j :: 0 <= i < j < |es| ==> KeyLess(es[i].key, es[j].key) }

  function Insert(e: Entry, es: seq<Entry>): seq<Entry>
  {
    if es == [] || !KeyLess(e.key, es[|es| - 1].key) then es + [e]
    else Insert(e, es[..|es| - 1]) + [es[|es| - 1]]
  }

  /** ksort(): an entry moves only past those it is less than. */
  function SortByKey(es: seq<Entry>): seq<Entry>
  {
    if es == [] then [] else Insert(es[|es| - 1], SortByKey(es[..|es| - 1]))
  }

  lemma {:induction false} InsertKeepsEntries(e: Entry, es: seq<Entry>, x: Entry)
    ensures x in Insert(e, es) <==> x == e || x in es
  {
    if es != [] && KeyLess(e.key, es[|es| - 1].key) {
      InsertKeepsEntries(e, es[..|es| - 1], x);
      assert es == es[..|es| - 1] + [es[|es| - 1]];
    }
  }

  lemma {:induction false} SortKeepsEntries(es: seq<Entry>, x: Entry)
    ensures x in SortByKey(es) <==> x in es
  {
    if es != [] {
      var k := |es| - 1;
      SortKeepsEntries(es[..k], x);
      InsertKeepsEntries(es[k], SortByKey(es[..k]), x);
      assert es == es[..k] + [es[k]];
    }
  }

  lemma {:induction false} InsertSorts(e: Entry, es: seq<Entry>, ks: set<Key>)
    requires Sorted(es) && Ranks(ks) && e.key in ks && forall x :: x in es ==> x.key in ks && x.key != e.key
    ensures Sorted(Insert(e, es))
  {
    if es != [] {
      var k := |es| - 1;
      if KeyLess(e.key, es[k].key) {
        InsertSorts(e, es[..k], ks);
        InsertedBefore(e, es);
        AppendSorts(Insert(e, es[..k]), es[k]);
      } else {
        LastIsBefore(e, es, ks);
        AppendSorts(es, e);
      }
    }
  }

  lemma InsertedBefore(e: Entry, es: seq<Entry>)
    requires Sorted(es) && es != [] && KeyLess(e.key, es[|es| - 1].key)
    ensures forall x :: x in Insert(e, es[..|es| - 1]) ==> KeyLess(x.key, es[|es| - 1].key)
  {
    forall x | x in Insert(e, es[..|es| - 1])
      ensures KeyLess(x.key, es[|es| - 1].key)
    {
      InsertKeepsEntries(e, es[..|es| - 1], x);
    }
  }

  lemma LastIsBefore(e: Entry, es: seq<Entry>, ks: set<Key>)
    requires Sorted(es) && Ranks(ks) && e.key in ks && forall x :: x in es ==> x.key in ks && x.key != e.key
    requires es != [] && !KeyLess(e.key, es[|es| - 1].key)
    ensures forall x :: x in es ==> KeyLess(x.key, e.key)
  {
    var last := es[|es| - 1];
    assert last in es;
    forall x | x in es
      ensures KeyLess(x.key, e.key)
    {
      var i := PositionOf(es, x);
      assert i < |es| - 1 ==> KeyLess(x.key, last.key);
    }
  }

  lemma AppendSorts(es: seq<Entry>, last: Entry)
    requires Sorted(es) && forall x :: x in es ==> KeyLess(x.key, last.key)
    ensures Sorted(es + [last])
  {
  }

  lemma {:induction false} SortSorts(es: seq<Entry>, ks: set<Key>)
    requires DistinctKeys(es) && Ranks(ks) && forall x :: x in es ==> x.key in ks
    ensures Sorted(SortByKey(es))
  {
    if es != [] {
      var k := |es| - 1;
      SortSorts(es[..k], ks);
      EarlierKeys(es, ks);
      InsertSorts(es[k], SortByKey(es[..k]), ks);
    }
  }

  lemma EarlierKeys(es: seq<Entry>, ks: set<Key>)
    requires DistinctKeys(es) && es != [] && forall x :: x in es ==> x.key in ks
    ensures forall x :: x in SortByKey(es[..|es| - 1]) ==> x.key in ks && x.key != es[|es| - 1].key
  {
    forall x | x in SortByKey(es[..|es| - 1])
      ensures x.key in ks && x.key != es[|es| - 1].key
    {
      SortKeepsEntries(es[..|es| - 1], x);
      var i := PositionOf(es[..|es| - 1], x);
      assert x == es[i] && x in es;
    }
  }

  lemma HeadIsLeast(a: seq<Entry>, b: seq<Entry>)
    requires Sorted(a) && Sorted(b) && a != [] && b != [] && a[0] in b && b[0] in a
    ensures a[0] == b[0]
  {
    KeyLessOneWay(a[0].key, b[0].key);
  }

  /** A set of entries has one sorted list. */
  lemma {:induction false} SortedIsUnique(a: seq<Entry>, b: seq<Entry>)
    requires Sorted(a) && Sorted(b) && forall x :: x in a <==> x in b
    ensures a == b
  {
    assert a == [] || a[0] in b;
    assert b == [] || b[0] in a;
    if a != [] && b != [] {
      HeadIsLeast(a, b);
      TailHasTheRest(a, b);
      TailHasTheRest(b, a);
      SortedIsUnique(a[1..], b[1..]);
      assert a == [a[0]] + a[1..] && b == [b[0]] + b[1..];
    }
  }

  lemma TailHasTheRest(a: seq<Entry>, b: seq<Entry>)
    requires Sorted(a) && a != [] && b != [] && a[0] == b[0] && forall x :: x in a ==> x in b
    ensures forall x :: x in a[1..] ==> x in b[1..]
  {
    assert b == [b[0]] + b[1..];
    forall x | x in a[1..]
      ensures x in b[1..]
    {
      var i :| 0 <= i < |a[1..]| && a[1..][i] == x;
      assert a[i + 1] == x && KeyLess(a[0].key, x.key);
      KeyLessOneWay(a[0].key, x.key);
      assert x != a[0] && x in b;
    }
  }

  // ------------------------------------------------------------------ what a numeric name stands for

  lemma {:induction false} AllDigits(s: string)
    requires forall i :: 0 <= i < |s| ==> Digit(s[i])
    ensures SkipDigits(s) == ""
  {
    if s != "" {
      AllDigits(s[1..]);
    }
  }

  lemma ReadsDigits(s: string, d: string)
    requires SkipSpaces(s) == s && SkipSign(s) == d && d != "" && SkipDigits(d) == ""
    ensures IsNumeric(s) && NumberOf(s) == if Negative(s) then -(NatOf(d) as real) else NatOf(d) as real
  {
    assert d[..|d|] == d && d + "" == d;
    assert Pow10(0) == 1.0 && SkipExponent("") == "" && SkipSpaces("") == "";
  }

  lemma DigitsAlone(d: string)
    requires d != "" && forall i :: 0 <= i < |d| ==> Digit(d[i])
    ensures SkipSpaces(d) == d && SkipSign(d) == d && !Negative(d)
  {
    assert Digit(d[0]);
  }

  lemma NaturalsReadBack(n: nat)
    ensures IsNumeric(Decimal(n)) && NumberOf(Decimal(n)) == n as real
    ensures IsNumeric("-" + Decimal(n)) && NumberOf("-" + Decimal(n)) == -(n as real)
  {
    var d := Decimal(n);
    var s := "-" + d;
    DecimalReadsBack(n);
    AllDigits(d);
    DigitsAlone(d);
    ReadsDigits(d, d);
    assert s[0] == '-' && s[1..] == d;
    ReadsDigits(s, d);
  }

  /** An integer key, written out, is a number, and the one it is. */
  lemma IntegersReadBack(i: int)
    ensures IsNumeric(TextOf(IntKey(i))) && NumberOf(TextOf(IntKey(i))) == i as real
  {
    NaturalsReadBack(if i < 0 then -i else i);
  }

  /** A fraction counts behind the point, an exponent moves it, a sign and blanks in front are read over. */
  lemma NumbersAreRead()
    ensures IsNumeric("1.5") && NumberOf("1.5") == 1.5
    ensures IsNumeric("2e3") && NumberOf("2e3") == 2000.0
    ensures IsNumeric(" -4") && NumberOf(" -4") == -4.0
    ensures IsNumeric("5e-1 ") && NumberOf("5e-1 ") == 0.5
    ensures !IsNumeric("") && !IsNumeric(".") && !IsNumeric("-") && !IsNumeric("e3") && !IsNumeric("1.2.3")
  {
    OnePointFive();
    TwoThousand();
    MinusFour();
    AHalf();
    NoNumbers();
  }

  lemma PointFive()
    ensures SkipDigits(".5") == ".5" && ".5"[1..] == "5" && SkipDigits("5") == "" && Digits("5") == "5"
  {
    assert "5"[1..] == "";
  }

  lemma Fifteen()
    ensures "1" + "5" == "15" && NatOf("15") == 15 && Pow10(1) == 10.0
  {
    assert "15"[..1] == "1" && "1"[..0] == "" && NatOf("1") == 1;
  }

  lemma OnePointFive()
    ensures IsNumeric("1.5") && NumberOf("1.5") == 1.5
  {
    var s := "1.5";
    assert s[1..] == ".5";
    PointFive();
    assert SkipDigits(s) == ".5" && Digits(s) == "1";
    Fifteen();
  }

  lemma TwoThousand()
    ensures IsNumeric("2e3") && NumberOf("2e3") == 2000.0
  {
    var s := "2e3";
    assert s[1..] == "e3" && SkipDigits("e3") == "e3" && SkipDigits(s) == "e3" && Digits(s) == "2";
    assert "e3"[1..] == "3" && "3"[1..] == "" && SkipSign("3") == "3" && SkipDigits("3") == "" && Digits("3") == "3";
    assert SkipExponent("e3") == "";
    assert "2" + "" == "2" && "2"[..0] == "" && "3"[..0] == "" && NatOf("2") == 2 && NatOf("3") == 3;
    assert Pow10(0) == 1.0 && Pow10(1) == 10.0 && Pow10(2) == 100.0 && Pow10(3) == 1000.0;
  }

  lemma MinusFour()
    ensures IsNumeric(" -4") && NumberOf(" -4") == -4.0
  {
    var s := " -4";
    assert s[1..] == "-4" && SkipSpaces("-4") == "-4" && SkipSpaces(s) == "-4";
    assert "-4"[1..] == "4" && SkipSign("-4") == "4" && "4"[1..] == "" && SkipDigits("4") == "" && Digits("4") == "4";
    assert "4" + "" == "4" && "4"[..0] == "" && NatOf("4") == 4;
    assert Pow10(0) == 1.0;
  }

  lemma AHalf()
    ensures IsNumeric("5e-1 ") && NumberOf("5e-1 ") == 0.5
  {
    var s := "5e-1 ";
    assert s[1..] == "e-1 " && SkipDigits("e-1 ") == "e-1 " && SkipDigits(s) == "e-1 " && Digits(s) == "5";
    assert "e-1 "[1..] == "-1 " && "-1 "[1..] == "1 " && SkipSign("-1 ") == "1 " && "1 "[1..] == " ";
    assert SkipDigits(" ") == " " && SkipDigits("1 ") == " " && Digits("1 ") == "1" && SkipExponent("e-1 ") == " ";
    assert " "[1..] == "" && SkipSpaces("") == "" && SkipSpaces(" ") == "";
    assert "5" + "" == "5" && "5"[..0] == "" && "1"[..0] == "" && NatOf("5") == 5 && NatOf("1") == 1;
    assert Pow10(0) == 1.0 && Pow10(1) == 10.0;
  }

  lemma NoNumbers()
    ensures !IsNumeric("") && !IsNumeric(".") && !IsNumeric("-") && !IsNumeric("e3") && !IsNumeric("1.2.3")
  {
    assert "."[1..] == "" && SkipDigits(".") == "." && "-"[1..] == "" && SkipDigits("") == "";
    assert SkipDigits("e3") == "e3" && "e3"[1..] == "3" && "3"[1..] == "";
    assert "1.2.3"[1..] == ".2.3" && SkipDigits("1.2.3") == ".2.3" && ".2.3"[1..] == "2.3" && "2.3"[1..] == ".3";
    assert SkipDigits("2.3") == ".3" && SkipExponent(".3") == ".3" && SkipSpaces(".3") == ".3";
  }

  // ------------------------------------------------------------------ when the order of entries does not matter

  predicate Reorders(p: seq<Entry>, es: seq<Entry>)
  {
    |p| == |es| && DistinctKeys(p) && (forall e :: e in p ==> e in es) && (forall e :: e in es ==> e in p)
  }

  ghost predicate OrderForgotten(es: seq<Entry>)
  {
    forall p :: Reorders(p, es) ==> SortByKey(p) == SortByKey(es)
  }

  lemma RankedIsForgotten(es: seq<Entry>)
    requires DistinctKeys(es) && Ranks(Keys(es))
    ensures OrderForgotten(es)
  {
    forall p | Reorders(p, es)
      ensures SortByKey(p) == SortByKey(es)
    {
      SortSorts(p, Keys(es));
      SortSorts(es, Keys(es));
      forall x
        ensures x in SortByKey(p) <==> x in SortByKey(es)
      {
        SortKeepsEntries(p, x);
        SortKeepsEntries(es, x);
      }
      SortedIsUnique(SortByKey(p), SortByKey(es));
    }
  }

  /** Entries whose neighbours are in order stay as they are. */
  lemma {:induction false} NeighboursInOrderStay(es: seq<Entry>)
    requires forall i :: 0 < i < |es| ==> !KeyLess(es[i].key, es[i - 1].key)
    ensures SortByKey(es) == es
  {
    if es != [] {
      var k := |es| - 1;
      NeighboursInOrderStay(es[..k]);
      assert es == es[..k] + [es[k]];
    }
  }

  function Removed(e: Entry, es: seq<Entry>): seq<Entry>
  {
    if es == [] then [] else Removed(e, es[..|es| - 1]) + if es[|es| - 1] == e then [] else [es[|es| - 1]]
  }

  lemma {:induction false} NothingToRemove(e: Entry, es: seq<Entry>)
    requires e !in es
    ensures Removed(e, es) == es
  {
    if es != [] {
      NothingToRemove(e, es[..|es| - 1]);
    }
  }

  lemma {:induction false} RemovedAfterInsert(e: Entry, es: seq<Entry>)
    requires e !in es
    ensures Removed(e, Insert(e, es)) == es
  {
    NothingToRemove(e, es);
    var out := Insert(e, es);
    if es == [] || !KeyLess(e.key, es[|es| - 1].key) {
      assert out[..|out| - 1] == es;
    } else {
      RemovedAfterInsert(e, es[..|es| - 1]);
      assert out[..|out| - 1] == Insert(e, es[..|es| - 1]);
    }
  }

  function Without(es: seq<Entry>, m: nat): (rest: seq<Entry>)
    requires m < |es|
    ensures |rest| == |es| - 1
  {
    es[..m] + es[m + 1..]
  }

  lemma LastReorders(p: seq<Entry>, es: seq<Entry>, m: nat)
    requires DistinctKeys(es) && m < |es| && Reorders(p, Without(es, m))
    ensures DistinctKeys(Without(es, m)) && es[m] !in p && Reorders(p + [es[m]], es)
  {
    var rest := Without(es, m);
    assert forall i :: 0 <= i < |rest| ==> rest[i] == es[if i < m then i else i + 1];
    forall e | e in es
      ensures e in p + [es[m]]
    {
      var i := PositionOf(es, e);
      if i != m {
        assert rest[if i < m then i else i - 1] == e;
      }
    }
    forall e | e in p
      ensures e in es && e.key != es[m].key
    {
      var i := PositionOf(rest, e);
    }
  }

  lemma WithoutIsDistinct(es: seq<Entry>, m: nat)
    requires DistinctKeys(es) && m < |es|
    ensures DistinctKeys(Without(es, m)) && Reorders(Without(es, m), Without(es, m))
  {
    var rest := Without(es, m);
    assert forall i :: 0 <= i < |rest| ==> rest[i] == es[if i < m then i else i + 1];
  }

  /** What holds of the whole holds with an entry left out. */
  lemma ForgottenWithout(es: seq<Entry>, m: nat)
    requires DistinctKeys(es) && m < |es| && OrderForgotten(es)
    ensures DistinctKeys(Without(es, m)) && OrderForgotten(Without(es, m))
  {
    var rest := Without(es, m);
    WithoutIsDistinct(es, m);
    forall p | Reorders(p, rest)
      ensures SortByKey(p) == SortByKey(rest)
    {
      SortedFromLast(p, es, m);
      SortedFromLast(rest, es, m);
    }
  }

  lemma SortedFromLast(p: seq<Entry>, es: seq<Entry>, m: nat)
    requires DistinctKeys(es) && m < |es| && OrderForgotten(es) && Reorders(p, Without(es, m))
    ensures SortByKey(p) == Removed(es[m], SortByKey(es))
  {
    LastReorders(p, es, m);
    LastRemoved(p, es[m]);
  }

  lemma LastRemoved(p: seq<Entry>, e: Entry)
    requires e !in p
    ensures Removed(e, SortByKey(p + [e])) == SortByKey(p)
  {
    assert (p + [e])[..|p|] == p;
    SortKeepsEntries(p, e);
    RemovedAfterInsert(e, SortByKey(p));
  }

  /** Where entry i stands once entry m is left out. */
  function Shifted(i: nat, m: nat): nat { if m < i then i - 1 else i }

  lemma ShiftedAt(es: seq<Entry>, m: nat, i: nat)
    requires m < |es| && i < |es| && i != m
    ensures Shifted(i, m) < |es| - 1 && Without(es, m)[Shifted(i, m)] == es[i]
  {
  }

  /** Two arrangements of the same entries, each with its neighbours in order, are one. */
  lemma OneArrangement(es: seq<Entry>, p: seq<Entry>, q: seq<Entry>)
    requires OrderForgotten(es) && Reorders(p, es) && Reorders(q, es)
    requires forall i :: 0 < i < |p| ==> !KeyLess(p[i].key, p[i - 1].key)
    requires forall i :: 0 < i < |q| ==> !KeyLess(q[i].key, q[i - 1].key)
    ensures p == q
  {
    NeighboursInOrderStay(p);
    NeighboursInOrderStay(q);
  }

  lemma TwoDecided(es: seq<Entry>)
    requires DistinctKeys(es) && OrderForgotten(es) && |es| == 2
    ensures KeyLess(es[0].key, es[1].key) || KeyLess(es[1].key, es[0].key)
  {
    var q := [es[1], es[0]];
    assert es[0] == q[1] && es[1] == q[0] && es != q;
    if !KeyLess(es[0].key, es[1].key) && !KeyLess(es[1].key, es[0].key) {
      OneArrangement(es, es, q);
    }
  }

  lemma {:induction false} EveryTwoDecided(es: seq<Entry>, i: nat, j: nat)
    requires DistinctKeys(es) && OrderForgotten(es) && i < |es| && j < |es| && i != j
    ensures KeyLess(es[i].key, es[j].key) || KeyLess(es[j].key, es[i].key)
    decreases |es|
  {
    if |es| > 2 {
      var m: nat := if i != 0 && j != 0 then 0 else if i != 1 && j != 1 then 1 else 2;
      ForgottenWithout(es, m);
      ShiftedAt(es, m, i);
      ShiftedAt(es, m, j);
      EveryTwoDecided(Without(es, m), Shifted(i, m), Shifted(j, m));
    } else {
      TwoDecided(es);
    }
  }

  /** Three entries in a circle would have two arrangements. */
  lemma ThreeChain(es: seq<Entry>, a: Entry, b: Entry, c: Entry)
    requires DistinctKeys(es) && OrderForgotten(es) && |es| == 3
    requires a in es && b in es && c in es && a.key != b.key && b.key != c.key && a.key != c.key
    requires KeyLess(a.key, b.key) && KeyLess(b.key, c.key)
    ensures !KeyLess(c.key, a.key)
  {
    var p, q := [a, b, c], [b, c, a];
    assert p[0] != q[0] && p != q;
    KeyLessOneWay(a.key, b.key);
    KeyLessOneWay(b.key, c.key);
    KeyLessOneWay(c.key, a.key);
    ThreeReorder(es, a, b, c);
    ThreeReorder(es, b, c, a);
    if KeyLess(c.key, a.key) {
      OneArrangement(es, p, q);
    }
  }

  lemma ThreeReorder(es: seq<Entry>, a: Entry, b: Entry, c: Entry)
    requires DistinctKeys(es) && |es| == 3
    requires a in es && b in es && c in es && a.key != b.key && b.key != c.key && a.key != c.key
    ensures Reorders([a, b, c], es)
  {
    assert es == [es[0], es[1], es[2]];
  }

  /** One of the first four that is none of the three. */
  function Spare(i: nat, j: nat, k: nat): (m: nat)
    ensures m <= 3 && m != i && m != j && m != k
  {
    if i != 0 && j != 0 && k != 0 then 0
    else if i != 1 && j != 1 && k != 1 then 1
    else if i != 2 && j != 2 && k != 2 then 2 else 3
  }

  lemma {:induction false} EveryThreeChain(es: seq<Entry>, i: nat, j: nat, k: nat)
    requires DistinctKeys(es) && OrderForgotten(es) && i < |es| && j < |es| && k < |es|
    requires KeyLess(es[i].key, es[j].key) && KeyLess(es[j].key, es[k].key)
    ensures KeyLess(es[i].key, es[k].key)
    decreases |es|
  {
    if |es| > 3 {
      var m := Spare(i, j, k);
      ForgottenWithout(es, m);
      ShiftedAt(es, m, i);
      ShiftedAt(es, m, j);
      ShiftedAt(es, m, k);
      EveryThreeChain(Without(es, m), Shifted(i, m), Shifted(j, m), Shifted(k, m));
    } else {
      ThreeApart(es, i, j, k);
      ThreeChain(es, es[i], es[j], es[k]);
      EveryTwoDecided(es, i, k);
    }
  }

  lemma ThreeApart(es: seq<Entry>, i: nat, j: nat, k: nat)
    requires DistinctKeys(es) && i < |es| && j < |es| && k < |es|
    requires KeyLess(es[i].key, es[j].key) && KeyLess(es[j].key, es[k].key)
    ensures i != j && j != k && i != k && 3 <= |es|
    ensures es[i].key != es[j].key && es[j].key != es[k].key && es[i].key != es[k].key
  {
    KeyLessOneWay(es[i].key, es[j].key);
    KeyLessOneWay(es[j].key, es[k].key);
  }

  /**
   Whatever order an object's entries come in they sort to one list, exactly when the
   comparison of keys is an order on them.
   */
  lemma OrderForgottenIffRanked(es: seq<Entry>)
    requires DistinctKeys(es)
    ensures OrderForgotten(es) <==> Ranks(Keys(es))
  {
    if Ranks(Keys(es)) {
      RankedIsForgotten(es);
    }
    if OrderForgotten(es) {
      ForgottenRanks(es);
    }
  }

  lemma WithKey(es: seq<Entry>, k: Key) returns (i: nat)
    requires k in Keys(es)
    ensures i < |es| && es[i].key == k
  {
    i :| 0 <= i < |es| && es[i].key == k;
  }

  lemma ForgottenRanks(es: seq<Entry>)
    requires DistinctKeys(es) && OrderForgotten(es)
    ensures Ranks(Keys(es))
  {
    var ks := Keys(es);
    forall a, b | a in ks && b in ks && a != b
      ensures KeyLess(a, b) || KeyLess(b, a)
    {
      var i := WithKey(es, a);
      var j := WithKey(es, b);
      EveryTwoDecided(es, i, j);
    }
    forall a, b, c | a in ks && b in ks && c in ks && KeyLess(a, b) && KeyLess(b, c)
      ensures KeyLess(a, c)
    {
      var i := WithKey(es, a);
      var j := WithKey(es, b);
      var k := WithKey(es, c);
      EveryThreeChain(es, i, j, k);
    }
  }

  // ------------------------------------------------------------------ the canonical form

  /** round(x, 6), half away from zero. */
  function Round6(x: real): real
  {
    if x >= 0.0 then (x * 1000000.0 + 0.5).Floor as real / 1000000.0
    else -((-x * 1000000.0 + 0.5).Floor as real / 1000000.0)
  }

  /** Rounding moves a figure by no more than half of its last place kept, onto a whole number of them. */
  lemma RoundedNear(x: real) returns (n: int)
    ensures -0.0000005 <= Round6(x) - x <= 0.0000005 && Round6(x) == n as real / 1000000.0
    ensures Round6(x) - x == 0.0000005 ==> 0.0 <= x
    ensures Round6(x) - x == -0.0000005 ==> x < 0.0
  {
    n := if x >= 0.0 then (x * 1000000.0 + 0.5).Floor else -((-x * 1000000.0 + 0.5).Floor);
    assert Round6(x) == n as real / 1000000.0;
  }

  /** The keys left out of the comparison: the idempotency key itself and the three that say for whom. */
  lemma FourKeysAreIgnored(k: Key)
    ensures Ignored(k)
      <==> k == StrKey("idempotency_key") || k == StrKey("cmp_id") || k == StrKey("fy_id") || k == StrKey("bo_id")
  {
  }

  function Normalize(v: Value): Value
    decreases v, if v.Arr? then |v.entries| + 1 else 0
  {
    match v
    case Float(x) => Float(Round6(x))
    case Arr(es) =>
      var out := NormalizeEntries(v, es);
      Arr(if IsList(es) then out else SortByKey(out))
    case _ => v
  }

  /** The kept entries of a prefix of v, each normalised. */
  function NormalizeEntries(v: Value, es: seq<Entry>): seq<Entry>
    requires v.Arr? && |es| <= |v.entries| && es == v.entries[..|es|]
    decreases v, |es|
  {
    if es == [] then []
    else
      var k := |es| - 1;
      assert es[k] == v.entries[k];
      NormalizeEntries(v, es[..k]) + if Ignored(es[k].key) then [] else [Entry(es[k].key, Normalize(es[k].val))]
  }

  method CanonicalForm(v: Value) returns (r: Value)
    ensures r == Normalize(v)
    decreases v
  {
    if v.Arr? {
      var es := v.entries;
      var out: seq<Entry> := [];
      for k := 0 to |es|
        invariant out == NormalizeEntries(v, es[..k])
      {
        assert es[..k + 1][..k] == es[..k];
        if !Ignored(es[k].key) {
          var item := CanonicalForm(es[k].val);
          out := out + [Entry(es[k].key, item)];
        }
      }
      assert es[..|es|] == es;
      if !IsList(es) {
        out := SortByKey(out);
      }
      return Arr(out);
    }
    if v.Float? {
      return Float(Round6(v.x));
    }
    return v;
  }

  // ------------------------------------------------------------------ what the canonical form identifies

  lemma KeyAt(es: seq<Entry>, k: Key) returns (i: nat)
    requires k in KeptKeys(es)
    ensures i < |es| && es[i].key == k && !Ignored(k)
  {
    i :| 0 <= i < |es| && es[i].key == k;
  }

  /** The same scalars up to rounding, and arrays with the same kept keys holding the same things, at every depth. */
  ghost predicate Same(v: Value, w: Value)
    decreases v
  {
    if v.Arr? && w.Arr? then
      && KeptKeys(v.entries) == KeptKeys(w.entries)
      && forall i :: 0 <= i < |v.entries| && !Ignored(v.entries[i].key) ==>
           exists j :: 0 <= j < |w.entries| && w.entries[j].key == v.entries[i].key
             && Same(v.entries[i].val, w.entries[j].val)
    else if v.Float? && w.Float? then Round6(v.x) == Round6(w.x)
    else v == w
  }

  /** The entry the loop writes for one it keeps. */
  function Kept(e: Entry): Entry { Entry(e.key, Normalize(e.val)) }

  ghost predicate IsKept(es: seq<Entry>, x: Entry)
  {
    exists i :: 0 <= i < |es| && !Ignored(es[i].key) && Kept(es[i]) == x
  }

  lemma IsKeptStep(es: seq<Entry>, k: nat, x: Entry)
    requires |es| == k + 1
    ensures IsKept(es, x)
      <==> IsKept(es[..k], x) || (!Ignored(es[k].key) && Kept(es[k]) == x)
  {
    var before := es[..k];
    assert forall i :: 0 <= i < k ==> before[i] == es[i];
    if IsKept(before, x) {
      var i :| 0 <= i < |before| && !Ignored(before[i].key) && Kept(before[i]) == x;
      assert es[i] == before[i];
    }
  }

  lemma {:induction false} NormalizedEntries(v: Value, es: seq<Entry>, x: Entry)
    requires v.Arr? && |es| <= |v.entries| && es == v.entries[..|es|]
    ensures x in NormalizeEntries(v, es) <==> IsKept(es, x)
    decreases |es|
  {
    if es != [] {
      NormalizedEntries(v, es[..|es| - 1], x);
      IsKeptStep(es, |es| - 1, x);
    }
  }

  lemma {:induction false} NormalizedKeys(v: Value, es: seq<Entry>)
    requires v.Arr? && |es| <= |v.entries| && es == v.entries[..|es|] && DistinctKeys(es)
    ensures DistinctKeys(NormalizeEntries(v, es))
    decreases |es|
  {
    if es != [] {
      var k := |es| - 1;
      NormalizedKeys(v, es[..k]);
      var before := NormalizeEntries(v, es[..k]);
      forall i | 0 <= i < |before|
        ensures before[i].key != es[k].key
      {
        NormalizedEntries(v, es[..k], before[i]);
      }
    }
  }

  lemma {:induction false} ListKeysStay(v: Value, es: seq<Entry>)
    requires v.Arr? && |es| <= |v.entries| && es == v.entries[..|es|] && IsList(es)
    ensures |NormalizeEntries(v, es)| == |es| && IsList(NormalizeEntries(v, es))
    decreases |es|
  {
    if es != [] {
      ListKeysStay(v, es[..|es| - 1]);
    }
  }

  /** The canonical array: sorted, and holding exactly the kept entries. */
  lemma CanonicalEntries(v: Value, x: Entry)
    requires v.Arr? && WellFormed(v)
    ensures Normalize(v).Arr? && Sorted(Normalize(v).entries)
    ensures x in Normalize(v).entries <==> IsKept(v.entries, x)
  {
    var es := v.entries;
    assert es[..|es|] == es;
    NormalizedEntries(v, es, x);
    if IsList(es) {
      ListKeysStay(v, es);
    } else {
      NormalizedKeys(v, es);
      var out := NormalizeEntries(v, es);
      forall e | e in out
        ensures e.key in KeptKeys(es)
      {
        NormalizedEntries(v, es, e);
      }
      SortSorts(out, KeptKeys(es));
      SortKeepsEntries(NormalizeEntries(v, es), x);
    }
  }

  lemma MatchOf(v: Value, w: Value, i: nat) returns (j: nat)
    requires v.Arr? && w.Arr? && Same(v, w) && i < |v.entries| && !Ignored(v.entries[i].key)
    ensures j < |w.entries| && w.entries[j].key == v.entries[i].key
      && Same(v.entries[i].val, w.entries[j].val)
  {
    j :| 0 <= j < |w.entries| && w.entries[j].key == v.entries[i].key && Same(v.entries[i].val, w.entries[j].val);
  }

  lemma KeyOf(v: Value, w: Value, j: nat) returns (i: nat)
    requires v.Arr? && w.Arr? && Same(v, w) && j < |w.entries| && !Ignored(w.entries[j].key)
    ensures i < |v.entries| && v.entries[i].key == w.entries[j].key
  {
    i := KeyAt(v.entries, w.entries[j].key);
  }

  lemma KeptFrom(v: Value, x: Entry) returns (i: nat)
    requires v.Arr? && WellFormed(v) && x in Normalize(v).entries
    ensures i < |v.entries| && !Ignored(v.entries[i].key) && Kept(v.entries[i]) == x
  {
    CanonicalEntries(v, x);
    i :| 0 <= i < |v.entries| && !Ignored(v.entries[i].key) && Kept(v.entries[i]) == x;
  }

  lemma KeptIn(v: Value, i: nat)
    requires v.Arr? && WellFormed(v) && i < |v.entries| && !Ignored(v.entries[i].key)
    ensures Kept(v.entries[i]) in Normalize(v).entries
  {
    CanonicalEntries(v, Kept(v.entries[i]));
  }

  /** Same bodies have the same canonical form. */
  lemma {:induction false} SameIsCanonical(v: Value, w: Value)
    requires WellFormed(v) && WellFormed(w) && Same(v, w)
    ensures Normalize(v) == Normalize(w)
    decreases v, 2
  {
    if v.Arr? {
      CanonicalEntries(v, Entry(IntKey(0), Null));
      CanonicalEntries(w, Entry(IntKey(0), Null));
      forall x
        ensures x in Normalize(v).entries <==> x in Normalize(w).entries
      {
        if x in Normalize(v).entries {
          SameForward(v, w, x);
        }
        if x in Normalize(w).entries {
          SameBackward(v, w, x);
        }
      }
      SortedIsUnique(Normalize(v).entries, Normalize(w).entries);
    }
  }

  lemma {:induction false} SameForward(v: Value, w: Value, x: Entry)
    requires v.Arr? && w.Arr? && WellFormed(v) && WellFormed(w) && Same(v, w) && x in Normalize(v).entries
    ensures x in Normalize(w).entries
    decreases v, 1
  {
    var i := KeptFrom(v, x);
    var j := SameAt(v, w, i);
    KeptIn(w, j);
  }

  lemma {:induction false} SameBackward(v: Value, w: Value, x: Entry)
    requires v.Arr? && w.Arr? && WellFormed(v) && WellFormed(w) && Same(v, w) && x in Normalize(w).entries
    ensures x in Normalize(v).entries
    decreases v, 1
  {
    var j := KeptFrom(w, x);
    var i := KeyOf(v, w, j);
    var j' := SameAt(v, w, i);
    assert j' == j;
    KeptIn(v, i);
  }

  lemma {:induction false} SameAt(v: Value, w: Value, i: nat) returns (j: nat)
    requires v.Arr? && w.Arr? && WellFormed(v) && WellFormed(w) && Same(v, w)
    requires i < |v.entries| && !Ignored(v.entries[i].key)
    ensures j < |w.entries| && w.entries[j].key == v.entries[i].key
      && Kept(w.entries[j]) == Kept(v.entries[i])
    decreases v, 0
  {
    j := MatchOf(v, w, i);
    SameIsCanonical(v.entries[i].val, w.entries[j].val);
  }

  /** Bodies with one canonical form are the same: nothing but order, ignored keys and rounding is forgotten. */
  lemma {:induction false} CanonicalIsSame(v: Value, w: Value)
    requires WellFormed(v) && WellFormed(w) && Normalize(v) == Normalize(w)
    ensures Same(v, w)
    decreases v
  {
    if v.Arr? {
      forall i | 0 <= i < |v.entries| && !Ignored(v.entries[i].key)
        ensures exists j ::
          0 <= j < |w.entries| && w.entries[j].key == v.entries[i].key && Same(v.entries[i].val, w.entries[j].val)
      {
        var j := CounterpartOf(v, w, i);
        CanonicalIsSame(v.entries[i].val, w.entries[j].val);
      }
      CanonicalKeys(v, w);
      CanonicalKeys(w, v);
    }
  }

  lemma CanonicalKeys(v: Value, w: Value)
    requires v.Arr? && w.Arr? && WellFormed(v) && WellFormed(w) && Normalize(v) == Normalize(w)
    ensures KeptKeys(v.entries) <= KeptKeys(w.entries)
  {
    forall k | k in KeptKeys(v.entries)
      ensures k in KeptKeys(w.entries)
    {
      var i := KeyAt(v.entries, k);
      var j := CounterpartOf(v, w, i);
    }
  }

  lemma CounterpartOf(v: Value, w: Value, i: nat) returns (j: nat)
    requires v.Arr? && w.Arr? && WellFormed(v) && WellFormed(w) && Normalize(v) == Normalize(w)
    requires i < |v.entries| && !Ignored(v.entries[i].key)
    ensures j < |w.entries| && w.entries[j].key == v.entries[i].key
      && Normalize(w.entries[j].val) == Normalize(v.entries[i].val)
  {
    var x := Kept(v.entries[i]);
    CanonicalEntries(v, x);
    CanonicalEntries(w, x);
    j :| 0 <= j < |w.entries| && !Ignored(w.entries[j].key) && Kept(w.entries[j]) == x;
  }

  // ------------------------------------------------------------------ idempotence

  lemma RoundedStays(x: real)
    ensures Round6(Round6(x)) == Round6(x)
  {
    var n := if x >= 0.0 then (x * 1000000.0 + 0.5).Floor else -((-x * 1000000.0 + 0.5).Floor);
    var r := n as real / 1000000.0;
    assert Round6(x) == r;
    assert r * 1000000.0 == n as real;
    if r >= 0.0 {
      assert (r * 1000000.0 + 0.5).Floor == n;
    } else {
      assert (-r * 1000000.0 + 0.5).Floor == -n;
    }
  }

  lemma {:induction false} CanonicalIsWellFormed(v: Value)
    requires WellFormed(v)
    ensures WellFormed(Normalize(v))
    decreases v
  {
    if v.Arr? {
      CanonicalEntries(v, Entry(IntKey(0), Null));
      var out := Normalize(v).entries;
      SortedIsDistinct(out);
      KeysStay(v);
      if IsList(v.entries) {
        assert v.entries[..|v.entries|] == v.entries;
        ListKeysStay(v, v.entries);
      }
      forall k | 0 <= k < |out|
        ensures WellFormed(out[k].val)
      {
        CanonicalEntries(v, out[k]);
        var i :| 0 <= i < |v.entries| && !Ignored(v.entries[i].key) && Kept(v.entries[i]) == out[k];
        CanonicalIsWellFormed(v.entries[i].val);
      }
    }
  }

  lemma SortedIsDistinct(es: seq<Entry>)
    requires Sorted(es)
    ensures DistinctKeys(es)
  {
    forall i, j | 0 <= i < j < |es|
      ensures es[i].key != es[j].key
    {
      KeyLessOneWay(es[i].key, es[j].key);
    }
  }

  lemma MatchIn(v: Value, i: nat) returns (j: nat)
    requires v.Arr? && WellFormed(v) && i < |v.entries| && !Ignored(v.entries[i].key)
    ensures Normalize(v).Arr? && j < |Normalize(v).entries|
      && Normalize(v).entries[j] == Kept(v.entries[i])
  {
    KeptIn(v, i);
    j :| 0 <= j < |Normalize(v).entries| && Normalize(v).entries[j] == Kept(v.entries[i]);
  }

  lemma KeysStay(v: Value)
    requires v.Arr? && WellFormed(v)
    ensures Normalize(v).Arr? && KeptKeys(v.entries) == KeptKeys(Normalize(v).entries)
  {
    CanonicalEntries(v, Entry(IntKey(0), Null));
    var out := Normalize(v).entries;
    forall k
      ensures k in KeptKeys(v.entries) <==> k in KeptKeys(out)
    {
      if k in KeptKeys(v.entries) {
        var i := KeyAt(v.entries, k);
        var j := MatchIn(v, i);
      }
      if k in KeptKeys(out) {
        var j := KeyAt(out, k);
        var i := KeptFrom(v, out[j]);
      }
    }
  }

  lemma {:induction false} SameAsCanonical(v: Value)
    requires WellFormed(v)
    ensures Same(v, Normalize(v))
    decreases v
  {
    if v.Arr? {
      KeysStay(v);
      var es, out := v.entries, Normalize(v).entries;
      forall i | 0 <= i < |es| && !Ignored(es[i].key)
        ensures exists j ::
          0 <= j < |out| && out[j].key == es[i].key && Same(es[i].val, out[j].val)
      {
        var j := MatchIn(v, i);
        SameAsCanonical(es[i].val);
      }
    } else if v.Float? {
      RoundedStays(v.x);
    }
  }

  /** Normalising twice is normalising once. */
  lemma NormalizeIsIdempotent(v: Value)
    requires WellFormed(v)
    ensures Normalize(Normalize(v)) == Normalize(v)
  {
    CanonicalIsWellFormed(v);
    SameAsCanonical(v);
    SameIsCanonical(v, Normalize(v));
  }

  /** The form decides sameness, in both directions. */
  lemma CanonicalForms(v: Value, w: Value)
    requires WellFormed(v) && WellFormed(w)
    ensures Normalize(v) == Normalize(w) <==> Same(v, w)
  {
    if Same(v, w) {
      SameIsCanonical(v, w);
    } else if Normalize(v) == Normalize(w) {
      CanonicalIsSame(v, w);
    }
  }

  /** An object reordered, with context keys put in or taken out anywhere among its entries, is the same body. */
  lemma ReorderedIsSame(v: Value, w: Value)
    requires v.Arr? && w.Arr? && WellFormed(v) && WellFormed(w)
    requires forall x: Entry :: !Ignored(x.key) ==> (x in v.entries <==> x in w.entries)
    ensures Normalize(v) == Normalize(w)
  {
    forall i | 0 <= i < |v.entries| && !Ignored(v.entries[i].key)
      ensures exists j ::
        0 <= j < |w.entries| && w.entries[j].key == v.entries[i].key && Same(v.entries[i].val, w.entries[j].val)
    {
      assert v.entries[i] in w.entries;
      SameAsItself(v.entries[i].val);
      var j := PositionOf(w.entries, v.entries[i]);
    }
    assert KeptKeys(v.entries) == KeptKeys(w.entries);
    SameIsCanonical(v, w);
  }

  lemma {:induction false} SameAsItself(v: Value)
    ensures Same(v, v)
    decreases v
  {
    if v.Arr? {
      forall i | 0 <= i < |v.entries| && !Ignored(v.entries[i].key)
        ensures exists j ::
          0 <= j < |v.entries| && v.entries[j].key == v.entries[i].key && Same(v.entries[i].val, v.entries[j].val)
      {
        SameAsItself(v.entries[i].val);
      }
    }
  }

  /** Integer names filed out of order become the list they number. */
  lemma NumberedObjectIsAList(a: Value, b: Value)
    requires WellFormed(a) && WellFormed(b)
    ensures Normalize(Arr([Entry(IntKey(1), b), Entry(IntKey(0), a)]))
      == Normalize(Arr([Entry(IntKey(0), a), Entry(IntKey(1), b)]))
  {
    var v, w := Arr([Entry(IntKey(1), b), Entry(IntKey(0), a)]), Arr([Entry(IntKey(0), a), Entry(IntKey(1), b)]);
    OrdinaryKeysRank(KeptKeys(v.entries));
    assert IsList(w.entries);
    ReorderedIsSame(v, w);
  }

  /** One collision the form has: an object left empty by the ignored keys is the empty list. */
  lemma EmptyObjectIsTheEmptyList(n: int)
    ensures Normalize(Arr([Entry(StrKey("cmp_id"), Int(n))])) == Normalize(Arr([])) == Arr([])
  {
    var e := Entry(StrKey("cmp_id"), Int(n));
    var v := Arr([e]);
    assert v.entries[..1] == v.entries;
    assert Ignored(e.key);
    assert NormalizeEntries(v, v.entries) == NormalizeEntries(v, v.entries[..0]) + [];
  }

  lemma {:induction false} FieldsWithoutValuesStay(v: Value, es: seq<Entry>)
    requires v.Arr? && |es| <= |v.entries| && es == v.entries[..|es|]
    requires forall i :: 0 <= i < |es| ==> es[i].val == Null && !Ignored(es[i].key)
    ensures NormalizeEntries(v, es) == es
    decreases |es|
  {
    if es != [] {
      FieldsWithoutValuesStay(v, es[..|es| - 1]);
    }
  }

  /** An object in order already, with nothing to normalise in it, is its own form. */
  lemma OwnForm(es: seq<Entry>)
    requires forall i :: 0 <= i < |es| ==> es[i].val == Null && !Ignored(es[i].key)
    requires forall i :: 0 < i < |es| ==> !KeyLess(es[i].key, es[i - 1].key)
    ensures Normalize(Arr(es)) == Arr(es)
  {
    assert es[..|es|] == es;
    FieldsWithoutValuesStay(Arr(es), es);
    NeighboursInOrderStay(es);
  }

  lemma FiveXIsText()
    ensures !IsNumeric("5x")
  {
    var s := "5x";
    assert s[1..] == "x" && SkipDigits("x") == "x" && SkipDigits(s) == "x";
  }

  lemma NineAndTen()
    ensures Decimal(9) == "9" && Decimal(10) == "10"
  {
    assert Decimal(1) == "1";
  }

  /** 9 is less than 10 as numbers, 10 less than 5x as texts, 5x less than 9 as texts. */
  lemma KeysInACircle()
    ensures KeyLess(IntKey(9), IntKey(10)) && KeyLess(IntKey(10), StrKey("5x")) && KeyLess(StrKey("5x"), IntKey(9))
  {
    FiveXIsText();
    NineAndTen();
  }

  /** One object written in two orders, and two canonical forms. */
  lemma CircleIsNotRecognised()
    ensures var a, b, c := Entry(IntKey(9), Null), Entry(IntKey(10), Null), Entry(StrKey("5x"), Null);
      Reorders([c, a, b], [a, b, c]) && Normalize(Arr([a, b, c])) != Normalize(Arr([c, a, b]))
  {
    KeysInACircle();
    CircleHasTwoForms(Entry(IntKey(9), Null), Entry(IntKey(10), Null), Entry(StrKey("5x"), Null));
  }

  lemma CircleHasTwoForms(a: Entry, b: Entry, c: Entry)
    requires KeyLess(a.key, b.key) && KeyLess(b.key, c.key) && KeyLess(c.key, a.key)
    requires a.val == b.val == c.val == Null && !Ignored(a.key) && !Ignored(b.key) && !Ignored(c.key)
    ensures Reorders([c, a, b], [a, b, c]) && Normalize(Arr([a, b, c])) != Normalize(Arr([c, a, b]))
  {
    KeyLessOneWay(a.key, b.key);
    KeyLessOneWay(b.key, c.key);
    KeyLessOneWay(c.key, a.key);
    ThreeReorder([a, b, c], c, a, b);
    OwnFormOfThree(a, b, c);
    OwnFormOfThree(c, a, b);
    assert [a, b, c][0] != [c, a, b][0];
  }

  lemma OwnFormOfThree(a: Entry, b: Entry, c: Entry)
    requires KeyLess(a.key, b.key) && KeyLess(b.key, c.key)
    requires a.val == b.val == c.val == Null && !Ignored(a.key) && !Ignored(b.key) && !Ignored(c.key)
    ensures Normalize(Arr([a, b, c])) == Arr([a, b, c])
  {
    KeyLessOneWay(a.key, b.key);
    KeyLessOneWay(b.key, c.key);
    OwnForm([a, b, c]);
  }
}
