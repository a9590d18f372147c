/**
 Clearing tables in passes without knowing what depends on what: try each table that is
 left, keep the ones that fail for the next pass, stop when a whole pass fails.
 */
module TablePasses {
  import opened Sequences

  const MAX_PASSES := 12

  /** (t, u) in needs: t cannot go while u is left. A table in never cannot go at all. */
  datatype Graph = Graph(never: set<nat>, needs: set<(nat, nat)>)

  predicate Goes(g: Graph, t: nat, left: set<nat>)
  {
    t !in g.never && forall u :: u in left && u != t ==> (t, u) !in g.needs
  }

  function Ids(s: seq<nat>): set<nat> { set t | t in s }

  predicate NoRepeats(s: seq<nat>) { forall i, j :: 0 <= i < j < |s| ==> s[i] != s[j] }

  /** The rest of a pass: what is stuck once the tables in rest have been tried in turn. */
  function Stuck(g: Graph, rest: seq<nat>, stuck: seq<nat>): seq<nat>
    decreases |rest|
  {
    if rest == [] then stuck
    else if Goes(g, rest[0], Ids(stuck) + Ids(rest)) then Stuck(g, rest[1..], stuck)
    else Stuck(g, rest[1..], stuck + [rest[0]])
  }

  function Pass(g: Graph, todo: seq<nat>): seq<nat> { Stuck(g, todo, []) }

  /** What is left after n passes. */
  function Left(g: Graph, todo: seq<nat>, n: nat): seq<nat>
  {
    if n == 0 then todo else Pass(g, Left(g, todo, n - 1))
  }

  // ------------------------------------------------------------------ a pass shrinks or stands still

  lemma {:induction false} StuckShrinks(g: Graph, rest: seq<nat>, stuck: seq<nat>)
    ensures |Stuck(g, rest, stuck)| <= |stuck| + |rest|
    ensures |Stuck(g, rest, stuck)| == |stuck| + |rest| ==>
      Stuck(g, rest, stuck) == stuck + rest
    decreases |rest|
  {
    if rest != [] {
      StuckShrinks(g, rest[1..], stuck);
      StuckShrinks(g, rest[1..], stuck + [rest[0]]);
      assert stuck + rest == stuck + [rest[0]] + rest[1..];
    } else {
      assert stuck + rest == stuck;
    }
  }

  lemma {:induction false} StuckAreSome(g: Graph, rest: seq<nat>, stuck: seq<nat>, t: nat)
    requires t in Stuck(g, rest, stuck)
    ensures t in stuck || t in rest
    decreases |rest|
  {
    if rest != [] {
      if Goes(g, rest[0], Ids(stuck) + Ids(rest)) {
        StuckAreSome(g, rest[1..], stuck, t);
      } else {
        StuckAreSome(g, rest[1..], stuck + [rest[0]], t);
      }
    }
  }

  lemma {:induction false} StuckKeeps(g: Graph, rest: seq<nat>, stuck: seq<nat>)
    requires NoRepeats(stuck + rest)
    ensures NoRepeats(Stuck(g, rest, stuck))
    decreases |rest|
  {
    if rest == [] {
      assert stuck + rest == stuck;
    } else if Goes(g, rest[0], Ids(stuck) + Ids(rest)) {
      var all := stuck + rest;
      assert forall i ::
        0 <= i < |stuck + rest[1..]| ==> (stuck + rest[1..])[i] == all[if i < |stuck| then i else i + 1];
      StuckKeeps(g, rest[1..], stuck);
    } else {
      assert stuck + [rest[0]] + rest[1..] == stuck + rest;
      StuckKeeps(g, rest[1..], stuck + [rest[0]]);
    }
  }

  /** A table is stuck only while something it needs is left. */
  lemma {:induction false} StuckIsBlocked(g: Graph, rest: seq<nat>, stuck: seq<nat>, t: nat) returns (u: nat)
    requires t in Stuck(g, rest, stuck) && t !in stuck && t !in g.never
    ensures u != t && (t, u) in g.needs && (u in stuck || u in rest)
    decreases |rest|
  {
    var left := Ids(stuck) + Ids(rest);
    if Goes(g, rest[0], left) {
      u := StuckIsBlocked(g, rest[1..], stuck, t);
    } else if rest[0] == t {
      u :| u in left && u != t && (t, u) in g.needs;
    } else {
      u := StuckIsBlocked(g, rest[1..], stuck + [rest[0]], t);
    }
  }

  /** A pass that clears nothing has tried every table against everything that is left. */
  lemma {:induction false} AllStuck(g: Graph, rest: seq<nat>, stuck: seq<nat>, t: nat)
    requires |Stuck(g, rest, stuck)| == |stuck| + |rest| && t in rest
    ensures !Goes(g, t, Ids(stuck) + Ids(rest))
    decreases |rest|
  {
    StuckShrinks(g, rest[1..], stuck);
    if t != rest[0] {
      assert Ids(stuck + [rest[0]]) + Ids(rest[1..]) == Ids(stuck) + Ids(rest);
      AllStuck(g, rest[1..], stuck + [rest[0]], t);
    }
  }

  /** No progress means no ordering of what is left can even start. */
  lemma NoProgressNoOrder(g: Graph, todo: seq<nat>)
    requires |Pass(g, todo)| == |todo|
    ensures Pass(g, todo) == todo
    ensures forall t :: t in todo ==> !Goes(g, t, Ids(todo))
  {
    StuckShrinks(g, todo, []);
    assert [] + todo == todo;
    forall t | t in todo
      ensures !Goes(g, t, Ids(todo))
    {
      AllStuck(g, todo, [], t);
      assert Ids([]) + Ids(todo) == Ids(todo);
    }
  }

  lemma {:induction false} LeftShrinks(g: Graph, todo: seq<nat>, n: nat, t: nat)
    requires t in Left(g, todo, n)
    ensures t in todo
  {
    if n > 0 {
      StuckAreSome(g, Left(g, todo, n - 1), [], t);
      LeftShrinks(g, todo, n - 1, t);
    }
  }

  lemma {:induction false} LeftKeeps(g: Graph, todo: seq<nat>, n: nat)
    requires NoRepeats(todo)
    ensures NoRepeats(Left(g, todo, n))
  {
    if n > 0 {
      LeftKeeps(g, todo, n - 1);
      assert [] + Left(g, todo, n - 1) == Left(g, todo, n - 1);
      StuckKeeps(g, Left(g, todo, n - 1), []);
    }
  }

  /** Once a pass stands still, every later one does. */
  lemma {:induction false} StandsStill(g: Graph, todo: seq<nat>, n: nat, m: nat)
    requires n <= m && |Left(g, todo, n + 1)| == |Left(g, todo, n)|
    ensures Left(g, todo, m) == Left(g, todo, n)
  {
    if n < m {
      StandsStill(g, todo, n, m - 1);
      NoProgressNoOrder(g, Left(g, todo, n));
    }
  }

  lemma {:induction false} StaysEmpty(g: Graph, todo: seq<nat>, n: nat, m: nat)
    requires n <= m && Left(g, todo, n) == []
    ensures Left(g, todo, m) == []
  {
    if n < m {
      StaysEmpty(g, todo, n, m - 1);
    }
  }

  // ------------------------------------------------------------------ chains bound the passes

  /** Each table of the path needs the next one gone first. */
  predicate Chain(g: Graph, todo: seq<nat>, path: seq<nat>)
  {
    && (forall i :: 0 <= i < |path| ==> path[i] in todo)
    && (forall i :: 0 <= i < |path| - 1 ==> Linked(g, path[i], path[i + 1]))
  }

  predicate Linked(g: Graph, t: nat, u: nat) { t != u && (t, u) in g.needs }

  predicate FreeToGo(g: Graph, todo: seq<nat>) { forall t :: t in todo ==> t !in g.never }

  ghost predicate ChainsWithin(g: Graph, todo: seq<nat>, n: nat)
  {
    forall path :: Chain(g, todo, path) ==> |path| <= n
  }

  /** A table left after n passes heads a chain of n + 1. */
  lemma {:induction false} LeftHeadsAChain(g: Graph, todo: seq<nat>, n: nat, t: nat) returns (path: seq<nat>)
    requires FreeToGo(g, todo) && t in Left(g, todo, n)
    ensures Chain(g, todo, path) && |path| == n + 1 && path[0] == t
  {
    LeftShrinks(g, todo, n, t);
    if n == 0 {
      path := [t];
    } else {
      var u := StuckIsBlocked(g, Left(g, todo, n - 1), [], t);
      var rest := LeftHeadsAChain(g, todo, n - 1, u);
      path := [t] + rest;
    }
  }

  /** As many passes as the longest chain has tables clear everything. */
  lemma ChainsBoundThePasses(g: Graph, todo: seq<nat>, n: nat)
    requires FreeToGo(g, todo) && ChainsWithin(g, todo, n)
    ensures Left(g, todo, n) == []
  {
    if Left(g, todo, n) != [] {
      var path := LeftHeadsAChain(g, todo, n, Left(g, todo, n)[0]);
    }
  }

  // ------------------------------------------------------------------ orderings

  /** Every table in its turn can go while the ones after it are left. */
  predicate InOrder(g: Graph, order: seq<nat>) { forall i :: 0 <= i < |order| ==> Goes(g, order[i], Ids(order[i..])) }

  predicate OrderOf(g: Graph, todo: seq<nat>, order: seq<nat>)
  {
    Ids(order) == Ids(todo) && |order| == |todo| && InOrder(g, order)
  }

  ghost predicate Orderable(g: Graph, todo: seq<nat>) { exists order :: OrderOf(g, todo, order) }

  /** The tables a pass clears, as it clears them. */
  function Gone(g: Graph, rest: seq<nat>, stuck: seq<nat>): seq<nat>
    decreases |rest|
  {
    if rest == [] then []
    else if Goes(g, rest[0], Ids(stuck) + Ids(rest)) then [rest[0]] + Gone(g, rest[1..], stuck)
    else Gone(g, rest[1..], stuck + [rest[0]])
  }

  lemma IdsConcat(a: seq<nat>, b: seq<nat>)
    ensures Ids(a + b) == Ids(a) + Ids(b)
  {
  }

  lemma {:induction false} GoneAndStuck(g: Graph, rest: seq<nat>, stuck: seq<nat>)
    ensures Ids(Gone(g, rest, stuck)) + Ids(Stuck(g, rest, stuck)) == Ids(stuck) + Ids(rest)
    ensures |Gone(g, rest, stuck)| + |Stuck(g, rest, stuck)| == |stuck| + |rest|
    decreases |rest|
  {
    if rest != [] {
      assert rest == [rest[0]] + rest[1..];
      IdsConcat([rest[0]], rest[1..]);
      if Goes(g, rest[0], Ids(stuck) + Ids(rest)) {
        GoneAndStuck(g, rest[1..], stuck);
        IdsConcat([rest[0]], Gone(g, rest[1..], stuck));
      } else {
        GoneAndStuck(g, rest[1..], stuck + [rest[0]]);
        IdsConcat(stuck, [rest[0]]);
      }
    }
  }

  lemma {:induction false} GoneInOrder(g: Graph, rest: seq<nat>, stuck: seq<nat>, order: seq<nat>)
    requires InOrder(g, order) && Ids(order) == Ids(Stuck(g, rest, stuck))
    ensures InOrder(g, Gone(g, rest, stuck) + order)
    decreases |rest|
  {
    if rest == [] {
      assert Gone(g, rest, stuck) + order == order;
    } else if Goes(g, rest[0], Ids(stuck) + Ids(rest)) {
      var tail := Gone(g, rest[1..], stuck) + order;
      GoneInOrder(g, rest[1..], stuck, order);
      GoneAndStuck(g, rest[1..], stuck);
      IdsConcat(Gone(g, rest[1..], stuck), order);
      IdsConcat([rest[0]], tail);
      assert Gone(g, rest, stuck) + order == [rest[0]] + tail;
    } else {
      GoneInOrder(g, rest[1..], stuck + [rest[0]], order);
    }
  }

  lemma PassExtendsOrder(g: Graph, todo: seq<nat>, order: seq<nat>)
    requires OrderOf(g, Pass(g, todo), order)
    ensures OrderOf(g, todo, Gone(g, todo, []) + order)
  {
    GoneInOrder(g, todo, [], order);
    GoneAndStuck(g, todo, []);
    var all := Gone(g, todo, []) + order;
    assert Ids(all) == Ids(Gone(g, todo, [])) + Ids(order);
  }

  /** Passes that clear everything have found an order. */
  lemma {:induction false} ClearedIsOrderable(g: Graph, todo: seq<nat>, n: nat, order: seq<nat>)
    returns (whole: seq<nat>)
    requires OrderOf(g, Left(g, todo, n), order)
    ensures OrderOf(g, todo, whole)
  {
    if n == 0 {
      whole := order;
    } else {
      PassExtendsOrder(g, Left(g, todo, n - 1), order);
      whole := ClearedIsOrderable(g, todo, n - 1, Gone(g, Left(g, todo, n - 1), []) + order);
    }
  }

  lemma FirstThatIsLeft(order: seq<nat>, left: seq<nat>) returns (i: nat)
    requires left != [] && forall t :: t in left ==> t in order
    ensures i < |order| && order[i] in left && Ids(left) <= Ids(order[i..])
  {
    i := 0;
    assert left[0] in left && left[0] in order && order[0..] == order;
    while order[i] !in left
      invariant i < |order| && forall t :: t in left ==> t in order[i..]
      decreases |order| - i
    {
      assert order[i..] == [order[i]] + order[i + 1..];
      forall t | t in left
        ensures t in order[i + 1..]
      {
      }
      assert left[0] in left && left[0] in order[i + 1..];
      i := i + 1;
    }
  }

  lemma OneMoves(g: Graph, left: seq<nat>, t: nat)
    requires t in left && Goes(g, t, Ids(left))
    ensures |Pass(g, left)| < |left|
  {
    StuckShrinks(g, left, []);
    if |Pass(g, left)| == |left| {
      NoProgressNoOrder(g, left);
    }
  }

  /** The first of an order among the tables left can go now. */
  lemma OrderMovesOn(g: Graph, order: seq<nat>, left: seq<nat>)
    requires InOrder(g, order) && left != [] && forall t :: t in left ==> t in order
    ensures |Pass(g, left)| < |left|
  {
    var i := FirstThatIsLeft(order, left);
    assert Goes(g, order[i], Ids(order[i..]));
    OneMoves(g, left, order[i]);
  }

  /** Where an order exists, every pass clears something. */
  lemma {:induction false} OrderMakesProgress(g: Graph, todo: seq<nat>, order: seq<nat>, n: nat)
    requires OrderOf(g, todo, order)
    ensures |Left(g, todo, n)| <= if n <= |todo| then |todo| - n else 0
  {
    if n > 0 {
      OrderMakesProgress(g, todo, order, n - 1);
      var left := Left(g, todo, n - 1);
      if left != [] {
        forall t | t in left
          ensures t in order
        {
          LeftShrinks(g, todo, n - 1, t);
          assert t in Ids(todo);
        }
        OrderMovesOn(g, order, left);
      }
    }
  }

  /** With as many passes as tables, the passes clear everything exactly when some order exists. */
  lemma PassesFindAnOrder(g: Graph, todo: seq<nat>)
    ensures Left(g, todo, |todo|) == [] <==> Orderable(g, todo)
  {
    if Left(g, todo, |todo|) == [] {
      var whole := ClearedIsOrderable(g, todo, |todo|, []);
    }
    if Orderable(g, todo) {
      var order: seq<nat> :| OrderOf(g, todo, order);
      OrderMakesProgress(g, todo, order, |todo|);
    }
  }

  /** However many passes there are, a cleared list had an order. */
  lemma ClearedHadAnOrder(g: Graph, todo: seq<nat>, n: nat)
    requires Left(g, todo, n) == []
    ensures Orderable(g, todo)
  {
    var whole := ClearedIsOrderable(g, todo, n, []);
  }

  /** Along a chain the places in an order go strictly down. */
  lemma {:induction false} ChainGoesDown(g: Graph, todo: seq<nat>, order: seq<nat>, path: seq<nat>, i: nat)
    requires OrderOf(g, todo, order) && Chain(g, todo, path) && path != [] && i < |order| && order[i] == path[0]
    ensures |path| <= i + 1
    decreases |path|
  {
    if |path| > 1 {
      assert Linked(g, path[0], path[1]);
      assert path[1] in Ids(todo);
      var j := PositionOf(order, path[1]);
      assert Goes(g, order[i], Ids(order[i..]));
      assert path[1] !in Ids(order[i..]);
      assert forall k :: i <= k < |order| ==> order[k] == order[i..][k - i];
      ChainGoesDown(g, todo, order, path[1..], j);
    }
  }

  /**
   An order exists exactly when nothing is blocked for good and no chain is longer than the
   list, that is when the references among the tables are acyclic.
   */
  lemma OrderableIffAcyclic(g: Graph, todo: seq<nat>)
    ensures Orderable(g, todo) <==> FreeToGo(g, todo) && ChainsWithin(g, todo, |todo|)
  {
    if Orderable(g, todo) {
      var order: seq<nat> :| OrderOf(g, todo, order);
      forall t | t in todo
        ensures t !in g.never
      {
        assert t in Ids(order);
        var i := PositionOf(order, t);
        assert Goes(g, order[i], Ids(order[i..]));
      }
      forall path | Chain(g, todo, path)
        ensures |path| <= |todo|
      {
        if path != [] {
          assert path[0] in Ids(todo);
          var i := PositionOf(order, path[0]);
          ChainGoesDown(g, todo, order, path, i);
        }
      }
    }
    if FreeToGo(g, todo) && ChainsWithin(g, todo, |todo|) {
      ChainsBoundThePasses(g, todo, |todo|);
      ClearedHadAnOrder(g, todo, |todo|);
    }
  }
}
