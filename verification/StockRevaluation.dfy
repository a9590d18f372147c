/**
 Re-pricing stock: layers still holding stock take the new cost, a weighted average is
 replaced, and the change in value is published. Products are in units of 0.00000001.
 */
module StockRevaluation {
  import opened Outcomes
  import opened FixedPoint

  datatype CostLayer = CostLayer(item: nat, scope: nat, remaining: int, cost: int)

  /** A weighted-average row; there is one for each item and scope. */
  datatype WacRow = WacRow(item: nat, scope: nat, onHand: int, average: int)

  datatype Line = Line(item: nat, scope: nat, newCost: int)

  datatype Refusal = CostMissing

  predicate Covers(l: Line, item: nat, scope: nat) { l.item == item && l.scope == scope }

  // ------------------------------------------------------------------ value of the tables

  function LayerValue(c: CostLayer): int { Max(0, c.remaining) * c.cost }

  function LayersValue(cs: seq<CostLayer>): int
  {
    if cs == [] then 0 else LayerValue(cs[0]) + LayersValue(cs[1..])
  }

  function AveragesValue(ws: seq<WacRow>): int
  {
    if ws == [] then 0 else ws[0].onHand * ws[0].average + AveragesValue(ws[1..])
  }

  /** Positive layers plus weighted-average rows. */
  function StoredValue(cs: seq<CostLayer>, ws: seq<WacRow>): int { LayersValue(cs) + AveragesValue(ws) }

  // ------------------------------------------------------------------ one line, on values

  function Reprice(c: CostLayer, l: Line): CostLayer
  {
    if Covers(l, c.item, c.scope) && 0 < c.remaining then c.(cost := l.newCost) else c
  }

  function RepriceLayers(cs: seq<CostLayer>, l: Line): (r: seq<CostLayer>)
    ensures |r| == |cs|
  {
    seq(|cs|, i requires 0 <= i < |cs| => Reprice(cs[i], l))
  }

  function ReplaceAverage(w: WacRow, l: Line): WacRow
  {
    if Covers(l, w.item, w.scope) then w.(average := l.newCost) else w
  }

  function ReplaceAverages(ws: seq<WacRow>, l: Line): (r: seq<WacRow>)
    ensures |r| == |ws|
  {
    seq(|ws|, i requires 0 <= i < |ws| => ReplaceAverage(ws[i], l))
  }

  /** The tables after the lines in order, so a repeated item is re-priced from its own new cost. */
  function LayersAfter(cs: seq<CostLayer>, lines: seq<Line>): seq<CostLayer>
  {
    if lines == [] then cs else RepriceLayers(LayersAfter(cs, lines[..|lines| - 1]), lines[|lines| - 1])
  }

  function AveragesAfter(ws: seq<WacRow>, lines: seq<Line>): seq<WacRow>
  {
    if lines == [] then ws else ReplaceAverages(AveragesAfter(ws, lines[..|lines| - 1]), lines[|lines| - 1])
  }

  /** How much line i changed the stored value. */
  function Change(cs: seq<CostLayer>, ws: seq<WacRow>, lines: seq<Line>, i: nat): int
    requires i < |lines|
  {
    StoredValue(LayersAfter(cs, lines[..i + 1]), AveragesAfter(ws, lines[..i + 1]))
    - StoredValue(LayersAfter(cs, lines[..i]), AveragesAfter(ws, lines[..i]))
  }

  ghost predicate DistinctRows(ws: seq<WacRow>)
  {
    forall i, j :: 0 <= i < j < |ws| ==> (ws[i].item, ws[i].scope) != (ws[j].item, ws[j].scope)
  }

  // ------------------------------------------------------------------ the tables as posting updates them

  lemma LayersValueConcat(a: seq<CostLayer>, b: seq<CostLayer>)
    ensures LayersValue(a + b) == LayersValue(a) + LayersValue(b)
  {
    if a == [] {
      assert a + b == b;
    } else {
      assert (a + b)[1..] == a[1..] + b;
      LayersValueConcat(a[1..], b);
    }
  }

  lemma AveragesValueConcat(a: seq<WacRow>, b: seq<WacRow>)
    ensures AveragesValue(a + b) == AveragesValue(a) + AveragesValue(b)
  {
    if a == [] {
      assert a + b == b;
    } else {
      assert (a + b)[1..] == a[1..] + b;
      AveragesValueConcat(a[1..], b);
    }
  }

  lemma AveragesValueUpdate(ws: seq<WacRow>, i: nat, w: WacRow)
    requires i < |ws|
    ensures AveragesValue(ws[i := w]) == AveragesValue(ws) - ws[i].onHand * ws[i].average + w.onHand * w.average
  {
    var tail := ws[i + 1..];
    assert ws == ws[..i] + ([ws[i]] + tail);
    assert ws[i := w] == ws[..i] + ([w] + tail);
    AveragesValueConcat(ws[..i], [ws[i]] + tail);
    AveragesValueConcat(ws[..i], [w] + tail);
    assert ([ws[i]] + tail)[1..] == tail && ([w] + tail)[1..] == tail;
  }

  lemma LayersValueStep(cs: seq<CostLayer>, i: nat)
    requires i < |cs|
    ensures LayersValue(cs[..i + 1]) == LayersValue(cs[..i]) + LayerValue(cs[i])
  {
    assert cs[..i + 1] == cs[..i] + [cs[i]];
    LayersValueConcat(cs[..i], [cs[i]]);
  }

  lemma RepriceChanges(c: CostLayer, l: Line)
    ensures LayerValue(Reprice(c, l)) - LayerValue(c)
      == if Covers(l, c.item, c.scope) && 0 < c.remaining then c.remaining * (l.newCost - c.cost) else 0
  {
  }

  class CostTables {
    var layers: seq<CostLayer>
    var averages: seq<WacRow>

    method RepriceTheLayers(l: Line) returns (delta: int)
      modifies this`layers
      ensures layers == RepriceLayers(old(layers), l)
      ensures delta == LayersValue(layers) - LayersValue(old(layers))
    {
      delta := 0;
      ghost var target := RepriceLayers(layers, l);
      var repriced: seq<CostLayer> := [];
      for i := 0 to |layers|
        invariant layers == old(layers)
        invariant repriced == target[..i]
        invariant delta == LayersValue(target[..i]) - LayersValue(layers[..i])
      {
        LayersValueStep(layers, i);
        LayersValueStep(target, i);
        RepriceChanges(layers[i], l);
        var c := layers[i];
        if Covers(l, c.item, c.scope) && 0 < c.remaining {
          delta := delta + c.remaining * (l.newCost - c.cost);
        }
        repriced := repriced + [Reprice(c, l)];
      }
      assert layers[..|layers|] == layers && target[..|layers|] == target;
      layers := repriced;
    }

    method ReplaceTheAverage(l: Line) returns (delta: int)
      requires DistinctRows(averages)
      modifies this`averages
      ensures averages == ReplaceAverages(old(averages), l)
      ensures delta == AveragesValue(averages) - AveragesValue(old(averages))
    {
      delta := 0;
      var k := 0;
      while k < |averages| && !Covers(l, averages[k].item, averages[k].scope)
        invariant 0 <= k <= |averages| && averages == old(averages)
        invariant forall j :: 0 <= j < k ==> !Covers(l, averages[j].item, averages[j].scope)
      {
        k := k + 1;
      }
      if k < |averages| {
        var w := averages[k];
        delta := w.onHand * (l.newCost - w.average);
        AveragesValueUpdate(averages, k, w.(average := l.newCost));
        assert forall j :: k < j < |averages| ==> !Covers(l, averages[j].item, averages[j].scope);
        averages := averages[k := w.(average := l.newCost)];
      }
      assert averages == ReplaceAverages(old(averages), l);
    }

    method RepriceLine(l: Line) returns (delta: int)
      requires DistinctRows(averages)
      modifies this
      ensures layers == RepriceLayers(old(layers), l)
        && averages == ReplaceAverages(old(averages), l)
      ensures delta == StoredValue(layers, averages) - StoredValue(old(layers), old(averages))
    {
      var onLayers := RepriceTheLayers(l);
      var onAverage := ReplaceTheAverage(l);
      delta := onLayers + onAverage;
    }

    /** Each line is stamped with the change it caused, rounded; the effect is the rounded total, or None. */
    method ApplyRevaluation(lines: seq<Line>) returns (r: Result<Option<int>, Refusal>, amounts: seq<int>)
      requires DistinctRows(averages)
      modifies this
      ensures r.Err? <==> exists i :: 0 <= i < |lines| && lines[i].newCost <= 0
      ensures r.Err? ==> layers == old(layers) && averages == old(averages)
      ensures r.Ok? ==> layers == LayersAfter(old(layers), lines) && averages == AveragesAfter(old(averages), lines)
      ensures r.Ok? ==> |amounts| == |lines| && forall i :: 0 <= i < |lines| ==>
        amounts[i] == RoundDiv(Change(old(layers), old(averages), lines, i), SCALE)
      ensures r.Ok? ==> r.value == Published(StoredValue(layers, averages) - StoredValue(old(layers), old(averages)))
    {
      var layersBefore, averagesBefore := layers, averages;
      var total := 0;
      amounts := [];
      for i := 0 to |lines|
        invariant DistinctRows(averages)
        invariant forall k :: 0 <= k < i ==> 0 < lines[k].newCost
        invariant layers == LayersAfter(layersBefore, lines[..i])
          && averages == AveragesAfter(averagesBefore, lines[..i])
        invariant total == StoredValue(layers, averages) - StoredValue(layersBefore, averagesBefore)
        invariant |amounts| == i
        invariant forall k ::
          0 <= k < i ==> amounts[k] == RoundDiv(Change(layersBefore, averagesBefore, lines, k), SCALE)
      {
        if lines[i].newCost <= 0 {
          layers, averages := layersBefore, averagesBefore;
          return Err(CostMissing), [];
        }
        assert lines[..i + 1][..i] == lines[..i];
        var delta := RepriceLine(lines[i]);
        assert delta == Change(layersBefore, averagesBefore, lines, i);
        amounts := amounts + [RoundDiv(delta, SCALE)];
        total := total + delta;
      }
      assert lines[..|lines|] == lines;
      r := Ok(if 1000 < Abs(total) then Some(RoundDiv(total, SCALE)) else None);
    }
  }

  /** The effect for a change of value: nothing is published for one of 0.00001 or less. */
  function Published(total: int): Option<int>
  {
    if 1000 < Abs(total) then Some(RoundDiv(total, SCALE)) else None
  }

  // ------------------------------------------------------------------ what is left at which cost

  /** The cost the last line for this item and scope gives, if any does. */
  function LastCost(lines: seq<Line>, item: nat, scope: nat): Option<int>
  {
    if lines == [] then None
    else
      var l := lines[|lines| - 1];
      if l.item == item && l.scope == scope then Some(l.newCost) else LastCost(lines[..|lines| - 1], item, scope)
  }

  /** Every layer with stock ends at the cost last given for it, and any other, with or without stock, as it was. */
  lemma {:induction false} LayersEndAtTheCostGiven(cs: seq<CostLayer>, lines: seq<Line>, i: nat)
    requires i < |cs|
    ensures var c, last := cs[i], LastCost(lines, cs[i].item, cs[i].scope);
      && |LayersAfter(cs, lines)| == |cs|
      && LayersAfter(cs, lines)[i]
         == CostLayer(c.item, c.scope, c.remaining, if 0 < c.remaining && last.Some? then last.value else c.cost)
  {
    if lines != [] {
      LayersEndAtTheCostGiven(cs, lines[..|lines| - 1], i);
    }
  }

  /** And every average at the one last given for its item and scope. */
  lemma {:induction false} AveragesEndAtTheCostGiven(ws: seq<WacRow>, lines: seq<Line>, i: nat)
    requires i < |ws|
    ensures var w, last := ws[i], LastCost(lines, ws[i].item, ws[i].scope);
      && |AveragesAfter(ws, lines)| == |ws|
      && AveragesAfter(ws, lines)[i]
         == WacRow(w.item, w.scope, w.onHand, if last.Some? then last.value else w.average)
  {
    if lines != [] {
      AveragesEndAtTheCostGiven(ws, lines[..|lines| - 1], i);
    }
  }

  /** What the tables hold in value: stock in positive layers at cost, and what is on hand at its average. */
  lemma {:induction false} StoredValueIs(cs: seq<CostLayer>, ws: seq<WacRow>, i: nat)
    ensures i < |cs| ==>
      var kept := if 0 < cs[i].remaining then cs[i].remaining * cs[i].cost else 0;
      StoredValue(cs, ws) == StoredValue(cs[..i] + cs[i + 1..], ws) + kept
    ensures i < |ws| ==> StoredValue(cs, ws) == StoredValue(cs, ws[..i] + ws[i + 1..]) + ws[i].onHand * ws[i].average
    ensures StoredValue([], []) == 0
  {
    if i < |cs| {
      LayersValueConcat(cs[..i], cs[i + 1..]);
      LayersValueConcat(cs[..i], [cs[i]] + cs[i + 1..]);
      assert cs == cs[..i] + ([cs[i]] + cs[i + 1..]);
      assert ([cs[i]] + cs[i + 1..])[1..] == cs[i + 1..];
    }
    if i < |ws| {
      AveragesValueConcat(ws[..i], ws[i + 1..]);
      AveragesValueConcat(ws[..i], [ws[i]] + ws[i + 1..]);
      assert ws == ws[..i] + ([ws[i]] + ws[i + 1..]);
      assert ([ws[i]] + ws[i + 1..])[1..] == ws[i + 1..];
    }
  }

  // ------------------------------------------------------------------ the effect and the lines

  function EffectAmount(e: Option<int>): int { if e.Some? then e.value else 0 }

  /** What is published is the rounded change in stored value, whatever the threshold withheld. */
  lemma EffectIsRoundedChange(total: int)
    ensures EffectAmount(Published(total)) == RoundDiv(total, SCALE)
    ensures Published(total).Some? <==> total < -1000 || 1000 < total
  {
    if Abs(total) <= 1000 {
      RoundDivUnique(total, SCALE, 0);
    }
  }

  function Changes(cs: seq<CostLayer>, ws: seq<WacRow>, lines: seq<Line>): (ds: seq<int>)
    ensures |ds| == |lines|
  {
    seq(|lines|, i requires 0 <= i < |lines| => Change(cs, ws, lines, i))
  }

  /** The lines' own changes add up to the change of the whole. */
  lemma {:induction false} ChangesTelescope(cs: seq<CostLayer>, ws: seq<WacRow>, lines: seq<Line>)
    ensures Sum(Changes(cs, ws, lines))
      == StoredValue(LayersAfter(cs, lines), AveragesAfter(ws, lines)) - StoredValue(cs, ws)
  {
    if lines != [] {
      var k := |lines| - 1;
      var before := lines[..k];
      ChangesTelescope(cs, ws, before);
      forall i | 0 <= i < k
        ensures Change(cs, ws, before, i) == Change(cs, ws, lines, i)
      {
        assert before[..i + 1] == lines[..i + 1] && before[..i] == lines[..i];
      }
      assert Changes(cs, ws, lines) == Changes(cs, ws, before) + [Change(cs, ws, lines, k)];
      SumAppend(Changes(cs, ws, before), Change(cs, ws, lines, k));
      assert lines[..k + 1] == lines;
    }
  }

  function AllRounded(ds: seq<int>): (rs: seq<int>)
    ensures |rs| == |ds|
  {
    seq(|ds|, i requires 0 <= i < |ds| => RoundDiv(ds[i], SCALE))
  }

  /** n roundings together err by at most n halves, and by all of them only when every one went the same way. */
  lemma {:induction false} RoundingsTogether(ds: seq<int>)
    ensures var err := 2 * (Sum(AllRounded(ds)) * SCALE - Sum(ds));
      && -|ds| * SCALE <= err <= |ds| * SCALE
      && (err == |ds| * SCALE && ds != [] ==> 0 < Sum(ds))
      && (err == -|ds| * SCALE && ds != [] ==> Sum(ds) < 0)
  {
    if ds != [] {
      RoundingsTogether(ds[1..]);
      assert AllRounded(ds)[1..] == AllRounded(ds[1..]);
    }
  }

  /** The lines' stamped amounts add up to the published effect within 0.00005 per line. */
  lemma LinesAddUpToTheEffect(cs: seq<CostLayer>, ws: seq<WacRow>, lines: seq<Line>)
    ensures var total := StoredValue(LayersAfter(cs, lines), AveragesAfter(ws, lines)) - StoredValue(cs, ws);
      Abs(2 * (Sum(AllRounded(Changes(cs, ws, lines))) - EffectAmount(Published(total)))) <= |lines|
  {
    ChangesTelescope(cs, ws, lines);
    RoundingsTogether(Changes(cs, ws, lines));
    EffectIsRoundedChange(Sum(Changes(cs, ws, lines)));
  }
}
