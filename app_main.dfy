/**
 * The web application's own logic: the WKT text of a search polygon, and the
 * per-probe summary of the layers endpoint with its thickest layer.
 */
module AppMain {
  import opened Wrappers
  import opened Measurements
  import opened Segment
  import opened Classification
  import ProbeLists
  import LayersProbe
  import ZonesProbe

  // ---------- decimal text of integers, as str(int) ----------

  function DigitChar(d: nat): char
    requires d < 10
  {
    ('0' as int + d) as char
  }

  function DigitValue(c: char): int
  {
    c as int - '0' as int
  }

  /** The decimal digits of n, without leading zeros ("0" for zero). */
  function NatToString(n: nat): string
  {
    if n < 10 then [DigitChar(n)] else NatToString(n / 10) + [DigitChar(n % 10)]
  }

  /** str(i): a minus sign before the digits of a negative number. */
  function IntToString(i: int): string
  {
    if i < 0 then "-" + NatToString(-i) else NatToString(i)
  }

  /** The value of a string of decimal digits, read from the left. */
  function ParseDigits(s: string): int
  {
    if |s| == 0 then 0 else 10 * ParseDigits(s[..|s| - 1]) + DigitValue(s[|s| - 1])
  }

  function ParseInt(s: string): int
  {
    if |s| > 0 && s[0] == '-' then -ParseDigits(s[1..]) else ParseDigits(s)
  }

  predicate IsDigits(s: string)
  {
    forall k :: 0 <= k < |s| ==> '0' <= s[k] <= '9'
  }

  /** The digits read back to the number: no two numbers share a text. */
  lemma {:induction false} NatToStringRoundTrip(n: nat)
    ensures ParseDigits(NatToString(n)) == n
    ensures |NatToString(n)| > 0 && IsDigits(NatToString(n))
    ensures NatToString(n)[0] == '0' ==> n == 0
  {
    if n >= 10 {
      NatToStringRoundTrip(n / 10);
      var p := NatToString(n / 10);
      assert (p + [DigitChar(n % 10)])[..|p|] == p;
    }
  }

  /** str(i) read back gives i, so the text of a vertex pins its coordinates. */
  lemma IntToStringRoundTrip(i: int)
    ensures ParseInt(IntToString(i)) == i
    ensures IntToString(i)[0] == '-' <==> i < 0
  {
    if i < 0 {
      NatToStringRoundTrip(-i);
      assert IntToString(i)[1..] == NatToString(-i);
    } else {
      NatToStringRoundTrip(i);
    }
  }

  // ---------- to_wkt ----------

  type Vertex = (int, int)

  /** The keyword and opening parentheses of a WKT polygon, and its closing parentheses. */
  const Opening: string := "POLYGON (("
  const Closing: string := "))"

  /** One vertex as WKT writes it: "x y". */
  function VertexText(v: Vertex): string
  {
    IntToString(v.0) + " " + IntToString(v.1)
  }

  /** The texts of the vertices joined with ", " between neighbours: the WKT coordinate list. */
  function JoinVertices(vs: seq<Vertex>): string
  {
    if |vs| == 0 then ""
    else if |vs| == 1 then VertexText(vs[0])
    else JoinVertices(vs[..|vs| - 1]) + ", " + VertexText(vs[|vs| - 1])
  }

  /** A polygon in WKT: its ring, closed by repeating the first vertex, in double parentheses. */
  function PolygonWkt(vs: seq<Vertex>): string
    requires |vs| > 0
  {
    Opening + JoinVertices(vs + [vs[0]]) + Closing
  }

  /** The text the loop of to_wkt has written after the given vertices: each one followed by ", ". */
  function Written(vs: seq<Vertex>): string
  {
    if |vs| == 0 then "" else Written(vs[..|vs| - 1]) + VertexText(vs[|vs| - 1]) + ", "
  }

  /**
   * to_wkt: each vertex as "x y, " in order, then the first vertex again and
   * the closing parentheses; indexing the first vertex of an empty tuple
   * raises an IndexError.
   */
  method ToWkt(vs: seq<Vertex>) returns (r: Result<string>)
    ensures r.Ok? <==> |vs| > 0
    ensures r.Err? ==> r.error == IndexOutOfRange
    ensures r.Ok? ==> r.value == PolygonWkt(vs)
  {
    var wkt := Opening;
    for i := 0 to |vs|
      invariant wkt == Opening + Written(vs[..i])
    {
      WriteStep(wkt, vs, i);
      wkt := wkt + IntToString(vs[i].0) + " " + IntToString(vs[i].1) + ", ";
    }
    if |vs| == 0 {
      return Err(IndexOutOfRange);
    }
    CloseStep(wkt, vs);
    wkt := wkt + IntToString(vs[0].0) + " " + IntToString(vs[0].1) + Closing;
    return Ok(wkt);
  }

  /** One pass of the loop of to_wkt writes one more vertex. */
  lemma WriteStep(wkt: string, vs: seq<Vertex>, i: nat)
    requires i < |vs| && wkt == Opening + Written(vs[..i])
    ensures wkt + IntToString(vs[i].0) + " " + IntToString(vs[i].1) + ", " == Opening + Written(vs[..i + 1])
  {
    assert vs[..i + 1][..i] == vs[..i];
    Regroup(Opening, Written(vs[..i]), IntToString(vs[i].0), " ", IntToString(vs[i].1), ", ");
  }

  /** The closing statement of to_wkt completes the polygon text. */
  lemma CloseStep(wkt: string, vs: seq<Vertex>)
    requires |vs| > 0 && wkt == Opening + Written(vs[..|vs|])
    ensures wkt + IntToString(vs[0].0) + " " + IntToString(vs[0].1) + Closing == PolygonWkt(vs)
  {
    assert vs[..|vs|] == vs;
    WrittenJoins(vs, vs[0]);
    Regroup(Opening, Written(vs), IntToString(vs[0].0), " ", IntToString(vs[0].1), Closing);
    Regroup(Opening, Written(vs), "", "", VertexText(vs[0]), Closing);
  }

  /** Concatenation regrouped as the loop of to_wkt and the coordinate list group it. */
  lemma Regroup(p: string, w: string, x: string, s: string, y: string, c: string)
    ensures p + w + x + s + y + c == p + (w + (x + s + y) + c)
  {
  }

  /** The written vertices followed by one more vertex are the joined list with that vertex last. */
  lemma {:induction false} WrittenJoins(vs: seq<Vertex>, v: Vertex)
    ensures Written(vs) + VertexText(v) == JoinVertices(vs + [v])
  {
    if |vs| > 0 {
      var p := vs[..|vs| - 1];
      var last := vs[|vs| - 1];
      WrittenJoins(p, last);
      assert (vs + [v])[..|vs|] == vs;
      assert p + [last] == vs;
    }
  }

  /** The ring has one more vertex than the polygon: one text per vertex and one ", " between neighbours. */
  lemma {:induction false} JoinLength(vs: seq<Vertex>)
    ensures |vs| > 0 ==> |JoinVertices(vs)| == Sum(vs) + 2 * (|vs| - 1)
  {
    if |vs| > 1 {
      JoinLength(vs[..|vs| - 1]);
    }
  }

  function Sum(vs: seq<Vertex>): nat
  {
    if |vs| == 0 then 0 else Sum(vs[..|vs| - 1]) + |VertexText(vs[|vs| - 1])|
  }

  /** The WKT of a polygon starts with the keyword and the opening parentheses, ends with the closing ones, and repeats the first vertex last. */
  lemma PolygonShape(vs: seq<Vertex>)
    requires |vs| > 0
    ensures var w := PolygonWkt(vs);
            var t := VertexText(vs[0]);
            && w[..|Opening|] == Opening && w[|w| - |Closing|..] == Closing
            && w[|Opening|..|Opening| + |t|] == t && w[|w| - |Closing| - |t|..|w| - |Closing|] == t
  {
    RingEnds(vs);
    Enclosed(Opening, JoinVertices(vs + [vs[0]]), Closing, VertexText(vs[0]), VertexText(vs[0]));
  }

  /** The closed ring's text starts and ends with the first vertex. */
  lemma RingEnds(vs: seq<Vertex>)
    requires |vs| > 0
    ensures var j, t := JoinVertices(vs + [vs[0]]), VertexText(vs[0]);
            |t| <= |j| && j[..|t|] == t && j[|j| - |t|..] == t
  {
    var ring := vs + [vs[0]];
    JoinStartsEnds(ring);
    assert ring[0] == vs[0] && ring[|ring| - 1] == vs[0];
  }

  /** The text between a prefix and a suffix keeps its own first and last parts. */
  lemma Enclosed(p: string, j: string, c: string, f: string, l: string)
    requires |f| <= |j| && |l| <= |j| && j[..|f|] == f && j[|j| - |l|..] == l
    ensures var w := p + j + c;
            && w[..|p|] == p && w[|w| - |c|..] == c
            && w[|p|..|p| + |f|] == f && w[|w| - |c| - |l|..|w| - |c|] == l
  {
    var w := p + j + c;
    assert w[|p|..|p| + |f|] == j[..|f|];
    assert w[|w| - |c| - |l|..|w| - |c|] == j[|j| - |l|..];
  }

  lemma {:induction false} JoinStartsEnds(vs: seq<Vertex>)
    requires |vs| > 0
    ensures var j := JoinVertices(vs);
            var f := VertexText(vs[0]);
            var l := VertexText(vs[|vs| - 1]);
            |f| <= |j| && |l| <= |j| && j[..|f|] == f && j[|j| - |l|..] == l
  {
    if |vs| > 1 {
      var p := vs[..|vs| - 1];
      JoinStartsEnds(p);
      assert p[0] == vs[0];
    }
  }

  // ---------- the thickest layer ----------

  /** max(layers): a layer replaces the one held so far only when it is strictly thicker. */
  function ThickestIndex(ls: seq<Layer>): (i: nat)
    requires |ls| > 0
    ensures i < |ls|
  {
    if |ls| == 1 then 0
    else
      var j := ThickestIndex(ls[..|ls| - 1]);
      if Gt(ls[|ls| - 1], ls[j]) then |ls| - 1 else j
  }

  /** The layer max picks is at least as thick as every layer, and strictly thicker than every layer above it. */
  lemma {:induction false} ThickestIsFirstMaximal(ls: seq<Layer>)
    requires |ls| > 0
    ensures forall j :: 0 <= j < |ls| ==> Le(ls[j], ls[ThickestIndex(ls)])
    ensures forall j :: 0 <= j < ThickestIndex(ls) ==> Lt(ls[j], ls[ThickestIndex(ls)])
  {
    if |ls| > 1 {
      var p := ls[..|ls| - 1];
      ThickestIsFirstMaximal(p);
      assert forall j :: 0 <= j < |p| ==> ls[j] == p[j];
    }
  }

  /** A cell of the top TL and bottom TL columns: a depth, or "/" for a probe without layers. */
  datatype Cell = Depth(x: real) | Slash

  /** The top TL and bottom TL cells of one probe. */
  function ThickestCells(ls: seq<Layer>): (c: (Cell, Cell))
    ensures |ls| == 0 <==> c == (Slash, Slash)
    ensures |ls| > 0 ==> exists i :: 0 <= i < |ls| && c == (Depth(ls[i].top), Depth(ls[i].bottom))
                                       && (forall j :: 0 <= j < |ls| ==> Le(ls[j], ls[i]))
                                       && (forall j :: 0 <= j < i ==> Lt(ls[j], ls[i]))
  {
    if |ls| == 0 then (Slash, Slash)
    else
      var i := ThickestIndex(ls);
      ThickestIsFirstMaximal(ls);
      (Depth(ls[i].top), Depth(ls[i].bottom))
  }

  // ---------- info_layers ----------

  /** One probe's entries in the columns of the layers endpoint. */
  datatype LayerInfo = LayerInfo(number: string, measurements: nat, layers: nat, soilType: string, top: Cell, bottom: Cell)

  /** The layer search the endpoint runs on a probe: the given zone, the default qc maximum. */
  function Search(zoneNumber: int, math: Math): LayersProbe.Criteria
  {
    LayersProbe.Criteria(zoneNumber, LayersProbe.DefaultQcMax, ZonesProbe.Classifier(math))
  }

  /** The layer search of a probe finishes without an error. */
  predicate Searchable(ms: seq<Measurement>, cr: LayersProbe.Criteria)
  {
    LayersProbe.NoFaults(ms, cr) && LayersProbe.AllValidLayers(LayersProbe.Expected(ms, cr))
  }

  /** The row of a probe whose search succeeds, with the label of the zone searched. */
  function InfoRow(p: Probe, cr: LayersProbe.Criteria, soil: string): LayerInfo
  {
    var ls := LayersProbe.Expected(p.measurements, cr);
    var cells := ThickestCells(ls);
    LayerInfo(p.number, |p.measurements|, |ls|, soil, cells.0, cells.1)
  }

  /**
   * A probe's row: its number, its count of measurements and of layers, the
   * label of the zone searched, and the top and bottom of the first thickest
   * layer, or "/" twice when there is no layer.
   */
  lemma InfoRowMeaning(p: Probe, cr: LayersProbe.Criteria, soil: string)
    ensures var row, ls := InfoRow(p, cr, soil), LayersProbe.Expected(p.measurements, cr);
            && row.number == p.number && row.measurements == |p.measurements| && row.layers == |ls| && row.soilType == soil
            && (|ls| == 0 <==> row.top == Slash && row.bottom == Slash)
            && (|ls| > 0 ==> exists i :: 0 <= i < |ls| && row.top == Depth(ls[i].top) && row.bottom == Depth(ls[i].bottom)
                                           && (forall j :: 0 <= j < |ls| ==> Le(ls[j], ls[i]))
                                           && (forall j :: 0 <= j < i ==> Lt(ls[j], ls[i])))
  {
  }

  /** The summary of one probe: its layer search, then its row; the error of the search if it fails. */
  method SummarizeProbe(probe: Probe, zoneNumber: int, math: Math) returns (r: Result<LayerInfo>)
    requires 0 <= zoneNumber <= 9
    ensures r.Ok? <==> Searchable(probe.measurements, Search(zoneNumber, math))
    ensures r.Ok? ==> r.value == InfoRow(probe, Search(zoneNumber, math), SoilTypes[zoneNumber])
  {
    var layers := LayersProbe.NewLayersProbe(probe, zoneNumber, LayersProbe.DefaultQcMax, math);
    if layers.Err? {
      return Err(layers.error);
    }
    var soil := SBT(zoneNumber);
    var cells := ThickestCells(layers.value.layers);
    return Ok(LayerInfo(probe.number, |probe.measurements|, layers.value.Length(), soil.value, cells.0, cells.1));
  }

  /** The rows of the items, when each one passes: the loop that stops at the first item that raises. */
  function Collect<T, R>(xs: seq<T>, ok: T -> bool, row: T -> R): Option<seq<R>>
  {
    if |xs| == 0 then Some([])
    else
      var rows := Collect(xs[..|xs| - 1], ok, row);
      if rows.Some? && ok(xs[|xs| - 1]) then Some(rows.value + [row(xs[|xs| - 1])]) else None
  }

  /** The rows exist exactly when every item passes, and then there is one per item, in order. */
  lemma {:induction false} CollectMeaning<T, R>(xs: seq<T>, ok: T -> bool, row: T -> R)
    ensures Collect(xs, ok, row).Some? <==> forall i :: 0 <= i < |xs| ==> ok(xs[i])
    ensures Collect(xs, ok, row).Some? ==> |Collect(xs, ok, row).value| == |xs|
    ensures Collect(xs, ok, row).Some? ==> forall i :: 0 <= i < |xs| ==> Collect(xs, ok, row).value[i] == row(xs[i])
  {
    if |xs| > 0 {
      var p := xs[..|xs| - 1];
      CollectMeaning(p, ok, row);
      assert forall i :: 0 <= i < |p| ==> p[i] == xs[i];
    }
  }

  /** The loop of info_layers over the probes handed out by the iteration, stopping at the first failure. */
  method Summarize(ps: seq<Probe>, zoneNumber: int, math: Math) returns (r: Result<seq<LayerInfo>>)
    requires 0 <= zoneNumber <= 9
    ensures r.Ok? <==> forall i :: 0 <= i < |ps| ==> Searchable(ps[i].measurements, Search(zoneNumber, math))
    ensures r.Ok? ==> |r.value| == |ps|
    ensures r.Ok? ==> forall i :: 0 <= i < |ps| ==> r.value[i] == InfoRow(ps[i], Search(zoneNumber, math), SoilTypes[zoneNumber])
  {
    ghost var cr := Search(zoneNumber, math);
    ghost var ok := (p: Probe) => Searchable(p.measurements, cr);
    ghost var row := (p: Probe) => InfoRow(p, cr, SoilTypes[zoneNumber]);
    var rows: seq<LayerInfo> := [];
    for i := 0 to |ps|
      invariant Collect(ps[..i], ok, row) == Some(rows)
    {
      assert ps[..i + 1][..i] == ps[..i];
      var next := SummarizeProbe(ps[i], zoneNumber, math);
      if next.Err? {
        CollectMeaning(ps, ok, row);
        assert !ok(ps[i]);
        return Err(next.error);
      }
      rows := rows + [next.value];
    }
    assert ps[..|ps|] == ps;
    CollectMeaning(ps, ok, row);
    return Ok(rows);
  }

  /**
   * info_layers over a loaded probe list (the zone number is validated to
   * lie in 0..9 before the handler runs): one row per probe in key order,
   * or the error of the first probe whose layer search fails.
   */
  method InfoLayers(pl: ProbeLists.ProbeList, zoneNumber: int, math: Math) returns (r: Result<seq<LayerInfo>>)
    requires pl.Valid() && 0 <= zoneNumber <= 9
    modifies pl
    ensures pl.numbers == old(pl.numbers) && pl.probes == old(pl.probes)
    ensures r.Ok? <==> forall i :: 0 <= i < |pl.numbers| ==> Searchable(pl.probes[pl.numbers[i]], Search(zoneNumber, math))
    ensures r.Ok? ==> |r.value| == |pl.numbers|
                      && forall i :: 0 <= i < |pl.numbers| ==>
                           r.value[i] == InfoRow(Probe(pl.numbers[i], pl.probes[pl.numbers[i]]), Search(zoneNumber, math), SoilTypes[zoneNumber])
  {
    var ps := pl.AllProbes();
    r := Summarize(ps, zoneNumber, math);
  }
}
