/**
 * LayersProbe: the layers of a probe, the vertical segments in which qc stays
 * below a maximum and, optionally, every point classifies as one given zone.
 *
 * The in-layer signal of the points is defined first (InLayerAfter, Signal);
 * the reference layers are the maximal runs of true in that signal
 * (SpecLayers). FindLayers is the single pass of the source, proved to build
 * exactly the reference layers or to fail with the error the source raises.
 */
module LayersProbe {
  import opened Wrappers
  import opened Measurements
  import opened Segment
  import opened Runs
  import opened Classification
  import ZonesProbe

  /**
   * The settings of one search: the zone number the layers must lie in (0 or
   * less: any zone), the largest qc allowed in a layer (exclusive), and the
   * per-point zone classification.
   */
  datatype Criteria = Criteria(zoneNumber: int, qcMax: real, zone: Measurement -> Result<int>)

  /** The classification gives positive zone numbers, as zone_number does (1..9). */
  ghost predicate PositiveZones(f: Measurement -> Result<int>)
  {
    forall m :: f(m).Ok? ==> f(m).value >= 1
  }

  /** The pass's view of one point: inside the wanted zone, or any point when no zone is asked for. */
  predicate InZone(m: Measurement, cr: Criteria)
  {
    cr.zoneNumber <= 0 || cr.zone(m) == Ok(cr.zoneNumber)
  }

  /** Whether the pass is inside a layer after a point: a point without qc leaves the state as it was. */
  function NextInLayer(m: Measurement, inLayer: bool, cr: Criteria): bool
  {
    if m.qc.None? then inLayer else m.qc.value < cr.qcMax && InZone(m, cr)
  }

  /** Whether the pass is inside a layer after its first k points. */
  function InLayerAfter(ms: seq<Measurement>, cr: Criteria, k: nat): bool
    requires k <= |ms|
  {
    if k == 0 then false else NextInLayer(ms[k - 1], InLayerAfter(ms, cr, k - 1), cr)
  }

  /** The in-layer signal: entry k says whether point k belongs to a layer. */
  function Signal(ms: seq<Measurement>, cr: Criteria): (b: seq<bool>)
    ensures |b| == |ms|
    ensures forall k :: 0 <= k < |ms| ==> b[k] == InLayerAfter(ms, cr, k + 1)
  {
    seq(|ms|, k requires 0 <= k < |ms| => InLayerAfter(ms, cr, k + 1))
  }

  /** Point k's entry in the signal follows from the entry before it, or from "not in a layer" at the first point. */
  lemma SignalStep(ms: seq<Measurement>, cr: Criteria, k: nat)
    requires k < |ms|
    ensures Signal(ms, cr)[k] == NextInLayer(ms[k], if k == 0 then false else Signal(ms, cr)[k - 1], cr)
  {
    assert InLayerAfter(ms, cr, k + 1) == NextInLayer(ms[k], InLayerAfter(ms, cr, k), cr);
  }

  /** A point whose classification raises an error the pass does not catch (only missing data is caught). */
  predicate FaultAt(ms: seq<Measurement>, cr: Criteria, k: nat)
    requires k < |ms|
  {
    cr.zoneNumber > 0 && ZonesProbe.Faulty(cr.zone(ms[k]))
  }

  predicate NoFaults(ms: seq<Measurement>, cr: Criteria)
  {
    forall k :: 0 <= k < |ms| ==> !FaultAt(ms, cr, k)
  }

  /**
   * The top of the layer that starts at point s: the midpoint with the point
   * before; for a layer from the first point, the first depth extrapolated
   * half a spacing upwards, or half the depth of a lone point.
   */
  function LayerTop(d: seq<real>, s: nat): real
    requires s < |d|
  {
    if s > 0 then Mid(d[s - 1], d[s])
    else if |d| >= 2 then ZonesProbe.FirstTop(d)
    else Mid(0.0, d[0])
  }

  /**
   * The bottom of the layer that ends before point e: the midpoint with point
   * e; for a layer open at the last point, half a spacing below it.
   */
  function LayerBottom(d: seq<real>, e: nat): real
    requires 0 < e <= |d|
  {
    if e < |d| then Mid(d[e - 1], d[e])
    else d[e - 1] + 0.5 * (d[e - 1] - (if e >= 2 then d[e - 2] else 0.0))
  }

  function LayerOfSpan(d: seq<real>, s: Run): Layer
    requires s.start < s.end <= |d|
  {
    Layer(LayerTop(d, s.start), LayerBottom(d, s.end))
  }

  /** The layers of depths d and signal b: one per maximal run of in-layer points. */
  function SpecLayers(d: seq<real>, b: seq<bool>): (ls: seq<Layer>)
    requires |d| == |b|
    ensures |ls| == |SpansOf(b)|
  {
    var S := SpansOf(b);
    SpansOfListsSpans(b);
    seq(|S|, i requires 0 <= i < |S| => LayerOfSpan(d, S[i]))
  }

  /** The layers the pass must find for a measurement series. */
  function Expected(ms: seq<Measurement>, cr: Criteria): seq<Layer>
  {
    SpecLayers(Depths(ms), Signal(ms, cr))
  }

  predicate AllValidLayers(ls: seq<Layer>)
  {
    forall i :: 0 <= i < |ls| ==> ls[i].Valid()
  }

  /** The local state of the pass between two points. */
  datatype Scan = Scan(inLayer: bool, startLayer: real, endLayer: real, inZone: bool, zoneNr: int)

  /**
   * The pass after k points has built the first |layers| reference layers;
   * its state says whether point k - 1 is in a layer, which span that is and
   * where that span's layer starts.
   */
  ghost predicate Tracking(ms: seq<Measurement>, cr: Criteria, k: nat, layers: seq<Layer>, st: Scan)
    requires k <= |ms|
  {
    var d := Depths(ms);
    var b := Signal(ms, cr);
    var S := SpansOf(b);
    var j := |layers|;
    && (st.zoneNr > 0 <==> cr.zoneNumber > 0)
    && (cr.zoneNumber <= 0 ==> st.inZone)
    && j <= |S| && layers == SpecLayers(d, b)[..j] && AllValidLayers(layers)
    && (k == 0 ==> !st.inLayer && st.endLayer == 0.0 && j == 0)
    && (k > 0 ==> st.endLayer == d[k - 1] && st.inLayer == b[k - 1])
    && (k == |ms| ==> j == |S|)
    && (0 < k < |ms| && st.inLayer ==>
          && j < |S| && S[j].start <= k - 1 < S[j].end
          && st.startLayer == (if k == 1 then Mid(0.0, d[0]) else LayerTop(d, S[j].start)))
    && (k < |ms| && !st.inLayer ==> (j < |S| ==> k <= S[j].start) && (j > 0 ==> S[j - 1].end <= k))
  }

  /**
   * The pass of the source over the measurements: the reference layers when
   * every layer is a valid segment and no classification fails; otherwise
   * the InvalidSegment of a refused layer or the error of a failing point.
   */
  method FindLayers(ms: seq<Measurement>, cr: Criteria) returns (r: Result<seq<Layer>>)
    requires PositiveZones(cr.zone)
    ensures r.Ok? <==> NoFaults(ms, cr) && AllValidLayers(Expected(ms, cr))
    ensures r.Ok? ==> r.value == Expected(ms, cr)
    ensures r.Err? ==> r.error == InvalidSegment
                       || exists k :: 0 <= k < |ms| && FaultAt(ms, cr, k) && cr.zone(ms[k]).error == r.error
  {
    ghost var faults := seq(|ms|, i requires 0 <= i < |ms| => FaultAt(ms, cr, i));
    var n := |ms|;
    var layers: seq<Layer> := [];
    var st := Scan(false, 0.0, 0.0, true, cr.zoneNumber);
    var k := 0;
    while k < n
      invariant 0 <= k <= n
      invariant forall i :: 0 <= i < k ==> !faults[i]
      invariant Tracking(ms, cr, k, layers, st)
    {
      var stepped;
      stepped, st := LayerStep(ms, cr, n, k, ms[k], layers, st);
      if stepped.Err? {
        if stepped.error != InvalidSegment {
          assert FaultAt(ms, cr, k);
        }
        return Err(stepped.error);
      }
      layers := stepped.value;
      k := k + 1;
    }
    assert NoFaults(ms, cr) by {
      forall i | 0 <= i < n
        ensures !FaultAt(ms, cr, i)
      {
        assert !faults[i];
      }
    }
    TrackingComplete(ms, cr, layers, st);
    return Ok(layers);
  }

  /** After the last point the pass holds exactly the reference layers, all valid. */
  lemma TrackingComplete(ms: seq<Measurement>, cr: Criteria, layers: seq<Layer>, st: Scan)
    requires Tracking(ms, cr, |ms|, layers, st)
    ensures layers == Expected(ms, cr) && AllValidLayers(layers)
  {
  }

  /** The zone check of one point: a point whose classification fails for lack of data is out of the zone. */
  method CheckZone(ghost ms: seq<Measurement>, cr: Criteria, k: nat, m: Measurement, st: Scan) returns (r: Result<Scan>)
    requires PositiveZones(cr.zone)
    requires k < |ms| && m == ms[k]
    requires (st.zoneNr > 0 <==> cr.zoneNumber > 0) && (cr.zoneNumber <= 0 ==> st.inZone)
    ensures r.Ok? <==> !FaultAt(ms, cr, k)
    ensures r.Ok? ==> r.value.inZone == InZone(m, cr) && (r.value.zoneNr > 0 <==> cr.zoneNumber > 0)
    ensures r.Ok? ==> r.value.(inZone := st.inZone, zoneNr := st.zoneNr) == st
    ensures r.Err? ==> r.error == cr.zone(ms[k]).error
  {
    if st.zoneNr <= 0 {
      return Ok(st);
    }
    var res := cr.zone(m);
    if res.Err? && res.error != MissingData {
      return Err(res.error);
    }
    if res.Ok? {
      return Ok(st.(zoneNr := res.value, inZone := res.value == cr.zoneNumber));
    }
    return Ok(st.(inZone := false));
  }

  /**
   * The state at point k once the first top has been extrapolated and the
   * zone of the point checked: as after k points, with the open layer's top
   * now final and the zone flag describing point k.
   */
  ghost predicate Ready(ms: seq<Measurement>, cr: Criteria, k: nat, layers: seq<Layer>, st: Scan)
    requires k < |ms|
  {
    var d := Depths(ms);
    var b := Signal(ms, cr);
    var S := SpansOf(b);
    var j := |layers|;
    && (st.zoneNr > 0 <==> cr.zoneNumber > 0)
    && st.inZone == InZone(ms[k], cr)
    && j <= |S| && layers == SpecLayers(d, b)[..j] && AllValidLayers(layers)
    && (k == 0 ==> !st.inLayer && st.endLayer == 0.0 && j == 0)
    && (k > 0 ==> st.endLayer == d[k - 1] && st.inLayer == b[k - 1])
    && (st.inLayer ==> j < |S| && S[j].start <= k - 1 < S[j].end && st.startLayer == LayerTop(d, S[j].start))
    && (!st.inLayer ==> (j < |S| ==> k <= S[j].start) && (j > 0 ==> S[j - 1].end <= k))
  }

  /** The state at point k once the point has entered, left or kept the layer. */
  ghost predicate Decided(ms: seq<Measurement>, cr: Criteria, k: nat, layers: seq<Layer>, st: Scan)
    requires k < |ms|
  {
    var d := Depths(ms);
    var b := Signal(ms, cr);
    var S := SpansOf(b);
    var j := |layers|;
    && (st.zoneNr > 0 <==> cr.zoneNumber > 0)
    && (cr.zoneNumber <= 0 ==> st.inZone)
    && j <= |S| && layers == SpecLayers(d, b)[..j] && AllValidLayers(layers)
    && st.inLayer == b[k]
    && (st.inLayer ==>
          && j < |S| && S[j].start <= k < S[j].end
          && st.startLayer == (if k == 0 then Mid(0.0, d[0]) else LayerTop(d, S[j].start))
          && st.endLayer == (if k == 0 then 0.0 else d[k - 1]))
    && (!st.inLayer ==> (j < |S| ==> k + 1 <= S[j].start) && (j > 0 ==> S[j - 1].end <= k + 1))
  }

  /** One iteration of the pass, at point k. */
  method LayerStep(ghost ms: seq<Measurement>, cr: Criteria, n: nat, k: nat, m: Measurement,
                   layers: seq<Layer>, st: Scan)
    returns (r: Result<seq<Layer>>, st': Scan)
    requires PositiveZones(cr.zone)
    requires n == |ms| && k < n && m == ms[k]
    requires Tracking(ms, cr, k, layers, st)
    ensures r.Ok? ==> !FaultAt(ms, cr, k) && Tracking(ms, cr, k + 1, r.value, st')
    ensures r.Err? ==> (r.error == InvalidSegment && !AllValidLayers(Expected(ms, cr)))
                       || (FaultAt(ms, cr, k) && r.error == cr.zone(ms[k]).error)
  {
    st' := st;
    if k == 1 && st'.inLayer {
      st' := st'.(startLayer := st'.endLayer - 0.5 * (m.depth - st'.endLayer));
    }
    var checked := CheckZone(ms, cr, k, m, st');
    if checked.Err? {
      return Err(checked.error), st';
    }
    st' := checked.value;
    var zs;
    zs, st' := UpdateLayer(ms, cr, k, m, layers, st');
    if zs.Err? {
      return zs, st';
    }
    r, st' := FinishPoint(ms, cr, n, k, m, zs.value, st');
  }

  /** Enter the layer at an in-layer point, or leave it and record the layer at a point out of it. */
  method UpdateLayer(ghost ms: seq<Measurement>, cr: Criteria, k: nat, m: Measurement, layers: seq<Layer>, st: Scan)
    returns (r: Result<seq<Layer>>, st': Scan)
    requires k < |ms| && m == ms[k]
    requires Ready(ms, cr, k, layers, st)
    ensures r.Ok? ==> Decided(ms, cr, k, r.value, st')
    ensures r.Err? ==> r.error == InvalidSegment && !AllValidLayers(Expected(ms, cr))
  {
    ghost var d := Depths(ms);
    ghost var b := Signal(ms, cr);
    ghost var j := |layers|;
    SignalStep(ms, cr, k);
    // a missing qc raises a TypeError that skips the layer logic for this point
    var known := m.qc.Some?;
    var check := known && m.qc.value < cr.qcMax;
    st' := st;
    if known && check && st.inZone && !st.inLayer {
      SpanOpens(b, j, k);
      st' := st.(inLayer := true, startLayer := Mid(st.endLayer, m.depth));
    } else if known && (!check || !st.inZone) && st.inLayer {
      SpanCloses(b, j, k);
      LayerAt(d, b, j);
      st' := st.(inLayer := false, endLayer := Mid(st.endLayer, m.depth));
      r := AppendLayer(Expected(ms, cr), layers, st'.startLayer, st'.endLayer);
      return;
    } else if st.inLayer {
      SpanGoesOn(b, j, k);
    } else {
      SpanStaysOut(b, j, k);
    }
    r := Ok(layers);
  }

  /** Close and record a layer still open at the last point, then remember the depth of the point. */
  method FinishPoint(ghost ms: seq<Measurement>, cr: Criteria, n: nat, k: nat, m: Measurement, layers: seq<Layer>, st: Scan)
    returns (r: Result<seq<Layer>>, st': Scan)
    requires n == |ms| && k < n && m == ms[k]
    requires Decided(ms, cr, k, layers, st)
    ensures r.Ok? ==> Tracking(ms, cr, k + 1, r.value, st')
    ensures r.Err? ==> r.error == InvalidSegment && !AllValidLayers(Expected(ms, cr))
  {
    ghost var d := Depths(ms);
    ghost var b := Signal(ms, cr);
    st' := st;
    var zs := layers;
    if k == n - 1 && st'.inLayer {
      LastSpan(b, |zs|);
      LayerAt(d, b, |zs|);
      st' := st'.(endLayer := m.depth + 0.5 * (m.depth - st'.endLayer));
      r := AppendLayer(Expected(ms, cr), zs, st'.startLayer, st'.endLayer);
      if r.Err? {
        return;
      }
      zs := r.value;
    } else if k == n - 1 {
      NoSpanLeft(b, |zs|);
    }
    st' := st'.(endLayer := m.depth);
    r := Ok(zs);
  }

  /** Layer(top, bottom) appended to the layers found so far, when the next reference layer is that one. */
  method AppendLayer(ghost spec: seq<Layer>, layers: seq<Layer>, top: real, bottom: real)
    returns (r: Result<seq<Layer>>)
    requires |layers| < |spec| && layers == spec[..|layers|] && AllValidLayers(layers)
    requires spec[|layers|] == Layer(top, bottom)
    ensures r.Ok? <==> spec[|layers|].Valid()
    ensures r.Ok? ==> r.value == spec[..|layers| + 1] && AllValidLayers(r.value)
    ensures r.Err? ==> r.error == InvalidSegment && !AllValidLayers(spec)
  {
    var l := MakeLayer(top, bottom);
    if l.Err? {
      return Err(l.error);
    }
    ZonesProbe.PrefixGrows(spec, layers, l.value);
    return Ok(layers + [l.value]);
  }

  // ---------- how the spans of the signal meet the pass ----------

  /** Reference layer j is the layer of span j. */
  lemma LayerAt(d: seq<real>, b: seq<bool>, j: nat)
    requires |d| == |b| && j < |SpansOf(b)|
    ensures SpansOf(b)[j].start < SpansOf(b)[j].end <= |b|
    ensures SpecLayers(d, b)[j] == LayerOfSpan(d, SpansOf(b)[j])
  {
    SpansOfListsSpans(b);
  }

  /** A point in a layer after a point out of one starts the next span. */
  lemma SpanOpens(b: seq<bool>, j: nat, k: nat)
    requires k < |b| && b[k] && (k == 0 || !b[k - 1])
    requires j <= |SpansOf(b)|
    requires j < |SpansOf(b)| ==> k <= SpansOf(b)[j].start
    requires j > 0 ==> SpansOf(b)[j - 1].end <= k
    ensures j < |SpansOf(b)| && SpansOf(b)[j].start == k < SpansOf(b)[j].end
  {
    var S := SpansOf(b);
    SpansOfListsSpans(b);
    SpansOrdered(b, S);
    var i :| 0 <= i < |S| && S[i].start <= k < S[i].end;
    assert S[i].start == k;
  }

  /** An in-layer point after an in-layer point stays in the same span. */
  lemma SpanGoesOn(b: seq<bool>, j: nat, k: nat)
    requires 0 < k < |b| && b[k]
    requires j < |SpansOf(b)| && SpansOf(b)[j].start <= k - 1 < SpansOf(b)[j].end
    ensures k < SpansOf(b)[j].end
  {
    SpansOfListsSpans(b);
  }

  /** A point out of a layer after an in-layer point closes the span at that point. */
  lemma SpanCloses(b: seq<bool>, j: nat, k: nat)
    requires 0 < k < |b| && !b[k]
    requires j < |SpansOf(b)| && SpansOf(b)[j].start <= k - 1 < SpansOf(b)[j].end
    ensures SpansOf(b)[j].end == k
    ensures j + 1 < |SpansOf(b)| ==> k + 1 <= SpansOf(b)[j + 1].start
  {
    SpansOfListsSpans(b);
  }

  /** A point out of a layer before the next span leaves that span ahead. */
  lemma SpanStaysOut(b: seq<bool>, j: nat, k: nat)
    requires k < |b| && !b[k]
    requires j <= |SpansOf(b)| && (j < |SpansOf(b)| ==> k <= SpansOf(b)[j].start)
    ensures j < |SpansOf(b)| ==> k + 1 <= SpansOf(b)[j].start
  {
    SpansOfListsSpans(b);
  }

  /** A span holding the last point is the last span and ends with the signal. */
  lemma LastSpan(b: seq<bool>, j: nat)
    requires |b| >= 1
    requires j < |SpansOf(b)| && SpansOf(b)[j].start <= |b| - 1 < SpansOf(b)[j].end
    ensures j == |SpansOf(b)| - 1 && SpansOf(b)[j].end == |b|
  {
    var S := SpansOf(b);
    SpansOfListsSpans(b);
    SpansOrdered(b, S);
    var last := |S| - 1;
    assert S[last].start < S[last].end <= |b|;
  }

  /** No span can start after the last point. */
  lemma NoSpanLeft(b: seq<bool>, j: nat)
    requires j <= |SpansOf(b)| && (j < |SpansOf(b)| ==> |b| <= SpansOf(b)[j].start)
    ensures j == |SpansOf(b)|
  {
    SpansOfListsSpans(b);
  }

  // ---------- properties of the reference layers ----------

  /** A point with a qc value is in a layer exactly when qc is below the maximum and the point is in the zone; one without keeps the state of the point before. */
  lemma SignalMeaning(ms: seq<Measurement>, cr: Criteria, k: nat)
    requires k < |ms|
    ensures ms[k].qc.Some? ==> (Signal(ms, cr)[k] <==> ms[k].qc.value < cr.qcMax && InZone(ms[k], cr))
    ensures ms[k].qc.None? ==> (Signal(ms, cr)[k] <==> k > 0 && Signal(ms, cr)[k - 1])
  {
    SignalStep(ms, cr, k);
  }

  /**
   * With strictly increasing depths from the surface down, a point's depth
   * lies inside one of the reference layers exactly when the point is in a
   * layer: layers hold their points and no other.
   */
  lemma LayerMembership(d: seq<real>, b: seq<bool>, k: nat)
    requires |d| == |b| && StrictlyAscending(d) && k < |d| && 0.0 <= d[0]
    ensures var ls := SpecLayers(d, b);
            b[k] <==> exists i :: 0 <= i < |ls| && ls[i].top <= d[k] <= ls[i].bottom
  {
    var S := SpansOf(b);
    var ls := SpecLayers(d, b);
    SpansOfListsSpans(b);
    forall i | 0 <= i < |ls|
      ensures (S[i].start <= k < S[i].end) <==> (ls[i].top <= d[k] <= ls[i].bottom)
    {
      SpanBracket(d, b, i, k);
    }
    if b[k] {
      var i :| 0 <= i < |S| && S[i].start <= k < S[i].end;
      assert ls[i].top <= d[k] <= ls[i].bottom;
    }
  }

  /** Span i holds point k exactly when layer i holds the depth of point k. */
  lemma SpanBracket(d: seq<real>, b: seq<bool>, i: nat, k: nat)
    requires |d| == |b| && StrictlyAscending(d) && k < |d| && 0.0 <= d[0]
    requires i < |SpansOf(b)|
    ensures SpansOf(b)[i].start < SpansOf(b)[i].end <= |d|
    ensures var s, e, l := SpansOf(b)[i].start, SpansOf(b)[i].end, SpecLayers(d, b)[i];
            (s <= k < e) <==> (l.top <= d[k] <= l.bottom)
  {
    LayerAt(d, b, i);
    var S := SpansOf(b);
    var s, e, n := S[i].start, S[i].end, |d|;
    var l := SpecLayers(d, b)[i];
    assert l.top <= d[s] by {
      if s == 0 && n >= 2 {
        assert d[0] < d[1];
      } else if s > 0 {
        assert d[s - 1] < d[s];
      }
    }
    assert d[e - 1] <= l.bottom by {
      if e < n {
        assert d[e - 1] < d[e];
      } else if n >= 2 {
        assert d[n - 2] < d[n - 1];
      }
    }
    if k < s {
      assert d[k] <= d[s - 1] < d[s];
    } else if e <= k {
      assert d[e - 1] < d[e] <= d[k];
    } else {
      assert d[s] <= d[k] <= d[e - 1];
    }
  }

  /** With depths in order, each layer ends at or above the top of the next one. */
  lemma LayersOrdered(d: seq<real>, b: seq<bool>)
    requires |d| == |b| && Ascending(d)
    ensures var ls := SpecLayers(d, b);
            forall i :: 0 <= i < |ls| - 1 ==> ls[i].bottom <= ls[i + 1].top
  {
    var S := SpansOf(b);
    var ls := SpecLayers(d, b);
    SpansOfListsSpans(b);
    forall i | 0 <= i < |ls| - 1
      ensures ls[i].bottom <= ls[i + 1].top
    {
      var e, s := S[i].end, S[i + 1].start;
      assert e < s < S[i + 1].end <= |d|;
      assert ls[i].bottom == Mid(d[e - 1], d[e]) && ls[i + 1].top == Mid(d[s - 1], d[s]);
      assert d[e - 1] <= d[e] <= d[s - 1] <= d[s];
    }
  }

  /**
   * With depths in order from the surface down, and a first top not above
   * the surface, every reference layer is a valid segment.
   */
  lemma LayersValid(d: seq<real>, b: seq<bool>)
    requires |d| == |b| >= 1 && Ascending(d) && 0.0 <= d[0]
    requires |d| >= 2 ==> 0.0 <= ZonesProbe.FirstTop(d)
    ensures AllValidLayers(SpecLayers(d, b))
  {
    var S := SpansOf(b);
    var ls := SpecLayers(d, b);
    SpansOfListsSpans(b);
    var n := |d|;
    forall i | 0 <= i < |ls|
      ensures ls[i].Valid()
    {
      var s, e := S[i].start, S[i].end;
      assert d[0] <= d[s] <= d[e - 1];
      assert s > 0 ==> d[s - 1] <= d[s] && d[0] <= d[s - 1];
      assert e < n ==> d[e - 1] <= d[e];
      assert n >= 2 ==> d[0] <= d[1] && d[n - 2] <= d[n - 1] && d[s] <= d[n - 1];
    }
  }

  /** A layer from the first point whose extrapolated top lies above the surface makes the search fail. */
  lemma FirstTopAboveSurface(d: seq<real>, b: seq<bool>)
    requires |d| == |b| >= 2 && b[0] && ZonesProbe.FirstTop(d) < 0.0
    ensures !AllValidLayers(SpecLayers(d, b))
  {
    SpansOfListsSpans(b);
    var S := SpansOf(b);
    SpansOrdered(b, S);
    var i :| 0 <= i < |S| && S[i].start <= 0 < S[i].end;
    assert SpecLayers(d, b)[i].top == ZonesProbe.FirstTop(d);
  }

  /** Without a zone number the classification is never consulted: the layers do not depend on it. */
  lemma {:induction false} ZoneFreeIndependent(ms: seq<Measurement>, cr: Criteria, g: Measurement -> Result<int>, k: nat)
    requires cr.zoneNumber <= 0 && k <= |ms|
    ensures InLayerAfter(ms, cr, k) == InLayerAfter(ms, cr.(zone := g), k)
  {
    if k > 0 {
      ZoneFreeIndependent(ms, cr, g, k - 1);
    }
  }

  /** Without a zone number, the expected layers are the same whatever the classification. */
  lemma ZoneFreeLayers(ms: seq<Measurement>, cr: Criteria, g: Measurement -> Result<int>)
    requires cr.zoneNumber <= 0
    ensures Signal(ms, cr) == Signal(ms, cr.(zone := g))
    ensures Expected(ms, cr) == Expected(ms, cr.(zone := g))
    ensures NoFaults(ms, cr)
  {
    forall k | 0 <= k < |ms|
      ensures Signal(ms, cr)[k] == Signal(ms, cr.(zone := g))[k]
    {
      ZoneFreeIndependent(ms, cr, g, k + 1);
    }
  }

  // ---------- the probe object ----------

  /** The defaults of the constructor: layers of any zone, with qc below 2 MPa. */
  const DefaultZoneNumber: int := 0
  const DefaultQcMax: real := 2.0

  /** A probe's number, the search settings and the layers found. */
  datatype LayersProbe = LayersProbe(number: string, zoneNumber: int, qcMax: real, layers: seq<Layer>) {
    function Length(): nat { |layers| }
  }

  /** The library's classification never returns a zone number below 1. */
  lemma ClassifierPositive(math: Math)
    ensures PositiveZones(ZonesProbe.Classifier(math))
  {
    forall m
      ensures ZonesProbe.Classifier(math)(m).Ok? ==> ZonesProbe.Classifier(math)(m).value >= 1
    {
      var res := PointZone(m, math);
    }
  }

  /** LayersProbe(probe, zone_number, qc_max): the probe's layers, or the error that aborts the search. */
  method NewLayersProbe(p: Probe, zoneNumber: int, qcMax: real, math: Math) returns (r: Result<LayersProbe>)
    ensures var cr := Criteria(zoneNumber, qcMax, ZonesProbe.Classifier(math));
            r.Ok? <==> NoFaults(p.measurements, cr) && AllValidLayers(Expected(p.measurements, cr))
    ensures r.Ok? ==> r.value.number == p.number && r.value.zoneNumber == zoneNumber && r.value.qcMax == qcMax
                      && r.value.layers == Expected(p.measurements, Criteria(zoneNumber, qcMax, ZonesProbe.Classifier(math)))
  {
    ClassifierPositive(math);
    var layers := FindLayers(p.measurements, Criteria(zoneNumber, qcMax, ZonesProbe.Classifier(math)));
    if layers.Err? {
      return Err(layers.error);
    }
    return Ok(LayersProbe(p.number, zoneNumber, qcMax, layers.value));
  }

  /** With the default settings the search cannot fail on a classification, and its layers do not depend on it. */
  lemma DefaultSearchIgnoresZones(ms: seq<Measurement>, math: Math, g: Measurement -> Result<int>)
    ensures var cr := Criteria(DefaultZoneNumber, DefaultQcMax, ZonesProbe.Classifier(math));
            NoFaults(ms, cr) && Expected(ms, cr) == Expected(ms, cr.(zone := g))
  {
    ZoneFreeLayers(ms, Criteria(DefaultZoneNumber, DefaultQcMax, ZonesProbe.Classifier(math)), g);
  }
}
