/**
 * ZonesProbe: the soil behaviour types of one probe, as a list of zones.
 *
 * The classification pass walks the depth-sorted measurements once. Each point
 * gets a code (its zone number, 0 when qc or fs is missing); a zone is a
 * maximal run of equal codes. Boundaries between zones lie halfway between
 * consecutive depths; the first top is extrapolated half a spacing above the
 * first point, and the last bottom half a spacing below the last point (or
 * mirrored around it when the zone only starts there).
 *
 * The pass is proved against SpecZones, which builds the same zones from the
 * maximal runs of the codes (Runs.RunsOf).
 */
module ZonesProbe {
  import opened Wrappers
  import opened Measurements
  import opened Segment
  import opened Classification
  import opened Runs

  /** The classified zones of one probe. */
  datatype ZonesProbe = ZonesProbe(number: string, zones: seq<Zone>)
  {
    function Length(): nat { |zones| }
  }

  // ---------- per-point codes ----------

  /**
   * The zone number the pass assigns to a point: a missing qc or fs gives 0;
   * an uncaught error leaves the initial -1 in place while the rest of the
   * step still runs.
   */
  function PointCode(res: Result<int>): int
  {
    match res
    case Ok(z) => z
    case Err(MissingData) => 0
    case Err(_) => -1
  }

  /** An error the pass does not catch: it aborts the whole classification. */
  predicate Faulty(res: Result<int>)
  {
    res.Err? && res.error != MissingData
  }

  /** The codes of all points, in series order, under the per-point classifier f. */
  function Codes(ms: seq<Measurement>, f: Measurement -> Result<int>): (c: seq<int>)
    ensures |c| == |ms|
    ensures forall k :: 0 <= k < |ms| ==> c[k] == PointCode(f(ms[k]))
  {
    seq(|ms|, k requires 0 <= k < |ms| => PointCode(f(ms[k])))
  }

  /** No point raises an error that the pass lets through. */
  predicate NoFault(ms: seq<Measurement>, f: Measurement -> Result<int>)
  {
    forall k :: 0 <= k < |ms| ==> !Faulty(f(ms[k]))
  }

  /** The library's classifier: friction ratio, SBT index and zone ladder of one point. */
  function Classifier(math: Math): Measurement -> Result<int>
  {
    m => PointZone(m, math)
  }

  /** Under the library's classifier and without uncaught errors, every code is a zone number in 0..9, and 0 exactly for missing data. */
  lemma CodesInRange(ms: seq<Measurement>, math: Math)
    requires NoFault(ms, Classifier(math))
    ensures forall k :: 0 <= k < |ms| ==> 0 <= Codes(ms, Classifier(math))[k] <= 9
    ensures forall k :: 0 <= k < |ms| ==> (Codes(ms, Classifier(math))[k] == 0 <==> ms[k].qc.None? || ms[k].fs.None?)
  {
  }

  // ---------- the reference zones ----------

  /** The first zone's top: half a spacing above the first point, or the point itself when it is alone. */
  function FirstTop(d: seq<real>): real
    requires |d| >= 1
  {
    if |d| == 1 then d[0] else d[0] - 0.5 * (d[1] - d[0])
  }

  /** The top of the run that starts at point s. */
  function RunTop(d: seq<real>, s: nat): real
    requires s < |d|
  {
    if s == 0 then FirstTop(d) else Mid(d[s - 1], d[s])
  }

  /**
   * The bottom of the last zone, whose top is `top`: mirrored around the last
   * depth when the previous boundary equals the top, half a spacing below it
   * otherwise. The previous boundary is the midpoint when the code changes at
   * the last point, the previous depth when it does not, and 0 for a single point.
   */
  function FinalBottom(d: seq<real>, c: seq<int>, top: real): real
    requires |d| == |c| >= 1
  {
    var n := |d|;
    var prev := PreviousBoundary(d, c);
    if top == prev then 2.0 * d[n - 1] - top else d[n - 1] + 0.5 * (d[n - 1] - prev)
  }

  /** The boundary the pass holds when it reaches the last point, before closing the last zone. */
  function PreviousBoundary(d: seq<real>, c: seq<int>): real
    requires |d| == |c| >= 1
  {
    var n := |d|;
    if n >= 2 && c[n - 1] != c[n - 2] then Mid(d[n - 2], d[n - 1])
    else if n >= 2 then d[n - 2]
    else 0.0
  }

  /** The zone of one run of codes. */
  function ZoneOfRun(d: seq<real>, c: seq<int>, r: Run): Zone
    requires |d| == |c| && r.start < r.end <= |d|
  {
    var top := RunTop(d, r.start);
    Zone(c[r.start], Layer(top, if r.end < |d| then Mid(d[r.end - 1], d[r.end]) else FinalBottom(d, c, top)))
  }

  /** The zones of depths d and codes c: one per maximal run of equal codes. */
  function SpecZones(d: seq<real>, c: seq<int>): (zs: seq<Zone>)
    requires |d| == |c|
    ensures |zs| == |RunsOf(c)|
  {
    var R := RunsOf(c);
    RunsOfDecomposes(c);
    seq(|R|, i requires 0 <= i < |R| => ZoneOfRun(d, c, R[i]))
  }

  predicate AllValid(zs: seq<Zone>)
  {
    forall i :: 0 <= i < |zs| ==> zs[i].Valid()
  }

  // ---------- the pass ----------

  /**
   * What the pass knows after its first k points: the zones appended so far
   * are the first reference zones, all valid; while points remain, point k - 1
   * lies in the run of the next zone, `current` is its code, `end` its depth
   * and `start` the top of its zone (the first depth itself until the second
   * point extrapolates it); after the last point every zone is there.
   */
  ghost predicate Tracking(d: seq<real>, c: seq<int>, k: nat, zones: seq<Zone>, current: int, start: real, end: real)
    requires |d| == |c| && k <= |c|
  {
    var R := RunsOf(c);
    && AllValid(zones)
    && |zones| <= |R| && zones == SpecZones(d, c)[..|zones|]
    && (k == 0 ==> zones == [] && end == 0.0)
    && (k == |c| ==> |zones| == |R|)
    && (0 < k < |c| ==>
          && |zones| < |R| && R[|zones|].start <= k - 1 < R[|zones|].end
          && current == c[k - 1] && end == d[k - 1]
          && start == if k == 1 then d[0] else RunTop(d, R[|zones|].start))
  }

  /**
   * The classification pass, for any per-point classifier f (the library's is
   * Classifier(math)). It succeeds exactly when no point raises an
   * uncaught error and every zone is a valid segment, and then yields the
   * reference zones; otherwise it reports an error that one of them raises.
   */
  method Classify(ms: seq<Measurement>, f: Measurement -> Result<int>) returns (r: Result<seq<Zone>>)
    ensures r.Ok? <==> NoFault(ms, f) && AllValid(SpecZones(Depths(ms), Codes(ms, f)))
    ensures r.Ok? ==> r.value == SpecZones(Depths(ms), Codes(ms, f))
    ensures r.Err? ==> r.error == InvalidSegment
                       || exists k :: 0 <= k < |ms| && Faulty(f(ms[k])) && f(ms[k]).error == r.error
  {
    ghost var d := Depths(ms);
    ghost var c := Codes(ms, f);
    ghost var faults := seq(|ms|, i requires 0 <= i < |ms| => Faulty(f(ms[i])));
    var n := |ms|;
    var zones: seq<Zone> := [];
    var current := -1;
    var start := 0.0;
    var end := 0.0;
    var k := 0;
    while k < n
      invariant 0 <= k <= n
      invariant forall i :: 0 <= i < k ==> !faults[i]
      invariant Tracking(d, c, k, zones, current, start, end)
    {
      var m := ms[k];
      var stepped;
      stepped, current, start, end := PointStep(d, c, n, k, m.depth, f(m), zones, current, start, end);
      if stepped.Err? {
        return Err(stepped.error);
      }
      zones := stepped.value;
      k := k + 1;
    }
    TrackingComplete(d, c, zones, current, start, end);
    assert NoFault(ms, f) by {
      forall i | 0 <= i < n
        ensures !Faulty(f(ms[i]))
      {
        assert !faults[i];
      }
    }
    return Ok(zones);
  }

  /**
   * One point of the pass given the outcome res of its classification: the
   * zone step runs in any case, then an error the pass lets through aborts it.
   */
  method PointStep(ghost d: seq<real>, ghost c: seq<int>, n: nat, k: nat, depth: real, res: Result<int>,
                   zones: seq<Zone>, current: int, start: real, end: real)
    returns (r: Result<seq<Zone>>, current': int, start': real, end': real)
    requires |d| == |c| == n && k < n && depth == d[k] && PointCode(res) == c[k]
    requires Tracking(d, c, k, zones, current, start, end)
    ensures r.Ok? ==> !Faulty(res) && Tracking(d, c, k + 1, r.value, current', start', end')
    ensures r.Err? ==> (r.error == InvalidSegment && !AllValid(SpecZones(d, c))) || (Faulty(res) && r.error == res.error)
  {
    r, current', start', end' := ZoneStep(d, c, n, k, depth, PointCode(res), zones, current, start, end);
    if r.Ok? && Faulty(res) {
      r := Err(res.error);
    }
  }

  /** After the last point the pass holds exactly the reference zones, all valid. */
  lemma TrackingComplete(d: seq<real>, c: seq<int>, zones: seq<Zone>, current: int, start: real, end: real)
    requires |d| == |c| && Tracking(d, c, |c|, zones, current, start, end)
    ensures zones == SpecZones(d, c) && AllValid(SpecZones(d, c))
  {
  }

  /**
   * One point of the pass, the part that runs whether or not the point's
   * classification raised: the first point opens the first zone, the second
   * extrapolates its top, a change of code closes the current zone at the
   * midpoint and opens the next, and the last point closes the zone it is in.
   */
  method ZoneStep(ghost d: seq<real>, ghost c: seq<int>, n: nat, k: nat, depth: real, code: int,
                  zones: seq<Zone>, current: int, start: real, end: real)
    returns (r: Result<seq<Zone>>, current': int, start': real, end': real)
    requires |d| == |c| == n && k < n && depth == d[k] && code == c[k]
    requires Tracking(d, c, k, zones, current, start, end)
    ensures r.Ok? ==> Tracking(d, c, k + 1, r.value, current', start', end')
    ensures r.Err? ==> r.error == InvalidSegment && !AllValid(SpecZones(d, c))
  {
    ghost var R := RunsOf(c);
    ghost var spec := SpecZones(d, c);
    var zs := zones;
    current', start', end' := current, start, end;
    ghost var j := |zs|;
    if k == 0 {
      current' := code;
      start' := depth;
      FirstRun(c);
    } else if k == 1 {
      start' := start' - 0.5 * (depth - start');
    }
    if current' != code {
      // the run of point k - 1 ends here, and point k opens the next one
      assert start' == RunTop(d, R[j].start);
      ClosedZone(d, c, j, k);
      end' := 0.5 * (end' + depth);
      var appended := AppendZone(spec, zs, current', start', end');
      if appended.Err? {
        return Err(appended.error), current', start', end';
      }
      zs := appended.value;
      current' := code;
      start' := end';
      j := j + 1;
    } else if k > 0 {
      ZoneGoesOn(c, j, k);
    }
    if k == n - 1 {
      // the last point: close the zone it belongs to
      assert start' == RunTop(d, R[j].start);
      assert end' == PreviousBoundary(d, c);
      FinalZone(d, c, j);
      end' := if start' == end' then 2.0 * depth - start' else depth + 0.5 * (depth - end');
      var appended := AppendZone(spec, zs, current', start', end');
      if appended.Err? {
        return Err(appended.error), current', start', end';
      }
      zs := appended.value;
    }
    end' := depth;
    return Ok(zs), current', start', end';
  }

  /** Zone(number, top, bottom) appended to the zones found so far, which are a prefix of spec. */
  method AppendZone(ghost spec: seq<Zone>, zones: seq<Zone>, number: int, top: real, bottom: real)
    returns (r: Result<seq<Zone>>)
    requires |zones| < |spec| && zones == spec[..|zones|] && AllValid(zones)
    requires spec[|zones|] == Zone(number, Layer(top, bottom))
    ensures r.Ok? <==> spec[|zones|].Valid()
    ensures r.Ok? ==> r.value == spec[..|zones| + 1] && AllValid(r.value)
    ensures r.Err? ==> r.error == InvalidSegment && !AllValid(spec)
  {
    var z := MakeZone(number, top, bottom);
    if z.Err? {
      return Err(z.error);
    }
    PrefixGrows(spec, zones, z.value);
    return Ok(zones + [z.value]);
  }

  /** Appending the next element of s to a prefix of s gives the next prefix. */
  lemma PrefixGrows<T>(s: seq<T>, p: seq<T>, x: T)
    requires |p| < |s| && p == s[..|p|] && x == s[|p|]
    ensures p + [x] == s[..|p| + 1]
  {
  }

  /** A change of code between points k - 1 and k ends the run of point k - 1 at k. */
  lemma ZoneEndsAtChange(c: seq<int>, R: seq<Run>, j: nat, k: nat)
    requires IsRunDecomposition(c, R)
    requires 0 < k < |c| && j < |R| && R[j].start <= k - 1 < R[j].end
    requires c[k] != c[k - 1]
    ensures R[j].end == k && j + 1 < |R| && R[j + 1].start == k && k < R[j + 1].end
  {
    assert j != |R| - 1;
    assert R[j].end == R[j + 1].start;
  }

  /** No change of code between points k - 1 and k keeps point k in the same run. */
  lemma ZoneGoesOn(c: seq<int>, j: nat, k: nat)
    requires 0 < k < |c| && j < |RunsOf(c)| && RunsOf(c)[j].start <= k - 1 < RunsOf(c)[j].end
    requires c[k] == c[k - 1]
    ensures RunsOf(c)[j].start <= k < RunsOf(c)[j].end
  {
    RunsOfDecomposes(c);
  }

  /** The first point lies in the first run. */
  lemma FirstRun(c: seq<int>)
    requires |c| >= 1
    ensures |RunsOf(c)| > 0 && RunsOf(c)[0].start == 0 < RunsOf(c)[0].end
  {
    RunsOfDecomposes(c);
  }

  /** The zone closed by a change at point k: numbered by point k - 1, ending at the midpoint before k. */
  lemma ClosedZone(d: seq<real>, c: seq<int>, j: nat, k: nat)
    requires |d| == |c| && 0 < k < |c|
    requires j < |RunsOf(c)| && RunsOf(c)[j].start <= k - 1 < RunsOf(c)[j].end
    requires c[k] != c[k - 1]
    ensures j + 1 < |RunsOf(c)| && RunsOf(c)[j + 1].start == k && k < RunsOf(c)[j + 1].end
    ensures RunTop(d, RunsOf(c)[j + 1].start) == Mid(d[k - 1], d[k])
    ensures SpecZones(d, c)[j] == Zone(c[k - 1], Layer(RunTop(d, RunsOf(c)[j].start), Mid(d[k - 1], d[k])))
  {
    var R := RunsOf(c);
    RunsOfDecomposes(c);
    ZoneEndsAtChange(c, R, j, k);
  }

  /** The zone of the last point is the last zone, and closes with FinalBottom. */
  lemma FinalZone(d: seq<real>, c: seq<int>, j: nat)
    requires |d| == |c| >= 1
    requires j < |RunsOf(c)| && RunsOf(c)[j].start <= |c| - 1 < RunsOf(c)[j].end
    ensures j == |RunsOf(c)| - 1
    ensures var top := RunTop(d, RunsOf(c)[j].start);
            SpecZones(d, c)[j] == Zone(c[|c| - 1], Layer(top, FinalBottom(d, c, top)))
  {
    var R := RunsOf(c);
    RunsOfDecomposes(c);
    LastRun(c, R, j);
  }

  /** The run of the last point is the last run. */
  lemma LastRun(c: seq<int>, R: seq<Run>, j: nat)
    requires IsRunDecomposition(c, R)
    requires j < |R| && R[j].start <= |c| - 1 < R[j].end
    ensures j == |R| - 1 && R[j].end == |c|
  {
    RunsOrdered(c, R);
  }

  // ---------- properties of the reference zones ----------

  /** Zones are contiguous: each zone's bottom is the next zone's top, the midpoint of the two points around the change. */
  lemma ZonesContiguous(d: seq<real>, c: seq<int>)
    requires |d| == |c|
    ensures var zs := SpecZones(d, c);
            forall i :: 0 <= i < |zs| - 1 ==> zs[i].Bottom() == zs[i + 1].Top()
  {
    var R := RunsOf(c);
    var zs := SpecZones(d, c);
    RunsOfDecomposes(c);
    forall i | 0 <= i < |zs| - 1
      ensures zs[i].Bottom() == zs[i + 1].Top()
    {
      assert R[i].end == R[i + 1].start < R[i + 1].end <= |d|;
      var k := R[i].end;
      assert zs[i] == ZoneOfRun(d, c, R[i]) && zs[i + 1] == ZoneOfRun(d, c, R[i + 1]);
      assert zs[i].Bottom() == Mid(d[k - 1], d[k]) == zs[i + 1].Top();
    }
  }

  /** Adjacent zones always carry different zone numbers. */
  lemma AdjacentZonesDiffer(d: seq<real>, c: seq<int>)
    requires |d| == |c|
    ensures var zs := SpecZones(d, c);
            forall i :: 0 <= i < |zs| - 1 ==> zs[i].number != zs[i + 1].number
  {
    var R := RunsOf(c);
    var zs := SpecZones(d, c);
    RunsOfDecomposes(c);
    forall i | 0 <= i < |zs| - 1
      ensures zs[i].number != zs[i + 1].number
    {
      assert R[i].end == R[i + 1].start < R[i + 1].end <= |d|;
      assert c[R[i].end] != c[R[i].start];
    }
  }

  /** A non-empty probe has one zone per change of code, plus one. */
  lemma ZoneCount(d: seq<real>, c: seq<int>)
    requires |d| == |c| >= 1
    ensures |SpecZones(d, c)| == ChangeCount(c) + 1
  {
    RunsCount(c);
  }

  /** The first zone starts at the extrapolated first top; a top above the surface makes the classification fail. */
  lemma FirstZoneTop(d: seq<real>, c: seq<int>)
    requires |d| == |c| >= 1
    ensures |SpecZones(d, c)| >= 1 && SpecZones(d, c)[0].Top() == FirstTop(d)
    ensures |d| >= 2 ==> SpecZones(d, c)[0].Top() == d[0] - 0.5 * (d[1] - d[0])
    ensures FirstTop(d) < 0.0 ==> !AllValid(SpecZones(d, c))
  {
    FirstRun(c);
  }

  /** A single point at depth x makes one zone from x down to 1.5 x. */
  lemma SinglePointZone(x: real, code: int)
    ensures SpecZones([x], [code]) == [Zone(code, Layer(x, 1.5 * x))]
  {
    var c := [code];
    assert c[..0] == [];
    assert RunsOf(c) == [Run(0, 1)];
  }

  /**
   * With depths in order and the first depth not above the surface, each
   * zone spans the points of its run: its top is at or above the first of
   * them and its bottom at or below the last.
   */
  lemma ZoneBrackets(d: seq<real>, c: seq<int>, i: nat)
    requires |d| == |c| >= 1 && Ascending(d) && 0.0 <= d[0]
    requires i < |RunsOf(c)|
    ensures RunsOf(c)[i].start < RunsOf(c)[i].end <= |d|
    ensures SpecZones(d, c)[i].Top() <= d[RunsOf(c)[i].start]
    ensures d[RunsOf(c)[i].end - 1] <= SpecZones(d, c)[i].Bottom()
    ensures FirstTop(d) <= SpecZones(d, c)[i].Top()
  {
    var R := RunsOf(c);
    RunsOfDecomposes(c);
    var n := |d|;
    var s, e := R[i].start, R[i].end;
    assert n >= 2 ==> d[0] <= d[1];
    assert d[0] <= d[s] <= d[e - 1] <= d[n - 1];
    assert s > 0 ==> d[s - 1] <= d[s];
    assert e < n ==> d[e - 1] <= d[e];
    assert n >= 2 ==> d[n - 2] <= d[n - 1];
  }

  /** Every point lies inside a zone that carries the point's own code. */
  lemma PointInItsZone(d: seq<real>, c: seq<int>, k: nat)
    requires |d| == |c| >= 1 && Ascending(d) && 0.0 <= d[0]
    requires k < |d|
    ensures var zs := SpecZones(d, c);
            exists i :: 0 <= i < |zs| && zs[i].number == c[k] && zs[i].Top() <= d[k] <= zs[i].Bottom()
  {
    var R := RunsOf(c);
    RunsOfDecomposes(c);
    var i := RunContaining(c, R, k);
    ZoneBrackets(d, c, i);
    assert d[R[i].start] <= d[k] <= d[R[i].end - 1];
  }

  /** With depths in order and a first top not above the surface, every zone is a valid segment, so the pass cannot fail on one. */
  lemma ZonesValid(d: seq<real>, c: seq<int>)
    requires |d| == |c| >= 1 && Ascending(d) && 0.0 <= FirstTop(d)
    ensures AllValid(SpecZones(d, c))
  {
    var zs := SpecZones(d, c);
    assert |d| >= 2 ==> d[0] <= d[1];
    forall i | 0 <= i < |zs|
      ensures zs[i].Valid()
    {
      ZoneBrackets(d, c, i);
      RunsOfDecomposes(c);
      assert d[RunsOf(c)[i].start] <= d[RunsOf(c)[i].end - 1];
    }
  }

  /**
   * With strictly increasing depths the mirror branch agrees with the
   * half-spacing rule: the last bottom always lies half a spacing below the
   * last point.
   */
  lemma LastBottomHalfSpacing(d: seq<real>, c: seq<int>)
    requires |d| == |c| >= 2 && StrictlyAscending(d)
    ensures var zs := SpecZones(d, c);
            zs[|zs| - 1].Bottom() == d[|d| - 1] + 0.5 * (d[|d| - 1] - d[|d| - 2])
  {
    var R := RunsOf(c);
    RunsOfDecomposes(c);
    var n := |d|;
    var last := |R| - 1;
    var s := R[last].start;
    assert s <= n - 2 ==> c[n - 2] == c[s] && c[n - 1] == c[s];
    assert s == n - 1 ==> last > 0 && R[last - 1].end == n - 1 && R[last - 1].start <= n - 2;
    assert s == n - 1 ==> c[n - 2] == c[R[last - 1].start] != c[n - 1];
    assert d[0] < d[1];
    assert s > 0 ==> d[s - 1] < d[s];
    assert s <= n - 2 ==> d[s] <= d[n - 2];
  }

  /**
   * With a repeated depth the mirror branch also fires when the last zone did
   * not start at the last point: depths 1, 1, 3 with codes 1, 2, 2 give a last
   * zone from 1 down to 5, where the half-spacing rule would give 4.
   */
  lemma MirrorWithRepeatedDepth()
    ensures SpecZones([1.0, 1.0, 3.0], [1, 2, 2]) == [Zone(1, Layer(1.0, 1.0)), Zone(2, Layer(1.0, 5.0))]
  {
    var c := [1, 2, 2];
    assert [1][..0] == [];
    assert RunsOf([1]) == [Run(0, 1)];
    assert [1, 2][..1] == [1];
    assert RunsOf([1, 2]) == [Run(0, 1), Run(1, 2)];
    assert c[..2] == [1, 2];
    assert RunsOf(c) == [Run(0, 1), Run(1, 3)];
  }

  // ---------- the probe object ----------

  /** ZonesProbe(probe): the probe's number and its classified zones, or the error that aborts the classification. */
  method NewZonesProbe(p: Probe, math: Math) returns (r: Result<ZonesProbe>)
    ensures var f := Classifier(math);
            r.Ok? <==> NoFault(p.measurements, f) && AllValid(SpecZones(Depths(p.measurements), Codes(p.measurements, f)))
    ensures r.Ok? ==> r.value.number == p.number
                      && r.value.zones == SpecZones(Depths(p.measurements), Codes(p.measurements, Classifier(math)))
  {
    var zones := Classify(p.measurements, Classifier(math));
    if zones.Err? {
      return Err(zones.error);
    }
    return Ok(ZonesProbe(p.number, zones.value));
  }

  /** The zones of a classified probe all carry zone numbers in 0..9. */
  lemma ClassifiedNumbersInRange(ms: seq<Measurement>, math: Math)
    requires NoFault(ms, Classifier(math))
    ensures var zs := SpecZones(Depths(ms), Codes(ms, Classifier(math)));
            forall i :: 0 <= i < |zs| ==> 0 <= zs[i].number <= 9
  {
    CodesInRange(ms, math);
    RunsOfDecomposes(Codes(ms, Classifier(math)));
  }

  /** The soil behaviour types of the zones: the labels of their numbers, without "Unknown". */
  method GetSBTs(zones: seq<Zone>) returns (r: Result<set<string>>)
    ensures r.Ok? <==> forall i :: 0 <= i < |zones| ==> 0 <= zones[i].number <= 9
    ensures r.Err? ==> r.error == UnknownZone
    ensures r.Ok? ==> forall s :: s in r.value <==>
                        exists i :: 0 <= i < |zones| && 1 <= zones[i].number <= 9 && s == SoilTypes[zones[i].number]
  {
    var labels: seq<string> := [];
    for i := 0 to |zones|
      invariant forall t :: 0 <= t < i ==> 0 <= zones[t].number <= 9
      invariant |labels| == i
      invariant forall t :: 0 <= t < i ==> labels[t] == SoilTypes[zones[t].number]
    {
      var sbt := SBT(zones[i].number);
      if sbt.Err? {
        return Err(sbt.error);
      }
      labels := labels + [sbt.value];
    }
    var found := set s | s in labels;
    r := Ok(found - {"Unknown"});
    forall s | s in r.value
      ensures exists i :: 0 <= i < |zones| && 1 <= zones[i].number <= 9 && s == SoilTypes[zones[i].number]
    {
      var t :| 0 <= t < |labels| && labels[t] == s;
      UnknownOnlyAtZero(zones[t].number);
    }
    forall i | 0 <= i < |zones| && 1 <= zones[i].number <= 9
      ensures SoilTypes[zones[i].number] in r.value
    {
      UnknownOnlyAtZero(zones[i].number);
      assert labels[i] in found;
    }
  }

  /** "Unknown" is the label of zone 0 and of no other zone. */
  lemma UnknownOnlyAtZero(n: int)
    requires 0 <= n <= 9
    ensures SoilTypes[n] == "Unknown" <==> n == 0
  {
    SBTInjective(n, 0);
  }

  /** A classified probe always has its soil behaviour types. */
  lemma ClassifiedProbeHasSBTs(ms: seq<Measurement>, math: Math)
    requires NoFault(ms, Classifier(math))
    ensures var zs := SpecZones(Depths(ms), Codes(ms, Classifier(math)));
            forall i :: 0 <= i < |zs| ==> SBT(zs[i].number).Ok?
  {
    ClassifiedNumbersInRange(ms, math);
  }
}
