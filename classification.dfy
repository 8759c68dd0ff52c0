/**
 * The per-point soil behaviour type (SBT) classification of the updated
 * Robertson method (2010): friction ratio, SBT index, the zone-number ladder
 * and the zone-number-to-label lookup.
 *
 * log10, sqrt and exp are not modelled numerically: they are the fields of a
 * `Math` value, so every statement here holds for any functions in their place.
 */
module Classification {
  import opened Wrappers
  import opened Measurements

  /** Atmospheric pressure in kPa, the reference stress of the normalisation. */
  const AtmPress: real := 100.0

  /** The functions of Python's math module that the formulas call. */
  datatype Math = Math(log10: real -> real, sqrt: real -> real, exp: real -> real)

  /** sqrt behaves as the non-negative square root on non-negative arguments. */
  ghost predicate IsSqrt(sqrt: real -> real)
  {
    forall x: real {:trigger sqrt(x)} :: 0.0 <= x ==> 0.0 <= sqrt(x) && sqrt(x) * sqrt(x) == x
  }

  /**
   * Friction ratio in percent: fs·100 / (1000·qc). A missing qc or fs raises
   * TypeError (MissingData); qc == 0 raises ZeroDivisionError.
   */
  function FrictionRatio(m: Measurement): (r: Result<real>)
    ensures r == Err(MissingData) <==> m.qc.None? || m.fs.None?
    ensures r == Err(ZeroDivision) <==> m.qc == Some(0.0) && m.fs.Some?
    ensures r.Ok? || r == Err(MissingData) || r == Err(ZeroDivision)
    ensures r.Ok? ==> r.value * (1000.0 * m.qc.value) == m.fs.value * 100.0
  {
    if m.qc.None? || m.fs.None? then Err(MissingData)
    else if m.qc.value == 0.0 then Err(ZeroDivision)
    else
      var qcKPa := 1000.0 * m.qc.value;
      Ok(m.fs.value * 100.0 / qcKPa)
  }

  /** A reading with qc = 2.2 MPa and fs = 30 kPa has friction ratio 15/11 = 1.3636...%. */
  lemma FrictionRatioExample()
    ensures FrictionRatio(Measurement(1.0, Some(2.2), Some(30.0))) == Ok(15.0 / 11.0)
  {
  }

  function Square(x: real): real { x * x }

  /**
   * Non-normalised SBT index: sqrt(a² + b²) with a = 3.47 − log10(qc_kPa / 100)
   * and b = 1.22 + log10(Rf). log10 of a non-positive number raises ValueError
   * (MathDomain).
   */
  function SBTIndex(rf: real, qc: real, math: Math): (r: Result<real>)
    ensures r.Ok? <==> 0.0 < qc && 0.0 < rf
    ensures r.Err? ==> r.error == MathDomain
  {
    var qcKPa := 1000.0 * qc;
    if qcKPa / AtmPress <= 0.0 || rf <= 0.0 then Err(MathDomain)
    else
      var a := 3.47 - math.log10(qcKPa / AtmPress);
      var b := 1.22 + math.log10(rf);
      Ok(math.sqrt(Square(a) + Square(b)))
  }

  /**
   * With a true square root, the SBT index is the distance of the point
   * (log10 Rf, log10 Qt) from the chart's centre (-1.22, 3.47).
   */
  lemma SBTIndexIsDistance(rf: real, qc: real, math: Math)
    requires IsSqrt(math.sqrt)
    requires 0.0 < qc && 0.0 < rf
    ensures SBTIndex(rf, qc, math).Ok?
    ensures var i := SBTIndex(rf, qc, math).value;
            0.0 <= i
            && i * i == Square(3.47 - math.log10(1000.0 * qc / AtmPress)) + Square(1.22 + math.log10(rf))
  {
    var a := 3.47 - math.log10(1000.0 * qc / AtmPress);
    var b := 1.22 + math.log10(rf);
    assert 0.0 <= Square(a) + Square(b);
  }

  /** Denominator of the zone 8/9 boundary: 0.006(Rf−0.9) − 0.004(Rf−0.9)² − 0.005. */
  function ThresholdDenominator(rf: real): (den: real)
    ensures den <= -0.00275
  {
    var x := rf - 0.9;
    assert 0.006 * x - 0.004 * x * x - 0.005 == -0.00275 - 0.004 * (x - 0.75) * (x - 0.75);
    0.006 * x - 0.004 * x * x - 0.005
  }

  /** The zone 8/9 boundary as written: its denominator never vanishes, so it is always negative. */
  function Threshold(rf: real): (t: real)
    ensures t < 0.0
  {
    1.0 / ThresholdDenominator(rf)
  }

  /**
   * Zone number by the first matching rule of the ladder (zone_number):
   * 9 and 8 by friction ratio and the threshold, 1 below 12·exp(−1.4·Rf),
   * then 2..7 by bands of the SBT index.
   */
  function ZoneNumber(rf: real, qc: real, sbtIndex: real, math: Math): (z: int)
    ensures 1 <= z <= 9
    ensures z == 9 ==> 4.5 < rf
    ensures z == 8 ==> 1.5 < rf <= 4.5
  {
    var qcKPa := 1000.0 * qc;
    var threshold := Threshold(rf);
    if rf > 4.5 && qcKPa / AtmPress >= threshold then 9
    else if rf > 1.5 && rf <= 4.5 && qcKPa / AtmPress >= threshold then 8
    else if qcKPa / AtmPress < 12.0 * math.exp(-1.4 * rf) then 1
    else if sbtIndex > 3.6 then 2
    else if sbtIndex > 2.95 then 3
    else if sbtIndex > 2.6 then 4
    else if sbtIndex > 2.05 then 5
    else if sbtIndex > 1.31 then 6
    else 7
  }

  /**
   * Because the threshold is negative, the qc condition of rules 9 and 8 holds
   * for every non-negative qc: zones 9 and 8 are decided by Rf alone.
   */
  lemma HighFrictionZones(rf: real, qc: real, sbtIndex: real, math: Math)
    requires 0.0 <= qc
    ensures 4.5 < rf ==> ZoneNumber(rf, qc, sbtIndex, math) == 9
    ensures 1.5 < rf <= 4.5 ==> ZoneNumber(rf, qc, sbtIndex, math) == 8
    ensures rf <= 1.5 ==> ZoneNumber(rf, qc, sbtIndex, math) <= 7
  {
  }

  /** Lower bounds of the SBT index bands of zones 2, 3, 4, 5 and 6 (zone 7 has none). */
  const BandBounds: seq<real> := [3.6, 2.95, 2.6, 2.05, 1.31]

  /** How many of the bounds lie at or above `index`. */
  function CountAtOrAbove(bounds: seq<real>, index: real): (k: nat)
    ensures k <= |bounds|
  {
    if |bounds| == 0 then 0
    else (if index <= bounds[0] then 1 else 0) + CountAtOrAbove(bounds[1..], index)
  }

  /**
   * Reference definition of the band rules: an index above the first k bounds
   * but not above bound k falls in zone 2 + k, counted against descending bounds.
   */
  function BandZone(sbtIndex: real): int
  {
    2 + CountAtOrAbove(BandBounds, sbtIndex)
  }

  /** Raising the index never raises the count of bounds at or above it. */
  lemma {:induction false} CountAtOrAboveMonotone(bounds: seq<real>, i1: real, i2: real)
    requires i1 <= i2
    ensures CountAtOrAbove(bounds, i2) <= CountAtOrAbove(bounds, i1)
  {
    if |bounds| > 0 {
      CountAtOrAboveMonotone(bounds[1..], i1, i2);
    }
  }

  /**
   * The ladder, rule by rule: 9, 8 and 1 exactly under their own conditions
   * (each after the earlier ones failed), otherwise the band zone of the index.
   */
  lemma ZoneNumberLadder(rf: real, qc: real, sbtIndex: real, math: Math)
    ensures var z := ZoneNumber(rf, qc, sbtIndex, math);
            var v := 1000.0 * qc / AtmPress;
            var gate9 := rf > 4.5 && v >= Threshold(rf);
            var gate8 := 1.5 < rf <= 4.5 && v >= Threshold(rf);
            var gate1 := v < 12.0 * math.exp(-1.4 * rf);
            (z == 9 <==> gate9)
            && (z == 8 <==> !gate9 && gate8)
            && (z == 1 <==> !gate9 && !gate8 && gate1)
            && (!gate9 && !gate8 && !gate1 ==> z == BandZone(sbtIndex))
  {
    var i := sbtIndex;
    var b := BandBounds;
    assert b[1..][1..][1..][1..][1..] == [];
    assert CountAtOrAbove([1.31], i) == if i <= 1.31 then 1 else 0;
    assert b[1..][1..][1..][1..] == [1.31];
    assert CountAtOrAbove([2.05, 1.31], i) == (if i <= 2.05 then 1 else 0) + CountAtOrAbove([1.31], i);
    assert b[1..][1..][1..] == [2.05, 1.31];
    assert CountAtOrAbove([2.6, 2.05, 1.31], i) == (if i <= 2.6 then 1 else 0) + CountAtOrAbove([2.05, 1.31], i);
    assert b[1..][1..] == [2.6, 2.05, 1.31];
    assert CountAtOrAbove([2.95, 2.6, 2.05, 1.31], i) == (if i <= 2.95 then 1 else 0) + CountAtOrAbove([2.6, 2.05, 1.31], i);
    assert b[1..] == [2.95, 2.6, 2.05, 1.31];
    assert CountAtOrAbove(b, i) == (if i <= 3.6 then 1 else 0) + CountAtOrAbove([2.95, 2.6, 2.05, 1.31], i);
  }

  /**
   * Once rules 9, 8 and 1 do not apply, the zone number is non-increasing in
   * the SBT index.
   */
  lemma ZoneNumberMonotoneInIndex(rf: real, qc: real, i1: real, i2: real, math: Math)
    requires i1 <= i2
    ensures ZoneNumber(rf, qc, i2, math) <= ZoneNumber(rf, qc, i1, math)
            || ZoneNumber(rf, qc, i1, math) in {1, 8, 9}
  {
    ZoneNumberLadder(rf, qc, i1, math);
    ZoneNumberLadder(rf, qc, i2, math);
    CountAtOrAboveMonotone(BandBounds, i1, i2);
  }

  /**
   * The fixture reading of zone 4: Rf = 15/11 and SBT index 2.8659...; given
   * that exp(−1.4·Rf) is below 1 (the exponent is negative), the ladder gives 4.
   */
  lemma ZoneFourExample(math: Math)
    requires math.exp(-1.4 * (15.0 / 11.0)) < 1.0
    ensures ZoneNumber(15.0 / 11.0, 2.2, 2.8659110243323247, math) == 4
  {
    var rf := 15.0 / 11.0;
    assert 1000.0 * 2.2 / AtmPress == 22.0;
    assert 12.0 * math.exp(-1.4 * rf) < 12.0;
  }

  /** The ten soil behaviour types, indexed by zone number. */
  const SoilTypes: seq<string> := [
    "Unknown", "Sensitive Fine-Grained", "Organic Soils", "Clays",
    "Silt Mixtures", "Sand Mixtures", "Sands",
    "Gravelly to Dense Sand", "Stiff Sand to Clayed Sand",
    "Stiff Fine-Grained"]

  /** SBT: the label of a zone number; any key outside 0..9 raises KeyError (UnknownZone). */
  function SBT(zoneNumber: int): (r: Result<string>)
    ensures r.Ok? <==> 0 <= zoneNumber <= 9
    ensures r.Err? ==> r.error == UnknownZone
    ensures r.Ok? ==> r.value in SoilTypes
  {
    if 0 <= zoneNumber < |SoilTypes| then Ok(SoilTypes[zoneNumber]) else Err(UnknownZone)
  }

  /** The ten labels are pairwise distinct, so SBT is one-to-one on 0..9. */
  lemma SBTInjective(a: int, b: int)
    requires SBT(a).Ok? && SBT(b).Ok?
    ensures SBT(a) == SBT(b) <==> a == b
  {
    // Length, first and second letter tell the ten labels apart.
    assert |SoilTypes[0]| == 7 && |SoilTypes[1]| == 22 && |SoilTypes[2]| == 13 && |SoilTypes[3]| == 5;
    assert |SoilTypes[4]| == 13 && |SoilTypes[5]| == 13 && |SoilTypes[6]| == 5 && |SoilTypes[7]| == 22;
    assert |SoilTypes[8]| == 25 && |SoilTypes[9]| == 18;
    assert SoilTypes[1][0] == 'S' && SoilTypes[7][0] == 'G';
    assert SoilTypes[2][0] == 'O' && SoilTypes[4][1] == 'i' && SoilTypes[5][1] == 'a';
    assert SoilTypes[3][0] == 'C' && SoilTypes[6][0] == 'S';
  }

  /** The labels of the fixture zones. */
  lemma SBTExamples()
    ensures SBT(0) == Ok("Unknown") && SBT(3) == Ok("Clays") && SBT(4) == Ok("Silt Mixtures")
    ensures SBT(5) == Ok("Sand Mixtures") && SBT(6) == Ok("Sands")
    ensures SBT(8) == Ok("Stiff Sand to Clayed Sand") && SBT(9) == Ok("Stiff Fine-Grained")
    ensures SBT(10) == Err(UnknownZone) && SBT(-1) == Err(UnknownZone)
  {
  }

  /**
   * The whole per-point classification: friction ratio, then SBT index, then
   * the ladder. Missing data, qc == 0 and log-domain failures are its errors.
   */
  function PointZone(m: Measurement, math: Math): (r: Result<int>)
    ensures r.Ok? ==> 1 <= r.value <= 9
    ensures r == Err(MissingData) <==> m.qc.None? || m.fs.None?
    ensures r == Err(ZeroDivision) <==> m.qc == Some(0.0) && m.fs.Some?
    ensures r.Ok? <==> m.qc.Some? && m.fs.Some? && 0.0 < m.qc.value && 0.0 < m.fs.value
    ensures r.Err? ==> r.error in {MissingData, ZeroDivision, MathDomain}
  {
    match FrictionRatio(m)
    case Err(e) => Err(e)
    case Ok(rf) =>
      SignOfRatio(rf, m.qc.value, m.fs.value);
      match SBTIndex(rf, m.qc.value, math)
      case Err(e) => Err(e)
      case Ok(index) => Ok(ZoneNumber(rf, m.qc.value, index, math))
  }

  /** For qc > 0 the friction ratio is positive exactly when fs is. */
  lemma SignOfRatio(rf: real, qc: real, fs: real)
    requires qc != 0.0
    requires rf * (1000.0 * qc) == fs * 100.0
    ensures 0.0 < qc ==> (0.0 < rf <==> 0.0 < fs)
  {
    if 0.0 < qc {
      if 0.0 < rf {
        assert 0.0 < rf * (1000.0 * qc);
      } else {
        assert rf * (1000.0 * qc) <= 0.0;
      }
    }
  }
}
