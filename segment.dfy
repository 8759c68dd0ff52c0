/**
 * Layer and Zone: depth intervals of the soil, validated on construction and
 * compared by thickness only (never by position).
 */
module Segment {
  import opened Wrappers

  /** A vertical segment of the soil from depth `top` down to depth `bottom`. */
  datatype Layer = Layer(top: real, bottom: real) {
    /** What Layer's constructor guarantees of every layer it lets through. */
    predicate Valid() { 0.0 <= top && top <= bottom }

    function Thickness(): real { bottom - top }
  }

  /** A layer of one soil behaviour type: the Zone subclass, as composition. */
  datatype Zone = Zone(number: int, layer: Layer) {
    predicate Valid() { layer.Valid() }
    function Top(): real { layer.top }
    function Bottom(): real { layer.bottom }
    function Thickness(): real { layer.Thickness() }
  }

  /** Layer(top, bottom): fails exactly when top is negative or bottom lies above top. */
  function MakeLayer(top: real, bottom: real): (r: Result<Layer>)
    ensures r.Ok? <==> 0.0 <= top && top <= bottom
    ensures r.Err? ==> r.error == InvalidSegment
    ensures r.Ok? ==> r.value.top == top && r.value.bottom == bottom && r.value.Valid()
  {
    if top < 0.0 || bottom < top then Err(InvalidSegment) else Ok(Layer(top, bottom))
  }

  /**
   * Zone(number, top, bottom): the layer check is delegated to Layer; the zone
   * number is stored as given, without any range check.
   */
  function MakeZone(number: int, top: real, bottom: real): (r: Result<Zone>)
    ensures r.Ok? <==> 0.0 <= top && top <= bottom
    ensures r.Err? ==> r.error == InvalidSegment
    ensures r.Ok? ==> r.value.number == number && r.value.Top() == top && r.value.Bottom() == bottom
    ensures r.Ok? ==> r.value.Valid()
  {
    match MakeLayer(top, bottom)
    case Err(e) => Err(e)
    case Ok(l) => Ok(Zone(number, l))
  }

  /** Every constructed layer has a non-negative top and a non-negative thickness equal to bottom - top. */
  lemma ConstructedLayerThickness(top: real, bottom: real)
    requires MakeLayer(top, bottom).Ok?
    ensures MakeLayer(top, bottom).value.Thickness() == bottom - top
    ensures MakeLayer(top, bottom).value.Thickness() >= 0.0
    ensures MakeLayer(top, bottom).value.top >= 0.0
  {
  }

  /** Layer(1.0, 5.0) has thickness 4.0; Layer(-5.0, 1.0) and Layer(5.0, 1.0) are refused; Layer(2.0, 2.0) is accepted. */
  lemma LayerExamples()
    ensures MakeLayer(1.0, 5.0).Ok? && MakeLayer(1.0, 5.0).value.Thickness() == 4.0
    ensures MakeLayer(-5.0, 1.0) == Err(InvalidSegment)
    ensures MakeLayer(5.0, 1.0) == Err(InvalidSegment)
    ensures MakeLayer(2.0, 2.0).Ok? && MakeLayer(2.0, 2.0).value.Thickness() == 0.0
  {
  }

  // The six comparison operators of Layer; a Zone is compared through its layer.

  predicate Gt(a: Layer, b: Layer) { a.Thickness() > b.Thickness() }
  predicate Lt(a: Layer, b: Layer) { a.Thickness() < b.Thickness() }
  predicate Ge(a: Layer, b: Layer) { a.Thickness() >= b.Thickness() }
  predicate Le(a: Layer, b: Layer) { a.Thickness() <= b.Thickness() }
  predicate Eq(a: Layer, b: Layer) { a.Thickness() == b.Thickness() }
  predicate Ne(a: Layer, b: Layer) { a.Thickness() != b.Thickness() }

  /** The six operators are one total preorder on thickness, mutually consistent. */
  lemma ComparisonsConsistent(a: Layer, b: Layer)
    ensures Lt(a, b) <==> Gt(b, a)
    ensures Le(a, b) <==> Ge(b, a)
    ensures Le(a, b) <==> Lt(a, b) || Eq(a, b)
    ensures Ge(a, b) <==> !Lt(a, b)
    ensures Ne(a, b) <==> !Eq(a, b)
    ensures Eq(a, b) <==> Eq(b, a)
    ensures (Lt(a, b) && !Eq(a, b) && !Gt(a, b)) || (!Lt(a, b) && Eq(a, b) && !Gt(a, b))
         || (!Lt(a, b) && !Eq(a, b) && Gt(a, b))
  {
  }

  /** Comparisons are transitive, so `max` over layers is well defined up to equal thickness. */
  lemma ComparisonsTransitive(a: Layer, b: Layer, c: Layer)
    ensures Le(a, b) && Le(b, c) ==> Le(a, c)
    ensures Lt(a, b) && Le(b, c) ==> Lt(a, c)
    ensures Eq(a, b) && Eq(b, c) ==> Eq(a, c)
  {
  }

  /**
   * Comparisons ignore position: two different layers of equal thickness at
   * different depths compare equal, and neither is below nor above the other.
   */
  lemma EqualityIgnoresPosition(a: Layer, b: Layer)
    requires a.Thickness() == b.Thickness() && a.top != b.top
    ensures a != b && Eq(a, b) && !Ne(a, b) && !Lt(a, b) && !Gt(a, b) && Le(a, b) && Ge(a, b)
  {
  }

  /**
   * Zones compare by the thickness of their layers alone: zones with different
   * numbers at different depths but of equal thickness compare equal.
   */
  lemma ZoneComparisonIgnoresNumber(z1: Zone, z2: Zone)
    requires z1.Thickness() == z2.Thickness() && z1.number != z2.number && z1.layer.top != z2.layer.top
    ensures z1 != z2 && Eq(z1.layer, z2.layer) && !Ne(z1.layer, z2.layer)
    ensures !Lt(z1.layer, z2.layer) && !Gt(z1.layer, z2.layer)
  {
  }
}
