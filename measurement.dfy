/** One CPT reading: depth in m, cone resistance qc in MPa, sleeve friction fs; qc and fs may be absent. */
module Measurements {
  import opened Wrappers

  datatype Measurement = Measurement(depth: real, qc: Option<real>, fs: Option<real>)

  /** A probe: its number and its measurements, as the probe list hands them out. */
  datatype Probe = Probe(number: string, measurements: seq<Measurement>)

  /** The depths of a measurement series, in series order. */
  function Depths(ms: seq<Measurement>): (d: seq<real>)
    ensures |d| == |ms|
    ensures forall k :: 0 <= k < |ms| ==> d[k] == ms[k].depth
  {
    seq(|ms|, k requires 0 <= k < |ms| => ms[k].depth)
  }

  /** Depths that never decrease, as the probe loader leaves them. */
  predicate Ascending(d: seq<real>)
  {
    forall i, j :: 0 <= i <= j < |d| ==> d[i] <= d[j]
  }

  /** Depths that strictly increase: no two readings at the same depth. */
  predicate StrictlyAscending(d: seq<real>)
  {
    forall i, j :: 0 <= i < j < |d| ==> d[i] < d[j]
  }
}
