# CPT soil classification and segmentation in Dafny

This project models the core of `cpt-app`, a library and web service for cone
penetration tests (CPT). A probe is a sequence of measurements, each with a
depth, a cone resistance `qc` (MPa) and a sleeve friction `fs`. Any of these
values may be missing. The model covers:

- **Layer and Zone** (`segment.dfy`). A layer is a depth interval `[top, bottom]` that is valid when
  `0 <= top <= bottom`. Layers compare by thickness only. A zone is a layer
  labelled with a soil-behaviour-type number.
- **Classification** (`classification.dfy`). The Robertson (2010) formulas: the friction
  ratio, the SBT index, the zone-number ladder (zones 1..9) and the label
  table. `log10`, `sqrt` and `exp` are parameters of a `Math` value, so
  nothing is assumed about them beyond what a lemma states.
- **Zone segmentation** (`zones_probe.dfy`). The imperative pass `Classify` is proved
  equal to a reference `SpecZones`. There is one zone per maximal run of
  equal per-point zone numbers (`runs.dfy`), with boundaries at depth
  midpoints, an extrapolated first top and the source's two rules for the
  last bottom. A point with a missing `qc` or `fs` gets zone 0. A zero `qc`
  with `fs` present, or a non-positive `qc` or `fs` (outside the domain of
  the logarithm), aborts the whole pass.
- **Layer search** (`layers_probe.dfy`). The imperative pass `FindLayers` is proved equal
  to a reference `SpecLayers` over the maximal true-runs of an "in layer"
  signal. A point is in a layer when `qc < qcMax` and, for a positive zone
  number, it lies in that zone. A point without `qc` keeps the previous
  state.
- **Probe list** (`probe_list.dfy`, `probe_sort.dfy`). A class that groups records by probe
  number in first-appearance order, then stably sorts each probe by depth.
  It also gives indexing (negative indices included), a cursor-based
  iterator, `len`, and `append`, which refuses duplicates.
- **The `filter` decorator** (`decorators.dfy`). It drops the records whose field is
  `None`, keeps the order of the rest, and reports how many were removed.
- **The web layer's pure parts** (`app_main.dfy`). `to_wkt` builds a WKT polygon
  string with Python's `str` of integers. `info_layers` builds one summary
  row per probe, holding the thickest layer as picked by `max` (the first
  maximal one).

Python exceptions are modelled as `Result` errors carrying an `Error`
value. An operation that raises part-way returns the error and discards
its partial result. Floating-point numbers are modelled as exact reals.

## Model

| member | source | states |
|---|---|---|
| Segment.MakeLayer | cptlib/layertools/layertools/layer.py:21-26 | Construction succeeds iff `0 <= top <= bottom`, otherwise the error is InvalidSegment; the layer keeps top and bottom unchanged and is valid |
| Segment.ConstructedLayerThickness | cptlib/layertools/layertools/layer.py:60-63 | A constructed layer's thickness is `bottom - top`, is non-negative, and its top is non-negative |
| Segment.LayerExamples | cptlib/layertools/layertools/layer.py:21-23 | Layer(1,5) has thickness 4; a negative top or a bottom above the top is rejected; a zero-thickness layer is accepted |
| Segment.ComparisonsConsistent | cptlib/layertools/layertools/layer.py:28-44 | The six comparisons are converses and complements of each other and exactly one of <, ==, > holds |
| Segment.ComparisonsTransitive | cptlib/layertools/layertools/layer.py:28-38 | <= and == are transitive, and < followed by <= gives < |
| Segment.EqualityIgnoresPosition | cptlib/layertools/layertools/layer.py:40-44 | Any two different layers of equal thickness at different depths compare equal, not unequal, and neither less nor greater |
| Segment.MakeZone | cptlib/layertools/zone.py:13-25 | A zone is accepted under exactly the layer's condition (InvalidSegment otherwise); any zone number is stored unchanged, with top and bottom |
| Segment.ZoneComparisonIgnoresNumber | cptlib/layertools/zone.py:11 | Any two zones of equal thickness compare equal and neither less nor greater, whatever their numbers and depths |
| Classification.FrictionRatio | cptlib/layertools/zones_probe.py:86-90 | A missing qc or fs gives MissingData; a zero qc with an fs gives ZeroDivision; otherwise `Rf * 1000 qc == 100 fs` |
| Classification.FrictionRatioExample | cptlib/layertools/zones_probe.py:86-90 | qc 2.2 and fs 30 give Rf 15/11 |
| Classification.SignOfRatio | cptlib/layertools/zones_probe.py:86-90 | For a positive qc the ratio is positive iff fs is |
| Classification.SBTIndex | cptlib/layertools/zones_probe.py:111-118 | The index is defined iff qc and Rf are positive (the logarithms' domain); otherwise the error is MathDomain |
| Classification.SBTIndexIsDistance | cptlib/layertools/zones_probe.py:111-118 | With a true square root, the index is non-negative and its square is `(3.47 - log10(qc_kPa/100))^2 + (1.22 + log10 Rf)^2` |
| Classification.ThresholdDenominator | cptlib/layertools/zones_probe.py:165 | The denominator of the zone 8/9 threshold is at most -0.00275 for every Rf |
| Classification.Threshold | cptlib/layertools/zones_probe.py:165 | The zone 8/9 threshold is negative for every Rf |
| Classification.ZoneNumber | cptlib/layertools/zones_probe.py:160-183 | The zone number is in 1..9; 9 needs Rf > 4.5 and 8 needs 1.5 < Rf <= 4.5 |
| Classification.HighFrictionZones | cptlib/layertools/zones_probe.py:166-169 | For qc >= 0 the friction ratio alone decides zones 9 and 8, and Rf <= 1.5 gives a zone of at most 7 |
| Classification.ZoneNumberLadder | cptlib/layertools/zones_probe.py:166-183 | First match wins: 9 iff its gate, 8 iff not 9 and its gate, 1 iff neither and `qc_kPa/100 < 12 exp(-1.4 Rf)`, else the band of the SBT index |
| Classification.CountAtOrAboveMonotone | cptlib/layertools/zones_probe.py:172-183 | A larger index passes no more band bounds |
| Classification.ZoneNumberMonotoneInIndex | cptlib/layertools/zones_probe.py:172-183 | Outside zones 1, 8 and 9, a larger SBT index never gives a larger zone number |
| Classification.ZoneFourExample | cptlib/layertools/zones_probe.py:176-177 | Rf 15/11, qc 2.2 and index 2.866 give zone 4 when the zone-1 gate is closed |
| Classification.SBT | cptlib/layertools/zones_probe.py:100-109 | The label is defined exactly for 0..9 and is one of the ten soil types; any other key gives UnknownZone |
| Classification.SBTInjective | cptlib/layertools/zones_probe.py:103-108 | The ten labels are pairwise distinct |
| Classification.SBTExamples | cptlib/layertools/zones_probe.py:103-109 | The labels of zones 0, 3..6, 8 and 9, and that 10 and -1 are refused |
| Classification.PointZone | cptlib/layertools/zones_probe.py:57-63 | A point's zone is in 1..9 exactly when qc and fs are present and positive; MissingData iff one is missing; ZeroDivision iff qc is zero and fs is present |
| Measurements.Depths | cptlib/layertools/zones_probe.py:67-82 | The depths of a probe, one per measurement, in order |
| Runs.RunsOfDecomposes | cptlib/layertools/zones_probe.py:71-80 | RunsOf cuts a signal into consecutive non-empty runs that cover it, each constant and each maximal |
| Runs.ExtendLastRun | cptlib/layertools/zones_probe.py:71-75 | A point equal to its predecessor lengthens the last run and keeps the decomposition |
| Runs.StartNewRun | cptlib/layertools/zones_probe.py:71-75 | A point different from its predecessor opens a new run and keeps the decomposition |
| Runs.RunsCount | cptlib/layertools/zones_probe.py:71-80 | A non-empty signal has one more run than it has value changes |
| Runs.RunContaining | cptlib/layertools/zones_probe.py:71-80 | Every point lies in exactly one run |
| Runs.RunsOrdered | cptlib/layertools/zones_probe.py:71-80 | Runs are in index order: a later run starts at or after an earlier one ends |
| Runs.SpansOfListsSpans | cptlib/layertools/layers_probe.py:76-86 | SpansOf lists the maximal true-runs of a boolean signal: separated, all true, bounded by false points, covering every true point |
| Runs.SpansSkipFalse | cptlib/layertools/layers_probe.py:79-82 | A false point adds no span |
| Runs.SpansExtendLast | cptlib/layertools/layers_probe.py:76-86 | A true point after a true point lengthens the last span |
| Runs.SpansOpen | cptlib/layertools/layers_probe.py:76-78 | A true point after a false one (or first) opens a span |
| Runs.LastSpanEndsAt | cptlib/layertools/layers_probe.py:84-86 | When the last point is in a layer, the last span runs to the end |
| Runs.SpansOrdered | cptlib/layertools/layers_probe.py:76-86 | Spans are in index order and never overlap |
| ZonesProbe.Codes | cptlib/layertools/zones_probe.py:56-63 | One code per point: its zone, or 0 when a value is missing |
| ZonesProbe.CodesInRange | cptlib/layertools/zones_probe.py:57-63 | With the real classifier, codes are in 0..9, and 0 exactly at points missing qc or fs |
| ZonesProbe.SpecZones | cptlib/layertools/zones_probe.py:71-82 | One reference zone per maximal run of equal codes |
| ZonesProbe.Classify | cptlib/layertools/zones_probe.py:47-82 | The pass succeeds iff no point raises and every zone is valid; then the zones equal the reference; otherwise the error is InvalidSegment or a raising point's error |
| ZonesProbe.ZoneStep | cptlib/layertools/zones_probe.py:64-82 | One point's zone step keeps the pass in step with the reference zones, or fails with InvalidSegment only when some reference zone is invalid |
| ZonesProbe.PointStep | cptlib/layertools/zones_probe.py:56-82 | The zone step runs whatever the point's outcome; a result without a let-through error keeps the pass in step, and an error is InvalidSegment from an invalid reference zone or the point's own error |
| ZonesProbe.ClosedZone | cptlib/layertools/zones_probe.py:71-75 | A change at point k closes the zone of point k-1 at the midpoint of depths k-1 and k, and the next zone starts there |
| ZonesProbe.FinalZone | cptlib/layertools/zones_probe.py:77-80 | The zone of the last point is the last zone and ends at the final bottom |
| ZonesProbe.ZonesContiguous | cptlib/layertools/zones_probe.py:71-75 | Each zone's bottom is the next zone's top |
| ZonesProbe.AdjacentZonesDiffer | cptlib/layertools/zones_probe.py:71 | Neighbouring zones have different numbers |
| ZonesProbe.ZoneCount | cptlib/layertools/zones_probe.py:71-80 | A probe with N >= 1 points has one zone per change of code plus one |
| ZonesProbe.FirstZoneTop | cptlib/layertools/zones_probe.py:65-69 | The first top is `d1 - 0.5 (d2 - d1)` for two or more points; a negative first top makes a zone invalid |
| ZonesProbe.SinglePointZone | cptlib/layertools/zones_probe.py:65-82 | A single point at depth x gives one zone from x to 1.5 x |
| ZonesProbe.ZoneBrackets | cptlib/layertools/zones_probe.py:71-80 | For ascending depths each zone spans the depths of its points |
| ZonesProbe.PointInItsZone | cptlib/layertools/zones_probe.py:71-80 | For ascending depths each point's depth lies in a zone carrying its code |
| ZonesProbe.ZonesValid | cptlib/layertools/zones_probe.py:71-82 | Ascending depths with a non-negative first top give only valid zones |
| ZonesProbe.LastBottomHalfSpacing | cptlib/layertools/zones_probe.py:77-79 | For strictly ascending depths the last bottom is `dN + 0.5 (dN - dN-1)`, the mirror rule included |
| ZonesProbe.MirrorWithRepeatedDepth | cptlib/layertools/zones_probe.py:77-78 | A repeated depth with a change at the last point triggers the mirror rule: depths 1, 1, 3 and codes 1, 2, 2 give a zero-thickness first zone and a last bottom of 5 |
| ZonesProbe.NewZonesProbe | cptlib/layertools/zones_probe.py:21-30 | Building a zones probe succeeds exactly when Classify does, and keeps the probe number and the reference zones |
| ZonesProbe.ClassifiedNumbersInRange | cptlib/layertools/zones_probe.py:57-63 | The zones of a classified probe have numbers in 0..9 |
| ZonesProbe.GetSBTs | cptlib/layertools/zones_probe.py:92-98 | The labels of the zones' numbers, without "Unknown"; an unknown number gives UnknownZone |
| ZonesProbe.UnknownOnlyAtZero | cptlib/layertools/zones_probe.py:103-108 | Only zone 0 is labelled "Unknown" |
| ZonesProbe.ClassifiedProbeHasSBTs | cptlib/layertools/zones_probe.py:92-98 | Every zone of a classified probe has a label, so get_SBTs cannot fail on it |
| LayersProbe.Signal | cptlib/layertools/layers_probe.py:70-82 | The per-point "in layer" state after each point |
| LayersProbe.SignalStep | cptlib/layertools/layers_probe.py:70-82 | Each point's state follows from the previous state and that point alone |
| LayersProbe.SignalMeaning | cptlib/layertools/layers_probe.py:60-74 | With qc present, a point is in a layer iff `qc < qcMax` and it is in the zone; without qc it keeps the previous point's state |
| LayersProbe.SpecLayers | cptlib/layertools/layers_probe.py:76-86 | One reference layer per maximal true-run of the signal |
| LayersProbe.FindLayers | cptlib/layertools/layers_probe.py:46-88 | The pass succeeds iff no point raises and every layer is valid; then the layers equal the reference; otherwise InvalidSegment or a raising point's error |
| LayersProbe.CheckZone | cptlib/layertools/layers_probe.py:60-68 | The zone gate is computed exactly when the zone number is positive; the point is in zone iff its zone equals the one searched; a raising classification stops the pass |
| LayersProbe.AppendLayer | cptlib/layertools/layers_probe.py:82 | Appending a layer succeeds iff it is valid and extends the reference prefix by one |
| LayersProbe.LayerMembership | cptlib/layertools/layers_probe.py:76-86 | For strictly ascending depths a point lies in a span iff its depth lies within that span's layer |
| LayersProbe.LayersOrdered | cptlib/layertools/layers_probe.py:76-86 | For ascending depths each layer ends at or above the next one's top |
| LayersProbe.LayersValid | cptlib/layertools/layers_probe.py:76-86 | Ascending depths from the surface with a non-negative first top give only valid layers |
| LayersProbe.FirstTopAboveSurface | cptlib/layertools/layers_probe.py:57-58 | A layer open at point 1 whose extrapolated top is negative makes the pass fail |
| LayersProbe.ZoneFreeLayers | cptlib/layertools/layers_probe.py:54-68 | With zone number <= 0 the classifier is never consulted: layers do not depend on it and nothing raises |
| LayersProbe.ClassifierPositive | cptlib/layertools/layers_probe.py:67-68 | The real classifier never yields a zone below 1 |
| LayersProbe.NewLayersProbe | cptlib/layertools/layers_probe.py:13-28 | Building a layers probe succeeds exactly when the search does, and keeps the number, the criteria and the reference layers |
| LayersProbe.DefaultSearchIgnoresZones | cptlib/layertools/layers_probe.py:13 | The default search (zone 0, qcMax 2.0) finds the same layers whatever the classifier |
| Decorators.RemoveNoneTypes | cptlib/setuptools/decorators.py:15-28 | Succeeds iff every record has the field (MissingKey otherwise); returns the passing records in order, with the removed count |
| Decorators.KeptMultiplicity | cptlib/setuptools/decorators.py:19-21 | Each passing record keeps its multiplicity, and each failing record is gone |
| Decorators.KeptMembership | cptlib/setuptools/decorators.py:19-21 | A record is kept iff it was there and its field is not None |
| Decorators.KeptLength | cptlib/setuptools/decorators.py:18-24 | The output is no longer than the input, and equally long iff every record passes |
| Decorators.KeptAppend | cptlib/setuptools/decorators.py:19-21 | Filtering distributes over concatenation, so order is kept |
| Decorators.KeptPass | cptlib/setuptools/decorators.py:20 | Every returned record has the field set |
| Decorators.KeptIdempotent | cptlib/setuptools/decorators.py:19-21 | Filtering the output again changes nothing |
| Decorators.KeptAllPass | cptlib/setuptools/decorators.py:19-21 | Input where every record passes is returned unchanged |
| ProbeSort.InsertPermutes | cptlib/probetools/probe_list.py:68-69 | Inserting adds exactly the new element |
| ProbeSort.InsertSorted | cptlib/probetools/probe_list.py:68-69 | Inserting into a depth-sorted list keeps it sorted |
| ProbeSort.InsertStable | cptlib/probetools/probe_list.py:68-69 | Inserting places the new element after every element of the same depth |
| ProbeSort.AtDepthAppend | cptlib/probetools/probe_list.py:68-69 | The elements at a depth distribute over concatenation |
| ProbeSort.SortByDepthCorrect | cptlib/probetools/probe_list.py:68-69 | The sort orders by depth, permutes, and keeps the input order of equal depths (stability) |
| ProbeSort.SortedDepthsAscending | cptlib/probetools/probe_list.py:68-69 | Sorted measurements have ascending depths |
| ProbeLists.GroupStep | cptlib/probetools/probe_list.py:64-66 | Adding one record to its probe's list keeps the grouping of the records seen so far |
| ProbeLists.GroupGrow | cptlib/probetools/probe_list.py:64-66 | A record adds its measurement to its own probe only |
| ProbeLists.SortStep | cptlib/probetools/probe_list.py:68-69 | Sorting one more probe keeps the others' lists |
| ProbeLists.SortDone | cptlib/probetools/probe_list.py:68-69 | After every probe is sorted, the lists are the loaded ones |
| ProbeLists.ProbeList.constructor | cptlib/probetools/probe_list.py:17-25 | The new list holds the probe numbers in first-appearance order, each with its sorted measurements, and has no cursor |
| ProbeLists.ProbeList.SeparateProbes | cptlib/probetools/probe_list.py:60-69 | Grouping then sorting yields exactly the loaded probes |
| ProbeLists.ProbeList.GroupRows | cptlib/probetools/probe_list.py:64-66 | The records are grouped by number, in first-appearance order and file order |
| ProbeLists.ProbeList.SortGroups | cptlib/probetools/probe_list.py:68-69 | Each probe's list is replaced by its stable depth sort |
| ProbeLists.ProbeList.Length | cptlib/probetools/probe_list.py:36-37 | The length is the number of distinct probe numbers |
| ProbeLists.ProbeList.GetItem | cptlib/probetools/probe_list.py:27-30 | An index in `-len..len-1` yields the probe at that position of the key order (counted from the end when negative) with its measurements; any other gives IndexOutOfRange |
| ProbeLists.ProbeList.Iter | cptlib/probetools/probe_list.py:32-34 | Iteration resets the cursor to 0 and changes nothing else |
| ProbeLists.ProbeList.Next | cptlib/probetools/probe_list.py:39-45 | Without a cursor NoCursor; past the end Exhausted with no change; otherwise the probe at the cursor, and the cursor advances |
| ProbeLists.ProbeList.AllProbes | cptlib/probetools/probe_list.py:32-45 | Iterating the list yields every probe once, in first-appearance order |
| ProbeLists.ProbeList.Append | cptlib/probetools/probe_list.py:73-82 | A present number gives DuplicateProbe and no change; a new probe adds its measurements unsorted and in order, or nothing when it has none |
| ProbeLists.NumbersOfDistinct | cptlib/probetools/probe_list.py:24 | Probe numbers are listed once each |
| ProbeLists.NumbersOfCover | cptlib/probetools/probe_list.py:64-66 | Every record's number is listed, and only those |
| ProbeLists.GroupEmpty | cptlib/probetools/probe_list.py:64-66 | A number has no measurements iff no record carries it |
| ProbeLists.ProbeCount | cptlib/probetools/probe_list.py:36-37 | The number of probes equals the number of distinct probe numbers |
| ProbeLists.GroupsTotal | cptlib/probetools/probe_list.py:64-66 | The groups together hold every record once |
| ProbeLists.LoadedTotal | cptlib/probetools/probe_list.py:64-69 | After loading, the probes hold as many measurements as there were records |
| ProbeLists.SortedSizes | cptlib/probetools/probe_list.py:68-69 | Sorting does not change any probe's size |
| ProbeLists.LoadedSorted | cptlib/probetools/probe_list.py:60-69 | Each loaded probe is its records' measurements, sorted by depth, permuted, and stable at equal depths |
| ProbeLists.NegativeIndex | cptlib/probetools/probe_list.py:27-30 | Index `i - len` names the same probe as `i` |
| AppMain.NatToStringRoundTrip | app/main.py:33 | A natural number's decimal text is non-empty digits, with no leading zero, that parse back to it |
| AppMain.IntToStringRoundTrip | app/main.py:33 | An integer's text parses back to it and starts with '-' iff it is negative |
| AppMain.ToWkt | app/main.py:27-36 | An empty tuple gives IndexOutOfRange; otherwise the text is `POLYGON ((` followed by the ring, closed by the first vertex, and then `))` |
| AppMain.WrittenJoins | app/main.py:32-35 | The vertices written by the loop, followed by the closing vertex, form the ", "-joined ring |
| AppMain.JoinLength | app/main.py:32-35 | The ring text has one vertex text per vertex and one separator between neighbours |
| AppMain.PolygonShape | app/main.py:31-35 | The text starts with `POLYGON ((`, ends with `))`, and the first vertex appears both right after the opening and right before the closing |
| AppMain.ThickestIndex | app/main.py:117 | The thickest layer's index is in range |
| AppMain.ThickestIsFirstMaximal | app/main.py:117 | `max` yields a layer at least as thick as every other, strictly thicker than each earlier one |
| AppMain.ThickestCells | app/main.py:116-122 | No layers give "/" for top and bottom; otherwise top and bottom are those of the first thickest layer |
| AppMain.InfoRowMeaning | app/main.py:110-122 | A row holds the probe number, the measurement count, the layer count, the soil type and the thickest layer's bounds (or "/") |
| AppMain.SummarizeProbe | app/main.py:110-122 | A probe's row is produced iff its layer search succeeds, and is then that row |
| AppMain.CollectMeaning | app/main.py:109-122 | Collecting rows succeeds iff every item is acceptable, and then yields one row per item, in order |
| AppMain.Summarize | app/main.py:109-122 | The rows are produced iff every probe's search succeeds, one row per probe in order |
| AppMain.InfoLayers | app/main.py:106-124 | info_layers on a loaded list leaves the list unchanged and yields one row per probe, in list order |

## Left out

- Reading the JSON file (`read_records`, `__import_probe_data`). The loaded
  records are a parameter: a sequence of `Row` values, already filtered.
  The records handed to `Decorators.RemoveNoneTypes` are maps from field
  names to optional values.
- Printing, plotting and file output: `visualize`, `write`, `__str__`,
  `__repr__`, the removed-record message in the decorator, and the
  import message.
- The HTTP layer of `app/main.py`: the routes, file uploads, the rate-limit
  middleware, query validation, `probe_location_list.py` and
  `cptlib/main.py`. Only `to_wkt` and `info_layers` are modelled.
  `AppMain.InfoLayers` requires a zone number in 0..9, because the route's
  `Query(ge=0, le=9)` rejects any other value before the function runs.
- `info_layers` returns a dictionary of columns. The model returns the same
  data as one `LayerInfo` row per probe.
- Floating point is modelled as exact real arithmetic. `log10`, `sqrt` and
  `exp` are uninterpreted functions. Rounding and overflow are not
  modelled. `log10` of a non-positive argument raises a ValueError that
  nothing catches; the model returns it as `Err(MathDomain)`.
- Python's `str` is modelled for integers only, which is the vertex type
  of `to_wkt`.
- `functools.wraps` plumbing in the decorator, and the decorator's
  generality over any reader function: the model filters a given list.
- The test fixtures (`2000912_S1`, `2000912_S2`) and their expected values.
  The data files are not part of this model.
- Python aliasing of the measurement lists inside the probe list: lists are
  values here, so `GetItem` and `Next` return copies.
- Iteration over zones and layers (`__iter__`) is the sequence itself; their
  `__len__` is the sequence length.
- LayersProbe.FindLayers: requires that the classifier yields only zones
  >= 1, as the real one does (`LayersProbe.ClassifierPositive`). The source
  reuses the point's zone number as the gate for the next point, and this
  is harmless only under that condition.
