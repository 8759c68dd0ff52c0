/**
 * ProbeList: the probes of one records file, grouped by probe number in
 * order of first appearance, each probe's measurements sorted by depth; with
 * indexing, iteration and a duplicate-rejecting append.
 */
module ProbeLists {
  import opened Wrappers
  import opened Measurements
  import opened ProbeSort

  /** One loaded record: its probe number ('sondeernummer') and its measurement fields ('diepte', 'qc', 'fs'). */
  datatype Row = Row(number: string, depth: real, qc: Option<real>, fs: Option<real>)

  function MeasurementOf(r: Row): Measurement
  {
    Measurement(r.depth, r.qc, r.fs)
  }

  /** No element occurs twice. */
  predicate Distinct(s: seq<string>)
  {
    forall i, j :: 0 <= i < j < |s| ==> s[i] != s[j]
  }

  /** The probe numbers of the rows, in order of first appearance. */
  function NumbersOf(rows: seq<Row>): seq<string>
  {
    if |rows| == 0 then []
    else
      var p := NumbersOf(rows[..|rows| - 1]);
      if rows[|rows| - 1].number in p then p else p + [rows[|rows| - 1].number]
  }

  /** The measurements of probe k, in file order. */
  function Group(rows: seq<Row>, k: string): seq<Measurement>
  {
    if |rows| == 0 then []
    else Group(rows[..|rows| - 1], k) + (if rows[|rows| - 1].number == k then [MeasurementOf(rows[|rows| - 1])] else [])
  }

  /** The probe numbers that occur in the rows. */
  function NumberSet(rows: seq<Row>): set<string>
  {
    set r | r in rows :: r.number
  }

  /** What the loader stores: for each probe number, its measurements sorted by depth. */
  function Loaded(rows: seq<Row>): map<string, seq<Measurement>>
  {
    map k | k in NumbersOf(rows) :: SortByDepth(Group(rows, k))
  }

  /** The number of measurements stored under the given keys. */
  function TotalSize(probes: map<string, seq<Measurement>>, keys: seq<string>): nat
    requires forall k :: k in keys ==> k in probes
  {
    if |keys| == 0 then 0 else TotalSize(probes, keys[..|keys| - 1]) + |probes[keys[|keys| - 1]]|
  }

  /** The key order lists each key of the dictionary once. */
  ghost predicate Consistent(ns: seq<string>, ps: map<string, seq<Measurement>>)
  {
    Distinct(ns) && forall k :: k in ps <==> k in ns
  }

  /** The state after the grouping loop has read the rows. */
  ghost predicate Grouped(ns: seq<string>, ps: map<string, seq<Measurement>>, rows: seq<Row>)
  {
    Consistent(ns, ps) && ns == NumbersOf(rows) && forall k :: k in ps ==> ps[k] == Group(rows, k)
  }

  /** The state after the sorting loop has sorted the first j probes. */
  ghost predicate SortedUpTo(ns: seq<string>, ps: map<string, seq<Measurement>>, rows: seq<Row>, j: nat)
  {
    && Consistent(ns, ps) && ns == NumbersOf(rows) && j <= |ns|
    && (forall t :: 0 <= t < j ==> ps[ns[t]] == SortByDepth(Group(rows, ns[t])))
    && (forall t :: j <= t < |ns| ==> ps[ns[t]] == Group(rows, ns[t]))
  }

  /** The key order after one more row: a new number goes to the end. */
  function AddNumber(ns: seq<string>, ps: map<string, seq<Measurement>>, r: Row): seq<string>
  {
    if r.number in ps then ns else ns + [r.number]
  }

  /** The dictionary after one more row: its measurement appended to its number's list, a new list for a new number. */
  function AddRow(ps: map<string, seq<Measurement>>, r: Row): map<string, seq<Measurement>>
  {
    ps[r.number := (if r.number in ps then ps[r.number] else []) + [MeasurementOf(r)]]
  }

  /** One pass of the grouping loop keeps the state grouped over one more row. */
  lemma GroupStep(ns: seq<string>, ps: map<string, seq<Measurement>>, rows: seq<Row>, i: nat)
    requires i < |rows| && Grouped(ns, ps, rows[..i])
    ensures Grouped(AddNumber(ns, ps, rows[i]), AddRow(ps, rows[i]), rows[..i + 1])
  {
    NumbersGrow(rows, i);
    NumbersOfDistinct(rows[..i + 1]);
    GroupsGrow(ns, ps, rows, i);
  }

  /** The lists after one more row are the groups of one more row. */
  lemma GroupsGrow(ns: seq<string>, ps: map<string, seq<Measurement>>, rows: seq<Row>, i: nat)
    requires i < |rows| && Grouped(ns, ps, rows[..i])
    ensures var ps' := AddRow(ps, rows[i]);
            forall k :: k in ps' ==> ps'[k] == Group(rows[..i + 1], k)
  {
    var r := rows[i];
    var ps' := AddRow(ps, r);
    forall k | k in ps'
      ensures ps'[k] == Group(rows[..i + 1], k)
    {
      GroupGrow(rows, i, k);
      if k == r.number && k !in ps {
        GroupEmpty(rows[..i], k);
      }
    }
  }

  lemma NumbersGrow(rows: seq<Row>, i: nat)
    requires i < |rows|
    ensures var p := NumbersOf(rows[..i]);
            NumbersOf(rows[..i + 1]) == if rows[i].number in p then p else p + [rows[i].number]
  {
    assert rows[..i + 1][..i] == rows[..i];
  }

  lemma GroupGrow(rows: seq<Row>, i: nat, k: string)
    requires i < |rows|
    ensures Group(rows[..i + 1], k) == Group(rows[..i], k) + (if rows[i].number == k then [MeasurementOf(rows[i])] else [])
  {
    assert rows[..i + 1][..i] == rows[..i];
  }

  lemma SortStep(ns: seq<string>, ps: map<string, seq<Measurement>>, rows: seq<Row>, j: nat)
    requires SortedUpTo(ns, ps, rows, j) && j < |ns|
    ensures ns[j] in ps && SortedUpTo(ns, ps[ns[j] := SortByDepth(ps[ns[j]])], rows, j + 1)
  {
    assert ns[j] in ns;
  }

  lemma SortDone(ns: seq<string>, ps: map<string, seq<Measurement>>, rows: seq<Row>)
    requires SortedUpTo(ns, ps, rows, |ns|)
    ensures Consistent(ns, ps) && ps == Loaded(rows)
  {
    forall k | k in ps
      ensures k in Loaded(rows) && ps[k] == Loaded(rows)[k]
    {
      var t :| 0 <= t < |ns| && ns[t] == k;
    }
  }

  class ProbeList {
    /** The keys of the dictionary, in insertion order. */
    var numbers: seq<string>
    /** The dictionary from probe number to its measurements. */
    var probes: map<string, seq<Measurement>>
    /** The cursor that __iter__ sets; None before the first __iter__. */
    var position: Option<nat>

    ghost predicate Valid()
      reads this
    {
      Consistent(numbers, probes)
    }

    /** ProbeList over rows that already passed the filter: grouped by number, each group sorted by depth. */
    constructor(rows: seq<Row>)
      ensures Valid()
      ensures numbers == NumbersOf(rows) && probes == Loaded(rows)
      ensures position == None
    {
      numbers := [];
      probes := map[];
      position := None;
      new;
      SeparateProbes(rows);
    }

    /** __separate_probes on an empty list: group the rows per probe, then sort each group by depth. */
    method SeparateProbes(rows: seq<Row>)
      requires numbers == [] && probes == map[]
      modifies this
      ensures Valid()
      ensures numbers == NumbersOf(rows) && probes == Loaded(rows)
      ensures position == old(position)
    {
      GroupRows(rows);
      SortGroups(rows);
    }

    /** The first loop of __separate_probes: each row's measurement appended to the list of its probe. */
    method GroupRows(rows: seq<Row>)
      requires numbers == [] && probes == map[]
      modifies this
      ensures Grouped(numbers, probes, rows)
      ensures position == old(position)
    {
      var i := 0;
      while i < |rows|
        invariant i <= |rows|
        invariant Grouped(numbers, probes, rows[..i])
        invariant position == old(position)
      {
        var row := rows[i];
        GroupStep(numbers, probes, rows, i);
        ghost var nextNumbers, nextProbes := AddNumber(numbers, probes, row), AddRow(probes, row);
        // the defaultdict hands out a fresh empty list for a number not seen before
        var current := [];
        if row.number in probes {
          current := probes[row.number];
        } else {
          numbers := numbers + [row.number];
        }
        probes := probes[row.number := current + [MeasurementOf(row)]];
        assert numbers == nextNumbers && probes == nextProbes;
        i := i + 1;
      }
      assert rows[..|rows|] == rows;
    }

    /** The second loop of __separate_probes: every probe's list sorted by depth in place. */
    method SortGroups(ghost rows: seq<Row>)
      requires Grouped(numbers, probes, rows)
      modifies this
      ensures Valid() && numbers == old(numbers) && probes == Loaded(rows)
      ensures position == old(position)
    {
      var j := 0;
      while j < |numbers|
        invariant j <= |numbers| && numbers == old(numbers)
        invariant SortedUpTo(numbers, probes, rows, j)
        invariant position == old(position)
      {
        SortStep(numbers, probes, rows, j);
        var k := numbers[j];
        probes := probes[k := SortByDepth(probes[k])];
        j := j + 1;
      }
      SortDone(numbers, probes, rows);
    }

    /** __len__: the number of distinct probe numbers, i.e. of dictionary keys. */
    function Length(): (n: nat)
      reads this
      requires Valid()
      ensures n == |probes.Keys|
    {
      DistinctCount(numbers);
      assert probes.Keys == set k | k in numbers;
      |numbers|
    }

    /**
     * __getitem__: the probe at a position of the key order; a negative index
     * counts from the end; any other index raises an IndexError.
     */
    function GetItem(index: int): (r: Result<Probe>)
      reads this
      requires Valid()
      ensures r.Ok? <==> -|numbers| <= index < |numbers|
      ensures r.Err? ==> r.error == IndexOutOfRange
      ensures r.Ok? ==> r.value.number in probes && r.value.measurements == probes[r.value.number]
      ensures r.Ok? ==> r.value.number == if index < 0 then numbers[index + |numbers|] else numbers[index]
    {
      var i := if index < 0 then index + |numbers| else index;
      if 0 <= i < |numbers| then Ok(Probe(numbers[i], probes[numbers[i]])) else Err(IndexOutOfRange)
    }

    /** __iter__: the cursor goes back to the first probe. */
    method Iter()
      modifies this
      ensures numbers == old(numbers) && probes == old(probes)
      ensures position == Some(0)
    {
      position := Some(0);
    }

    /** __next__: the probe under the cursor, which then moves on; StopIteration once past the last one. */
    method Next() returns (r: Result<Probe>)
      requires Valid()
      modifies this
      ensures numbers == old(numbers) && probes == old(probes)
      ensures old(position).None? ==> r == Err(NoCursor) && position == old(position)
      ensures old(position).Some? && old(position).value >= |numbers| ==> r == Err(Exhausted) && position == old(position)
      ensures old(position).Some? && old(position).value < |numbers| ==>
                r == GetItem(old(position).value) && r.Ok? && position == Some(old(position).value + 1)
    {
      if position.None? {
        return Err(NoCursor);
      }
      if position.value >= |numbers| {
        return Err(Exhausted);
      }
      var index := position.value;
      position := Some(position.value + 1);
      r := GetItem(index);
    }

    /** `for probe in probes`: __iter__, then __next__ until StopIteration. */
    method AllProbes() returns (ps: seq<Probe>)
      requires Valid()
      modifies this
      ensures numbers == old(numbers) && probes == old(probes)
      ensures |ps| == |numbers|
      ensures forall i :: 0 <= i < |ps| ==> ps[i] == Probe(numbers[i], probes[numbers[i]])
    {
      Iter();
      ps := [];
      while true
        invariant numbers == old(numbers) && probes == old(probes)
        invariant |ps| <= |numbers| && position == Some(|ps|)
        invariant forall i :: 0 <= i < |ps| ==> ps[i] == Probe(numbers[i], probes[numbers[i]])
        decreases |numbers| - |ps|
      {
        var r := Next();
        if r.Err? {
          return;
        }
        ps := ps + [r.value];
      }
    }

    /**
     * append: a probe whose number is already present raises a ValueError;
     * otherwise its measurements are added in their given order, unsorted. A
     * probe without measurements adds no key.
     */
    method Append(p: Probe) returns (r: Result<()>)
      requires Valid()
      modifies this
      ensures Valid() && position == old(position)
      ensures p.number in old(probes) ==> r == Err(DuplicateProbe) && numbers == old(numbers) && probes == old(probes)
      ensures p.number !in old(probes) ==> r == Ok(())
      ensures p.number !in old(probes) && |p.measurements| > 0 ==>
                numbers == old(numbers) + [p.number] && probes == old(probes)[p.number := p.measurements]
      ensures p.number !in old(probes) && |p.measurements| == 0 ==> numbers == old(numbers) && probes == old(probes)
    {
      if p.number in probes {
        return Err(DuplicateProbe);
      }
      for i := 0 to |p.measurements|
        invariant Valid() && position == old(position)
        invariant i == 0 ==> numbers == old(numbers) && probes == old(probes)
        invariant i > 0 ==> numbers == old(numbers) + [p.number] && probes == old(probes)[p.number := p.measurements[..i]]
      {
        if p.number !in probes {
          numbers := numbers + [p.number];
          probes := probes[p.number := []];
        }
        assert p.measurements[..i + 1] == p.measurements[..i] + [p.measurements[i]];
        probes := probes[p.number := probes[p.number] + [p.measurements[i]]];
      }
      assert p.measurements[..|p.measurements|] == p.measurements;
      return Ok(());
    }
  }

  // ---------- properties of the loaded list ----------

  lemma {:induction false} NumbersOfDistinct(rows: seq<Row>)
    ensures Distinct(NumbersOf(rows))
  {
    if |rows| > 0 {
      NumbersOfDistinct(rows[..|rows| - 1]);
    }
  }

  /** A number is listed exactly when some row carries it. */
  lemma {:induction false} NumbersOfCover(rows: seq<Row>)
    ensures forall k :: k in NumbersOf(rows) <==> k in NumberSet(rows)
  {
    if |rows| > 0 {
      var p := rows[..|rows| - 1];
      NumbersOfCover(p);
      assert rows == p + [rows[|rows| - 1]];
      assert NumberSet(rows) == NumberSet(p) + {rows[|rows| - 1].number};
    }
  }

  /** A probe number that does not occur has no measurements. */
  lemma {:induction false} GroupEmpty(rows: seq<Row>, k: string)
    ensures k !in NumbersOf(rows) <==> Group(rows, k) == []
  {
    if |rows| > 0 {
      GroupEmpty(rows[..|rows| - 1], k);
    }
  }

  /** A sequence without repetitions has as many elements as its set. */
  lemma {:induction false} DistinctCount(s: seq<string>)
    requires Distinct(s)
    ensures |set k | k in s| == |s|
  {
    if |s| > 0 {
      var p := s[..|s| - 1];
      DistinctCount(p);
      assert (set k | k in s) == (set k | k in p) + {s[|s| - 1]};
    }
  }

  /** len(ProbeList) is the number of distinct probe numbers in the rows. */
  lemma ProbeCount(rows: seq<Row>)
    ensures |NumbersOf(rows)| == |NumberSet(rows)|
  {
    NumbersOfDistinct(rows);
    NumbersOfCover(rows);
    DistinctCount(NumbersOf(rows));
    assert (set k | k in NumbersOf(rows)) == NumberSet(rows);
  }

  /** The number of measurements in the groups of the given keys. */
  function GroupTotal(rows: seq<Row>, keys: seq<string>): nat
  {
    if |keys| == 0 then 0 else GroupTotal(rows, keys[..|keys| - 1]) + |Group(rows, keys[|keys| - 1])|
  }

  /** Adding one row adds one measurement to the groups of the listed keys when its number is among them. */
  lemma {:induction false} TotalStep(rows: seq<Row>, r: Row, keys: seq<string>)
    requires Distinct(keys)
    ensures GroupTotal(rows + [r], keys) == GroupTotal(rows, keys) + (if r.number in keys then 1 else 0)
  {
    if |keys| > 0 {
      var p := keys[..|keys| - 1];
      var k := keys[|keys| - 1];
      TotalStep(rows, r, p);
      assert (rows + [r])[..|rows|] == rows;
      assert |Group(rows + [r], k)| == |Group(rows, k)| + (if r.number == k then 1 else 0);
      assert r.number in keys <==> r.number in p || r.number == k;
      assert k !in p;
    }
  }

  /** Every row lands in exactly one group: the groups hold as many measurements as there are rows. */
  lemma {:induction false} GroupsTotal(rows: seq<Row>)
    ensures GroupTotal(rows, NumbersOf(rows)) == |rows|
  {
    if |rows| > 0 {
      var p := rows[..|rows| - 1];
      var r := rows[|rows| - 1];
      var keys := NumbersOf(p);
      GroupsTotal(p);
      NumbersOfDistinct(p);
      assert rows == p + [r];
      TotalStep(p, r, keys);
      if r.number !in keys {
        GroupEmpty(p, r.number);
        assert NumbersOf(rows)[..|keys|] == keys;
        assert |Group(rows, r.number)| == 1;
      }
    }
  }

  /** Loading keeps every record: the stored probes hold as many measurements as there are rows. */
  lemma LoadedTotal(rows: seq<Row>)
    ensures TotalSize(Loaded(rows), NumbersOf(rows)) == |rows|
  {
    GroupsTotal(rows);
    SortedSizes(rows, NumbersOf(rows));
  }

  lemma {:induction false} SortedSizes(rows: seq<Row>, keys: seq<string>)
    requires forall k :: k in keys ==> k in NumbersOf(rows)
    ensures TotalSize(Loaded(rows), keys) == GroupTotal(rows, keys)
  {
    if |keys| > 0 {
      var p := keys[..|keys| - 1];
      var k := keys[|keys| - 1];
      assert forall x :: x in p ==> x in keys;
      SortedSizes(rows, p);
      SortByDepthCorrect(Group(rows, k));
      assert Loaded(rows)[k] == SortByDepth(Group(rows, k));
    }
  }

  /** Each loaded probe is sorted by depth and is a stable reordering of its rows' measurements. */
  lemma LoadedSorted(rows: seq<Row>, k: string)
    requires k in Loaded(rows)
    ensures Ascending(Depths(Loaded(rows)[k]))
    ensures multiset(Loaded(rows)[k]) == multiset(Group(rows, k))
    ensures forall v :: AtDepth(Loaded(rows)[k], v) == AtDepth(Group(rows, k), v)
  {
    SortByDepthCorrect(Group(rows, k));
  }

  /** Negative indices address the same probes from the end. */
  lemma NegativeIndex(pl: ProbeList, i: int)
    requires pl.Valid() && 0 <= i < |pl.numbers|
    ensures pl.GetItem(i - |pl.numbers|) == pl.GetItem(i)
    ensures pl.GetItem(i).Ok? && pl.GetItem(i).value.number == pl.numbers[i]
  {
  }
}
