/**
 * The per-probe sort of the probe list: Python's list.sort with the depth as
 * key, a stable sort. It is given as an insertion that places each element
 * after every earlier one of no greater depth, and proved to order by depth,
 * to permute, and to keep the file order of equal depths.
 */
module ProbeSort {
  import opened Measurements

  /** Depths never decrease along s. */
  predicate DepthSorted(s: seq<Measurement>)
  {
    forall i, j :: 0 <= i <= j < |s| ==> s[i].depth <= s[j].depth
  }

  /** m inserted into s after the last element whose depth does not exceed m's. */
  function Insert(s: seq<Measurement>, m: Measurement): seq<Measurement>
  {
    if |s| == 0 then [m]
    else if s[|s| - 1].depth <= m.depth then s + [m]
    else Insert(s[..|s| - 1], m) + [s[|s| - 1]]
  }

  /** measurements.sort(key=lambda x: x.depth) */
  function SortByDepth(ms: seq<Measurement>): seq<Measurement>
  {
    if |ms| == 0 then [] else Insert(SortByDepth(ms[..|ms| - 1]), ms[|ms| - 1])
  }

  /** The measurements of s at depth v, in their order in s. */
  function AtDepth(s: seq<Measurement>, v: real): seq<Measurement>
  {
    if |s| == 0 then [] else AtDepth(s[..|s| - 1], v) + Only(s[|s| - 1], v)
  }

  /** m alone when it lies at depth v, nothing otherwise. */
  function Only(m: Measurement, v: real): seq<Measurement>
  {
    if m.depth == v then [m] else []
  }

  lemma {:induction false} InsertPermutes(s: seq<Measurement>, m: Measurement)
    ensures multiset(Insert(s, m)) == multiset(s) + multiset{m}
  {
    if |s| > 0 && m.depth < s[|s| - 1].depth {
      InsertPermutes(s[..|s| - 1], m);
      assert s == s[..|s| - 1] + [s[|s| - 1]];
    }
  }

  lemma {:induction false} InsertSorted(s: seq<Measurement>, m: Measurement)
    requires DepthSorted(s)
    ensures DepthSorted(Insert(s, m))
    ensures |Insert(s, m)| == |s| + 1
    ensures |s| > 0 ==> Insert(s, m)[|s|].depth == if s[|s| - 1].depth <= m.depth then m.depth else s[|s| - 1].depth
  {
    if |s| > 0 && m.depth < s[|s| - 1].depth {
      var p := s[..|s| - 1];
      var last := s[|s| - 1];
      InsertSorted(p, m);
      var q := Insert(p, m);
      assert forall i :: 0 <= i < |q| ==> q[i].depth <= last.depth by {
        InsertBounded(p, m, last.depth);
      }
    }
  }

  /** Inserting keeps every depth at or below a bound that all the inputs respect. */
  lemma {:induction false} InsertBounded(s: seq<Measurement>, m: Measurement, bound: real)
    requires forall i :: 0 <= i < |s| ==> s[i].depth <= bound
    requires m.depth <= bound
    ensures forall i :: 0 <= i < |Insert(s, m)| ==> Insert(s, m)[i].depth <= bound
  {
    if |s| > 0 && m.depth < s[|s| - 1].depth {
      InsertBounded(s[..|s| - 1], m, bound);
    }
  }

  lemma {:induction false} AtDepthAppend(s: seq<Measurement>, t: seq<Measurement>, v: real)
    ensures AtDepth(s + t, v) == AtDepth(s, v) + AtDepth(t, v)
  {
    if |t| > 0 {
      AtDepthAppend(s, t[..|t| - 1], v);
      assert (s + t)[..|s + t| - 1] == s + t[..|t| - 1];
    } else {
      assert s + t == s;
    }
  }

  lemma {:induction false} InsertStable(s: seq<Measurement>, m: Measurement, v: real)
    ensures AtDepth(Insert(s, m), v) == AtDepth(s, v) + Only(m, v)
  {
    if |s| == 0 {
      assert [m][..0] == [];
    } else if s[|s| - 1].depth <= m.depth {
      assert (s + [m])[..|s|] == s;
    } else {
      var p := s[..|s| - 1];
      var last := s[|s| - 1];
      InsertStable(p, m, v);
      AtDepthPush(Insert(p, m), last, v);
      assert s == p + [last];
      AtDepthPush(p, last, v);
      SwapEmpty(AtDepth(p, v), Only(m, v), Only(last, v));
    }
  }

  lemma AtDepthPush(s: seq<Measurement>, x: Measurement, v: real)
    ensures AtDepth(s + [x], v) == AtDepth(s, v) + Only(x, v)
  {
    assert (s + [x])[..|s|] == s;
  }

  lemma SwapEmpty(x: seq<Measurement>, a: seq<Measurement>, b: seq<Measurement>)
    requires a == [] || b == []
    ensures x + a + b == x + b + a
  {
    if a == [] {
      assert x + a == x;
      assert x + b + a == x + b;
    } else {
      assert x + b == x;
      assert x + a + b == x + a;
    }
  }

  /** The sort orders by depth, permutes, and keeps the input order of equal depths. */
  lemma {:induction false} SortByDepthCorrect(ms: seq<Measurement>)
    ensures DepthSorted(SortByDepth(ms))
    ensures multiset(SortByDepth(ms)) == multiset(ms)
    ensures |SortByDepth(ms)| == |ms|
    ensures forall v :: AtDepth(SortByDepth(ms), v) == AtDepth(ms, v)
  {
    if |ms| > 0 {
      var p := ms[..|ms| - 1];
      var m := ms[|ms| - 1];
      SortByDepthCorrect(p);
      InsertSorted(SortByDepth(p), m);
      InsertPermutes(SortByDepth(p), m);
      assert ms == p + [m];
      forall v
        ensures AtDepth(SortByDepth(ms), v) == AtDepth(ms, v)
      {
        InsertStable(SortByDepth(p), m, v);
      }
    }
  }

  /** Sorted measurements have ascending depths, as the zone and layer passes expect. */
  lemma SortedDepthsAscending(ms: seq<Measurement>)
    ensures Ascending(Depths(SortByDepth(ms)))
  {
    SortByDepthCorrect(ms);
  }
}
