/**
 * Maximal runs of a per-point signal: the reference against which both
 * segmentation passes are specified. A zone is a maximal run of equal zone
 * numbers; a layer is a maximal run of points inside a layer.
 */
module Runs {

  /** The boundary both passes place between two consecutive readings. */
  function Mid(a: real, b: real): real { 0.5 * (a + b) }

  /** The half-open index interval [start, end) of a run of points. */
  datatype Run = Run(start: nat, end: nat)

  /**
   * R cuts c into consecutive, non-empty runs that cover it, each constant
   * and each maximal (the value changes where one run ends and the next starts).
   */
  ghost predicate IsRunDecomposition<T>(c: seq<T>, R: seq<Run>)
  {
    RunsTile(|c|, R) && RunsConstant(c, R) && RunsMaximal(c, R)
  }

  /** R tiles the indices 0..n with consecutive non-empty runs. */
  ghost predicate RunsTile(n: nat, R: seq<Run>)
  {
    && (n == 0 <==> |R| == 0)
    && (|R| > 0 ==> R[0].start == 0 && R[|R| - 1].end == n)
    && (forall j :: 0 <= j < |R| ==> R[j].start < R[j].end <= n)
    && (forall j, j' :: 0 <= j && j' == j + 1 && j' < |R| ==> R[j].end == R[j'].start)
  }

  /** Every run of R holds one value of c. */
  ghost predicate RunsConstant<T>(c: seq<T>, R: seq<Run>)
  {
    forall j, i :: 0 <= j < |R| && R[j].start <= i < R[j].end && i < |c| && R[j].start < |c| ==> c[i] == c[R[j].start]
  }

  /** The value of c changes where each run of R ends inside c. */
  ghost predicate RunsMaximal<T>(c: seq<T>, R: seq<Run>)
  {
    forall j :: 0 <= j < |R| - 1 && R[j].end < |c| && R[j].start < |c| ==> c[R[j].end] != c[R[j].start]
  }

  /** The maximal runs of equal values of c, from the first point to the last. */
  function RunsOf<T(==)>(c: seq<T>): seq<Run>
  {
    if |c| == 0 then []
    else
      var R := RunsOf(c[..|c| - 1]);
      if |R| > 0 && c[|c| - 1] == c[|c| - 2] then
        R[..|R| - 1] + [Run(R[|R| - 1].start, |c|)]
      else
        R + [Run(|c| - 1, |c|)]
  }

  /** RunsOf cuts c into its maximal constant runs. */
  lemma {:induction false} RunsOfDecomposes<T>(c: seq<T>)
    ensures IsRunDecomposition(c, RunsOf(c))
  {
    if |c| > 0 {
      var R := RunsOf(c[..|c| - 1]);
      RunsOfDecomposes(c[..|c| - 1]);
      if |R| > 0 && c[|c| - 1] == c[|c| - 2] {
        ExtendLastRun(c, R);
      } else {
        StartNewRun(c, R);
      }
    }
  }

  /** A last point equal to its predecessor extends the last run. */
  lemma ExtendLastRun<T>(c: seq<T>, R: seq<Run>)
    requires |c| >= 2 && IsRunDecomposition(c[..|c| - 1], R)
    requires c[|c| - 1] == c[|c| - 2]
    ensures |R| > 0 && IsRunDecomposition(c, R[..|R| - 1] + [Run(R[|R| - 1].start, |c|)])
  {
    ExtendTile(|c|, R);
    ExtendConstant(c, R);
    ExtendMaximal(c, R);
  }

  lemma ExtendTile(n: nat, R: seq<Run>)
    requires n >= 2 && RunsTile(n - 1, R)
    ensures |R| > 0 && RunsTile(n, R[..|R| - 1] + [Run(R[|R| - 1].start, n)])
  {
    var last := |R| - 1;
    var R' := R[..last] + [Run(R[last].start, n)];
    assert forall j :: 0 <= j < last ==> R'[j] == R[j];
    assert R'[last] == Run(R[last].start, n);
    assert R'[0].start == 0;
    forall j | 0 <= j < |R'| - 1
      ensures R'[j].end == R'[j + 1].start
    {
      if j + 1 < last {
        assert R'[j + 1] == R[j + 1];
      }
    }
  }

  lemma ExtendConstant<T>(c: seq<T>, R: seq<Run>)
    requires |c| >= 2 && RunsTile(|c| - 1, R) && RunsConstant(c[..|c| - 1], R)
    requires c[|c| - 1] == c[|c| - 2]
    ensures |R| > 0 && RunsConstant(c, R[..|R| - 1] + [Run(R[|R| - 1].start, |c|)])
  {
    var n, p, last := |c|, c[..|c| - 1], |R| - 1;
    var R' := R[..last] + [Run(R[last].start, n)];
    assert forall j :: 0 <= j < last ==> R'[j] == R[j];
    forall j, i | 0 <= j < |R'| && R'[j].start <= i < R'[j].end && i < n && R'[j].start < n
      ensures c[i] == c[R'[j].start]
    {
      if j < last {
        assert p[i] == p[R[j].start];
      } else if i < n - 1 {
        assert p[i] == p[R[last].start];
      } else {
        assert p[n - 2] == p[R[last].start];
      }
    }
  }

  lemma ExtendMaximal<T>(c: seq<T>, R: seq<Run>)
    requires |c| >= 2 && RunsTile(|c| - 1, R) && RunsMaximal(c[..|c| - 1], R)
    ensures |R| > 0 && RunsMaximal(c, R[..|R| - 1] + [Run(R[|R| - 1].start, |c|)])
  {
    var n, p, last := |c|, c[..|c| - 1], |R| - 1;
    var R' := R[..last] + [Run(R[last].start, n)];
    assert forall j :: 0 <= j < last ==> R'[j] == R[j];
    forall j | 0 <= j < |R'| - 1 && R'[j].end < n && R'[j].start < n
      ensures c[R'[j].end] != c[R'[j].start]
    {
      assert R[j].end == R[j + 1].start < R[j + 1].end <= n - 1;
      assert p[R[j].end] != p[R[j].start];
    }
  }

  /** A last point that differs from its predecessor (or is the first) opens a run. */
  lemma StartNewRun<T>(c: seq<T>, R: seq<Run>)
    requires |c| >= 1 && IsRunDecomposition(c[..|c| - 1], R)
    requires |R| == 0 || c[|c| - 1] != c[|c| - 2]
    ensures IsRunDecomposition(c, R + [Run(|c| - 1, |c|)])
  {
    StartTile(|c|, R);
    StartConstant(c, R);
    StartMaximal(c, R);
  }

  lemma StartTile(n: nat, R: seq<Run>)
    requires n >= 1 && RunsTile(n - 1, R)
    ensures RunsTile(n, R + [Run(n - 1, n)])
  {
    var R' := R + [Run(n - 1, n)];
    assert forall j :: 0 <= j < |R| ==> R'[j] == R[j];
  }

  lemma StartConstant<T>(c: seq<T>, R: seq<Run>)
    requires |c| >= 1 && RunsTile(|c| - 1, R) && RunsConstant(c[..|c| - 1], R)
    ensures RunsConstant(c, R + [Run(|c| - 1, |c|)])
  {
    var n, p := |c|, c[..|c| - 1];
    var R' := R + [Run(n - 1, n)];
    assert forall j :: 0 <= j < |R| ==> R'[j] == R[j];
    forall j, i | 0 <= j < |R'| && R'[j].start <= i < R'[j].end && i < n && R'[j].start < n
      ensures c[i] == c[R'[j].start]
    {
      if j < |R| {
        assert p[i] == p[R[j].start];
      }
    }
  }

  lemma StartMaximal<T>(c: seq<T>, R: seq<Run>)
    requires |c| >= 1 && RunsTile(|c| - 1, R) && RunsConstant(c[..|c| - 1], R) && RunsMaximal(c[..|c| - 1], R)
    requires |R| == 0 || c[|c| - 1] != c[|c| - 2]
    ensures RunsMaximal(c, R + [Run(|c| - 1, |c|)])
  {
    var n, p := |c|, c[..|c| - 1];
    var R' := R + [Run(n - 1, n)];
    assert forall j :: 0 <= j < |R| ==> R'[j] == R[j];
    forall j | 0 <= j < |R'| - 1 && R'[j].end < n && R'[j].start < n
      ensures c[R'[j].end] != c[R'[j].start]
    {
      if j < |R| - 1 {
        assert R[j].end == R[j + 1].start < R[j + 1].end <= n - 1;
        assert p[R[j].end] != p[R[j].start];
      } else {
        assert R'[j].end == n - 1;
        assert p[n - 2] == p[R[j].start];
      }
    }
  }

  /** How many times the value changes between consecutive points. */
  function ChangeCount<T(==)>(c: seq<T>): nat
  {
    if |c| <= 1 then 0
    else ChangeCount(c[..|c| - 1]) + (if c[|c| - 1] != c[|c| - 2] then 1 else 0)
  }

  /** A non-empty signal has one run more than it has changes. */
  lemma {:induction false} RunsCount<T>(c: seq<T>)
    requires |c| >= 1
    ensures |RunsOf(c)| == ChangeCount(c) + 1
  {
    if |c| > 1 {
      RunsCount(c[..|c| - 1]);
      RunsOfDecomposes(c[..|c| - 1]);
    }
  }

  /** Every point lies in exactly one run, and takes that run's value. */
  lemma RunContaining<T>(c: seq<T>, R: seq<Run>, i: nat) returns (j: nat)
    requires IsRunDecomposition(c, R)
    requires i < |c|
    ensures j < |R| && R[j].start <= i < R[j].end && c[i] == c[R[j].start]
    ensures forall j' :: 0 <= j' < |R| && R[j'].start <= i < R[j'].end ==> j' == j
  {
    j := 0;
    while R[j].end <= i
      invariant j < |R| && R[j].start <= i
      decreases |R| - j
    {
      j := j + 1;
    }
    RunsOrdered(c, R);
  }

  /** Runs are strictly ordered: an earlier run ends where or before a later one starts. */
  lemma {:induction false} RunsOrdered<T>(c: seq<T>, R: seq<Run>)
    requires IsRunDecomposition(c, R)
    ensures forall j1, j2 :: 0 <= j1 < j2 < |R| ==> R[j1].end <= R[j2].start
  {
    forall j1, j2 | 0 <= j1 < j2 < |R|
      ensures R[j1].end <= R[j2].start
    {
      var k := j1;
      while k < j2
        invariant j1 <= k <= j2
        invariant R[j1].end <= R[k].end
        invariant k > j1 ==> R[j1].end <= R[k].start
        decreases j2 - k
      {
        k := k + 1;
      }
    }
  }

  /**
   * S lists the maximal runs of true in b, in order: each is all true, bounded
   * by false (or the ends of b), separated from the next by at least one
   * false, and every true point lies in one of them.
   */
  ghost predicate IsSpanList(b: seq<bool>, S: seq<Run>)
  {
    SpansWithin(b, S) && SpansSeparated(S) && SpansTrue(b, S) && SpansBounded(b, S) && SpansCover(b, S)
  }

  ghost predicate SpansWithin(b: seq<bool>, S: seq<Run>)
  {
    forall j :: 0 <= j < |S| ==> S[j].start < S[j].end <= |b|
  }

  ghost predicate SpansSeparated(S: seq<Run>)
  {
    forall j, j' :: 0 <= j && j' == j + 1 && j' < |S| ==> S[j].end < S[j'].start
  }

  ghost predicate SpansTrue(b: seq<bool>, S: seq<Run>)
    requires SpansWithin(b, S)
  {
    forall j, i :: 0 <= j < |S| && S[j].start <= i < S[j].end ==> b[i]
  }

  ghost predicate SpansBounded(b: seq<bool>, S: seq<Run>)
    requires SpansWithin(b, S)
  {
    && (forall j :: 0 <= j < |S| && 0 < S[j].start ==> !b[S[j].start - 1])
    && (forall j :: 0 <= j < |S| && S[j].end < |b| ==> !b[S[j].end])
  }

  ghost predicate SpansCover(b: seq<bool>, S: seq<Run>)
  {
    forall i :: 0 <= i < |b| && b[i] ==> exists j :: 0 <= j < |S| && S[j].start <= i < S[j].end
  }

  /** The maximal runs of true in b. */
  function SpansOf(b: seq<bool>): seq<Run>
  {
    if |b| == 0 then []
    else
      var S := SpansOf(b[..|b| - 1]);
      if !b[|b| - 1] then S
      else if |b| >= 2 && b[|b| - 2] && |S| > 0 then S[..|S| - 1] + [Run(S[|S| - 1].start, |b|)]
      else S + [Run(|b| - 1, |b|)]
  }

  /** SpansOf lists the maximal runs of true in b. */
  lemma {:induction false} SpansOfListsSpans(b: seq<bool>)
    ensures IsSpanList(b, SpansOf(b))
  {
    if |b| > 0 {
      var S := SpansOf(b[..|b| - 1]);
      SpansOfListsSpans(b[..|b| - 1]);
      if !b[|b| - 1] {
        SpansSkipFalse(b, S);
      } else if |b| >= 2 && b[|b| - 2] {
        LastSpanEndsAt(b[..|b| - 1], S);
        SpansExtendLast(b, S);
      } else {
        SpansOpen(b, S);
      }
    }
  }

  /** A false last point leaves the spans unchanged. */
  lemma SpansSkipFalse(b: seq<bool>, S: seq<Run>)
    requires |b| >= 1 && IsSpanList(b[..|b| - 1], S) && !b[|b| - 1]
    ensures IsSpanList(b, S)
  {
    var p := b[..|b| - 1];
    forall i | 0 <= i < |b| && b[i]
      ensures exists j :: 0 <= j < |S| && S[j].start <= i < S[j].end
    {
      assert p[i];
    }
  }

  /** A true last point after a true point lengthens the last span, which ends at the previous point. */
  lemma SpansExtendLast(b: seq<bool>, S: seq<Run>)
    requires |b| >= 2 && IsSpanList(b[..|b| - 1], S) && b[|b| - 1]
    requires |S| > 0 && S[|S| - 1].end == |b| - 1
    ensures IsSpanList(b, S[..|S| - 1] + [Run(S[|S| - 1].start, |b|)])
  {
    var S' := S[..|S| - 1] + [Run(S[|S| - 1].start, |b|)];
    ExtendKeepsOrder(b, S);
    ExtendKeepsTrue(b, S);
    ExtendKeepsBounds(b, S);
    ExtendKeepsCover(b, S);
  }

  lemma ExtendKeepsOrder(b: seq<bool>, S: seq<Run>)
    requires |b| >= 2 && SpansWithin(b[..|b| - 1], S) && SpansSeparated(S)
    requires |S| > 0 && S[|S| - 1].end == |b| - 1
    ensures var S' := S[..|S| - 1] + [Run(S[|S| - 1].start, |b|)];
            SpansWithin(b, S') && SpansSeparated(S')
  {
    var last := |S| - 1;
    var S' := S[..last] + [Run(S[last].start, |b|)];
    assert forall j :: 0 <= j < last ==> S'[j] == S[j];
    forall j | 0 <= j < |S'| - 1
      ensures S'[j].end < S'[j + 1].start
    {
      if j + 1 < last {
        assert S'[j + 1] == S[j + 1];
      }
    }
  }

  lemma ExtendKeepsTrue(b: seq<bool>, S: seq<Run>)
    requires |b| >= 2 && SpansWithin(b[..|b| - 1], S) && SpansTrue(b[..|b| - 1], S) && b[|b| - 1]
    requires |S| > 0 && S[|S| - 1].end == |b| - 1
    ensures var S' := S[..|S| - 1] + [Run(S[|S| - 1].start, |b|)];
            SpansWithin(b, S') && SpansTrue(b, S')
  {
    var n, p, last := |b|, b[..|b| - 1], |S| - 1;
    var S' := S[..last] + [Run(S[last].start, n)];
    assert forall j :: 0 <= j < last ==> S'[j] == S[j];
    forall j, i | 0 <= j < |S'| && S'[j].start <= i < S'[j].end
      ensures b[i]
    {
      if i < n - 1 {
        assert p[i];
      }
    }
  }

  lemma ExtendKeepsBounds(b: seq<bool>, S: seq<Run>)
    requires |b| >= 2 && SpansWithin(b[..|b| - 1], S) && SpansSeparated(S) && SpansBounded(b[..|b| - 1], S)
    requires |S| > 0 && S[|S| - 1].end == |b| - 1
    ensures var S' := S[..|S| - 1] + [Run(S[|S| - 1].start, |b|)];
            SpansWithin(b, S') && SpansBounded(b, S')
  {
    var n, p, last := |b|, b[..|b| - 1], |S| - 1;
    var S' := S[..last] + [Run(S[last].start, n)];
    assert forall j :: 0 <= j < last ==> S'[j] == S[j];
    forall j | 0 <= j < |S'| && 0 < S'[j].start
      ensures !b[S'[j].start - 1]
    {
      assert !p[S[j].start - 1];
    }
    forall j | 0 <= j < |S'| && S'[j].end < n
      ensures !b[S'[j].end]
    {
      assert S[j].end < S[j + 1].start < S[j + 1].end <= n - 1;
      assert !p[S[j].end];
    }
  }

  lemma ExtendKeepsCover(b: seq<bool>, S: seq<Run>)
    requires |b| >= 2 && SpansWithin(b[..|b| - 1], S) && SpansCover(b[..|b| - 1], S)
    requires |S| > 0 && S[|S| - 1].end == |b| - 1
    ensures SpansCover(b, S[..|S| - 1] + [Run(S[|S| - 1].start, |b|)])
  {
    var n, p, last := |b|, b[..|b| - 1], |S| - 1;
    var S' := S[..last] + [Run(S[last].start, n)];
    forall i | 0 <= i < n && b[i]
      ensures exists j :: 0 <= j < |S'| && S'[j].start <= i < S'[j].end
    {
      if i < n - 1 {
        assert p[i];
        var j :| 0 <= j < |S| && S[j].start <= i < S[j].end;
        if j < last {
          assert S'[j] == S[j];
        } else {
          assert S'[last] == Run(S[last].start, n);
        }
      } else {
        assert S'[last] == Run(S[last].start, n);
        assert S[last].start < S[last].end;
      }
    }
  }

  /** A true last point after a false point (or as the first point) opens a span. */
  lemma SpansOpen(b: seq<bool>, S: seq<Run>)
    requires |b| >= 1 && IsSpanList(b[..|b| - 1], S) && b[|b| - 1]
    requires |b| == 1 || !b[|b| - 2]
    ensures IsSpanList(b, S + [Run(|b| - 1, |b|)])
  {
    var n := |b|;
    var p := b[..n - 1];
    if |S| > 0 {
      var j := |S| - 1;
      assert S[j].start <= n - 2 ==> p[n - 2] == b[n - 2];
      assert S[j].end < n - 1;
    }
    OpenKeepsOrder(b, S);
    OpenKeepsTrue(b, S);
    OpenKeepsBounds(b, S);
    OpenKeepsCover(b, S);
  }

  lemma OpenKeepsOrder(b: seq<bool>, S: seq<Run>)
    requires |b| >= 1 && SpansWithin(b[..|b| - 1], S) && SpansSeparated(S)
    requires |S| > 0 ==> S[|S| - 1].end < |b| - 1
    ensures SpansWithin(b, S + [Run(|b| - 1, |b|)]) && SpansSeparated(S + [Run(|b| - 1, |b|)])
  {
    var S' := S + [Run(|b| - 1, |b|)];
    assert forall j :: 0 <= j < |S| ==> S'[j] == S[j];
    forall j | 0 <= j < |S'| - 1
      ensures S'[j].end < S'[j + 1].start
    {
      if j + 1 < |S| {
        assert S'[j + 1] == S[j + 1];
      }
    }
  }

  lemma OpenKeepsTrue(b: seq<bool>, S: seq<Run>)
    requires |b| >= 1 && SpansWithin(b[..|b| - 1], S) && SpansTrue(b[..|b| - 1], S) && b[|b| - 1]
    ensures SpansWithin(b, S + [Run(|b| - 1, |b|)]) && SpansTrue(b, S + [Run(|b| - 1, |b|)])
  {
    var n, p := |b|, b[..|b| - 1];
    var S' := S + [Run(n - 1, n)];
    assert forall j :: 0 <= j < |S| ==> S'[j] == S[j];
    forall j, i | 0 <= j < |S'| && S'[j].start <= i < S'[j].end
      ensures b[i]
    {
      if j < |S| {
        assert p[i];
      }
    }
  }

  lemma OpenKeepsBounds(b: seq<bool>, S: seq<Run>)
    requires |b| >= 1 && SpansWithin(b[..|b| - 1], S) && SpansSeparated(S) && SpansBounded(b[..|b| - 1], S)
    requires |b| == 1 || !b[|b| - 2]
    requires |S| > 0 ==> S[|S| - 1].end < |b| - 1
    ensures SpansWithin(b, S + [Run(|b| - 1, |b|)]) && SpansBounded(b, S + [Run(|b| - 1, |b|)])
  {
    var n, p := |b|, b[..|b| - 1];
    var S' := S + [Run(n - 1, n)];
    assert forall j :: 0 <= j < |S| ==> S'[j] == S[j];
    forall j | 0 <= j < |S'| && 0 < S'[j].start
      ensures !b[S'[j].start - 1]
    {
      if j < |S| {
        assert !p[S[j].start - 1];
      }
    }
    forall j | 0 <= j < |S'| && S'[j].end < n
      ensures !b[S'[j].end]
    {
      assert j < |S|;
      if j < |S| - 1 {
        assert S[j].end < S[j + 1].start < S[j + 1].end <= n - 1;
      }
      assert !p[S[j].end];
    }
  }

  lemma OpenKeepsCover(b: seq<bool>, S: seq<Run>)
    requires |b| >= 1 && SpansCover(b[..|b| - 1], S)
    ensures SpansCover(b, S + [Run(|b| - 1, |b|)])
  {
    var n, p := |b|, b[..|b| - 1];
    var S' := S + [Run(n - 1, n)];
    forall i | 0 <= i < n && b[i]
      ensures exists j :: 0 <= j < |S'| && S'[j].start <= i < S'[j].end
    {
      if i < n - 1 {
        assert p[i];
        var j :| 0 <= j < |S| && S[j].start <= i < S[j].end;
        assert S'[j] == S[j];
      } else {
        assert S'[|S|].start <= i < S'[|S|].end;
      }
    }
  }

  /** Span ends increase along the list. */
  lemma SpanEndsIncrease(b: seq<bool>, S: seq<Run>, j: nat)
    requires SpansWithin(b, S) && SpansSeparated(S)
    requires j < |S|
    ensures S[j].end <= S[|S| - 1].end
  {
    var k := j;
    while k < |S| - 1
      invariant j <= k <= |S| - 1
      invariant S[j].end <= S[k].end
      decreases |S| - k
    {
      k := k + 1;
    }
  }

  /** When the last point of b is true, the last span ends at the end of b. */
  lemma LastSpanEndsAt(b: seq<bool>, S: seq<Run>)
    requires IsSpanList(b, S)
    requires |b| >= 1 && b[|b| - 1]
    ensures |S| > 0 && S[|S| - 1].end == |b|
  {
    var i := |b| - 1;
    var j :| 0 <= j < |S| && S[j].start <= i < S[j].end;
    SpanEndsIncrease(b, S, j);
  }

  /** Spans are strictly ordered: an earlier span ends before a later one starts. */
  lemma {:induction false} SpansOrdered(b: seq<bool>, S: seq<Run>)
    requires SpansWithin(b, S) && SpansSeparated(S)
    ensures forall j1, j2 :: 0 <= j1 < j2 < |S| ==> S[j1].end < S[j2].start
  {
    forall j1, j2 | 0 <= j1 < j2 < |S|
      ensures S[j1].end < S[j2].start
    {
      var k := j1 + 1;
      while k < j2
        invariant j1 < k <= j2
        invariant S[j1].end < S[k].start
        decreases j2 - k
      {
        k := k + 1;
      }
    }
  }
}
