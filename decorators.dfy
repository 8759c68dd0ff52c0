/**
 * The `filter(field)` decorator: the records a reader returns, cleaned of
 * those whose field holds no value (a JSON null), in their original order.
 */
module Decorators {
  import opened Wrappers

  /** A JSON scalar as a record carries it. */
  datatype Value = Number(x: real) | Text(s: string)

  /** A record as the reader returns it: field name to value, None for a null. */
  type Record = map<string, Option<Value>>

  /** Every record has the field (a missing one raises a KeyError). */
  predicate AllHaveField(rs: seq<Record>, field: string)
  {
    forall i :: 0 <= i < |rs| ==> field in rs[i]
  }

  /** Whether the filter keeps record r. */
  predicate Passes(r: Record, field: string)
  {
    field in r && r[field].Some?
  }

  /** The records of rs that pass, in their order in rs. */
  function Kept(rs: seq<Record>, field: string): seq<Record>
  {
    if |rs| == 0 then []
    else Kept(rs[..|rs| - 1], field) + (if Passes(rs[|rs| - 1], field) then [rs[|rs| - 1]] else [])
  }

  /**
   * remove_NoneTypes: the kept records and the number reported as removed;
   * a record without the field aborts with a KeyError.
   */
  method RemoveNoneTypes(records: seq<Record>, field: string) returns (r: Result<seq<Record>>, removed: nat)
    ensures r.Ok? <==> AllHaveField(records, field)
    ensures r.Err? ==> r.error == MissingKey
    ensures r.Ok? ==> r.value == Kept(records, field) && removed == |records| - |r.value|
  {
    var filtered: seq<Record> := [];
    for i := 0 to |records|
      invariant AllHaveField(records[..i], field)
      invariant filtered == Kept(records[..i], field)
    {
      var record := records[i];
      if field !in record {
        return Err(MissingKey), 0;
      }
      assert records[..i + 1][..i] == records[..i];
      if record[field].Some? {
        filtered := filtered + [record];
      }
    }
    assert records[..|records|] == records;
    KeptLength(records, field);
    return Ok(filtered), |records| - |filtered|;
  }

  /** The kept records are the records that pass, each as often as in the input. */
  lemma {:induction false} KeptMultiplicity(rs: seq<Record>, field: string, x: Record)
    ensures multiset(Kept(rs, field))[x] == if Passes(x, field) then multiset(rs)[x] else 0
  {
    if |rs| > 0 {
      KeptMultiplicity(rs[..|rs| - 1], field, x);
      assert rs == rs[..|rs| - 1] + [rs[|rs| - 1]];
    }
  }

  /** A record is kept exactly when it is in the input and passes. */
  lemma KeptMembership(rs: seq<Record>, field: string, x: Record)
    ensures x in Kept(rs, field) <==> x in rs && Passes(x, field)
  {
    KeptMultiplicity(rs, field, x);
  }

  /** The filter never adds records, and removes none exactly when every record passes. */
  lemma {:induction false} KeptLength(rs: seq<Record>, field: string)
    ensures |Kept(rs, field)| <= |rs|
    ensures |Kept(rs, field)| == |rs| <==> forall i :: 0 <= i < |rs| ==> Passes(rs[i], field)
  {
    if |rs| > 0 {
      var p := rs[..|rs| - 1];
      KeptLength(p, field);
      assert forall i :: 0 <= i < |p| ==> p[i] == rs[i];
    }
  }

  /** The filter commutes with concatenation, so it keeps the input's order. */
  lemma {:induction false} KeptAppend(a: seq<Record>, b: seq<Record>, field: string)
    ensures Kept(a + b, field) == Kept(a, field) + Kept(b, field)
  {
    if |b| > 0 {
      var b' := b[..|b| - 1];
      KeptAppend(a, b', field);
      assert (a + b)[..|a + b| - 1] == a + b';
    } else {
      assert a + b == a;
    }
  }

  /** Every kept record has a value for the field. */
  lemma KeptPass(rs: seq<Record>, field: string)
    ensures forall i :: 0 <= i < |Kept(rs, field)| ==> Passes(Kept(rs, field)[i], field)
  {
    forall i | 0 <= i < |Kept(rs, field)|
      ensures Passes(Kept(rs, field)[i], field)
    {
      KeptMembership(rs, field, Kept(rs, field)[i]);
    }
  }

  /** Filtering the filtered records changes nothing. */
  lemma KeptIdempotent(rs: seq<Record>, field: string)
    ensures Kept(Kept(rs, field), field) == Kept(rs, field)
  {
    KeptPass(rs, field);
    KeptAllPass(Kept(rs, field), field);
  }

  /** Records that all pass are kept unchanged. */
  lemma {:induction false} KeptAllPass(rs: seq<Record>, field: string)
    requires forall i :: 0 <= i < |rs| ==> Passes(rs[i], field)
    ensures Kept(rs, field) == rs
  {
    if |rs| > 0 {
      var p := rs[..|rs| - 1];
      assert forall i :: 0 <= i < |p| ==> p[i] == rs[i];
      KeptAllPass(p, field);
    }
  }
}
