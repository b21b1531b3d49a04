/** The result contract: what validation accepts, and what normalization makes of an accepted result. */
module ResultContract {
  import opened Common
  import opened Histogram
  import opened RunRecord
  import opened RunLaws

  const CURRENT_VERSION: nat := 2
  const MAX_SLICES: nat := 4096
  const MAX_ATTEMPT: nat := 32
  const MAX_ERROR_KINDS: nat := 64

  datatype ErrorCount = ErrorCount(kind: string, count: nat)

  /** The counting part of a scenario run result. */
  datatype Result = Result(meta: Meta, index: nat, key: string, attempt: nat, startedAt: nat, finishedAt: nat,
                           total: nat, success: nat, failure: nat,
                           histogram: seq<Bucket>, errors: seq<ErrorCount>)

  function ErrorTotal(errors: seq<ErrorCount>): nat {
    if errors == [] then 0 else ErrorTotal(errors[..|errors| - 1]) + errors[|errors| - 1].count
  }

  predicate DistinctKinds(errors: seq<ErrorCount>) {
    forall i, j :: 0 <= i < j < |errors| ==> errors[i].kind != errors[j].kind
  }

  predicate ExactCounts(r: Result) {
    && r.total <= MAX_EXACT && r.success <= MAX_EXACT && r.failure <= MAX_EXACT
    && forall i :: 0 <= i < |r.histogram| ==> r.histogram[i].count <= MAX_EXACT
  }

  predicate ValidErrors(r: Result) {
    && |r.errors| <= MAX_ERROR_KINDS && DistinctKinds(r.errors)
    && (if r.meta.version >= 2 then ErrorTotal(r.errors) == r.failure else ErrorTotal(r.errors) <= r.failure)
  }

  predicate ValidResult(r: Result) {
    && 1 <= r.meta.version <= CURRENT_VERSION
    && 1 <= r.meta.expected <= MAX_SLICES && r.index < r.meta.expected
    && r.attempt <= MAX_ATTEMPT && r.startedAt <= r.finishedAt
    && (r.meta.version >= 2 && r.total > 0 ==> r.histogram != [])
    && r.success + r.failure == r.total
    && ValidErrors(r)
    && (r.meta.version >= 2 ==> ExactCounts(r))
    && ValidBuckets(r.histogram, r.total)
  }

  lemma {:induction false} PartOfErrorTotal(errors: seq<ErrorCount>, n: nat)
    requires n <= |errors|
    ensures ErrorTotal(errors[..n]) <= ErrorTotal(errors)
    decreases |errors|
  {
    if n < |errors| {
      PartOfErrorTotal(errors[..|errors| - 1], n);
      assert errors[..|errors| - 1][..n] == errors[..n];
    } else {
      assert errors[..n] == errors;
    }
  }

  function KindsOf(errors: seq<ErrorCount>): (kinds: set<string>)
    ensures forall i :: 0 <= i < |errors| ==> errors[i].kind in kinds
  {
    if errors == [] then {} else KindsOf(errors[..|errors| - 1]) + {errors[|errors| - 1].kind}
  }

  lemma {:induction false} KindsOfMember(errors: seq<ErrorCount>, kind: string)
    requires kind in KindsOf(errors)
    ensures exists i :: 0 <= i < |errors| && errors[i].kind == kind
  {
    var n := |errors| - 1;
    if errors[n].kind != kind {
      KindsOfMember(errors[..n], kind);
      var i :| 0 <= i < n && errors[..n][i].kind == kind;
      assert errors[i].kind == kind;
    }
  }

  /** One more entry keeps the kinds distinct exactly when its kind is new. */
  lemma OneMoreKind(errors: seq<ErrorCount>, n: nat)
    requires n < |errors|
    ensures KindsOf(errors[..n + 1]) == KindsOf(errors[..n]) + {errors[n].kind}
    ensures ErrorTotal(errors[..n + 1]) == ErrorTotal(errors[..n]) + errors[n].count
    ensures DistinctKinds(errors[..n]) ==> (DistinctKinds(errors[..n + 1]) <==> errors[n].kind !in KindsOf(errors[..n]))
  {
    var more := errors[..n + 1];
    assert more[..n] == errors[..n];
    if errors[n].kind in KindsOf(errors[..n]) {
      KindsOfMember(errors[..n], errors[n].kind);
      var i :| 0 <= i < n && errors[..n][i].kind == errors[n].kind;
      assert more[i].kind == more[n].kind;
    } else if DistinctKinds(errors[..n]) {
      forall i, j | 0 <= i < j < |more| ensures more[i].kind != more[j].kind {
        assert more[i] == errors[..n][i];
        if j < n {
          assert more[j] == errors[..n][j];
        }
      }
    }
  }

  lemma DistinctPrefix(errors: seq<ErrorCount>, n: nat)
    requires n <= |errors| && !DistinctKinds(errors[..n])
    ensures !DistinctKinds(errors)
  {
    var i, j :| 0 <= i < j < n && errors[..n][i].kind == errors[..n][j].kind;
    assert errors[i].kind == errors[j].kind;
  }

  /** The loop over error kinds: a seen-set and a running total checked against `u64`. */
  method CheckErrors(r: Result) returns (ok: bool)
    requires r.failure <= U64_MAX
    ensures ok <==> ValidErrors(r)
  {
    if |r.errors| > MAX_ERROR_KINDS {
      return false;
    }
    var seen: set<string> := {};
    var sum := 0;
    for n := 0 to |r.errors|
      invariant seen == KindsOf(r.errors[..n]) && DistinctKinds(r.errors[..n]) && sum == ErrorTotal(r.errors[..n])
    {
      OneMoreKind(r.errors, n);
      if r.errors[n].kind in seen {
        DistinctPrefix(r.errors, n + 1);
        return false;
      }
      seen := seen + {r.errors[n].kind};
      if sum + r.errors[n].count > U64_MAX {
        PartOfErrorTotal(r.errors, n + 1);
        return false;
      }
      sum := sum + r.errors[n].count;
    }
    assert r.errors[..|r.errors|] == r.errors;
    return if r.meta.version >= 2 then sum == r.failure else sum <= r.failure;
  }

  method Validate(r: Result) returns (ok: bool)
    requires r.total <= U64_MAX && r.success <= U64_MAX && r.failure <= U64_MAX
    ensures ok <==> ValidResult(r)
  {
    if !(1 <= r.meta.version <= CURRENT_VERSION) || !(1 <= r.meta.expected <= MAX_SLICES) || r.index >= r.meta.expected {
      return false;
    }
    if r.attempt > MAX_ATTEMPT {
      return false;
    }
    if r.meta.version >= 2 && r.total > 0 && r.histogram == [] {
      return false;
    }
    if r.success + r.failure != r.total {
      return false;
    }
    var errors := CheckErrors(r);
    if !errors {
      return false;
    }
    if r.meta.version >= 2 && !ExactCounts(r) {
      return false;
    }
    if r.finishedAt < r.startedAt {
      return false;
    }
    ok := ValidateLatencyBuckets(r.histogram, r.total);
  }

  // ---- Normalization -------------------------------------------------------------------------

  function ByKind(errors: seq<ErrorCount>): map<string, nat> {
    if errors == [] then map[]
    else
      var rest, last := ByKind(errors[..|errors| - 1]), errors[|errors| - 1];
      rest[last.kind := Count(rest, last.kind) + last.count]
  }

  function Normalized(r: Result): Slice {
    Slice(r.meta, r.index, r.key, r.total, r.success, r.failure, Bounds(r.histogram), Counts(r.histogram), ByKind(r.errors))
  }

  lemma {:induction false} KindsComeFromErrors(errors: seq<ErrorCount>, kind: string)
    requires kind in ByKind(errors)
    ensures exists i :: 0 <= i < |errors| && errors[i].kind == kind
  {
    var n := |errors| - 1;
    if errors[n].kind != kind {
      KindsComeFromErrors(errors[..n], kind);
      var i :| 0 <= i < n && errors[..n][i].kind == kind;
      assert errors[i].kind == kind;
    }
  }

  lemma {:induction false} KindsKeepTheTotal(errors: seq<ErrorCount>)
    requires DistinctKinds(errors)
    ensures MapSum(ByKind(errors)) == ErrorTotal(errors)
  {
    if errors != [] {
      var n := |errors| - 1;
      var rest, last := ByKind(errors[..n]), errors[n];
      KindsKeepTheTotal(errors[..n]);
      if last.kind in rest {
        KindsComeFromErrors(errors[..n], last.kind);
      }
      var all := ByKind(errors);
      MapSumRemove(all, last.kind);
      assert all - {last.kind} == rest;
    }
  }

  /** A valid result within the exact range normalizes to a slice the aggregation scripts are proved for. */
  lemma NormalizedResultIsValid(r: Result)
    requires ValidResult(r) && ExactCounts(r)
    ensures ValidSlice(Normalized(r))
  {
    KindsKeepTheTotal(r.errors);
    if r.histogram == [] {
      assert Bounds(r.histogram) == [];
    }
  }
}
