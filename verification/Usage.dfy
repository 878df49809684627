/** Usage totals: their componentwise sum, over sequences and over the values of a map. */
module Usage {
  import opened Sorting

  /** The counters of the totals. */
  datatype Column =
    | InferenceRounds
    | CompactionRounds
    | FailedRounds
    | RetryCount
    | EstimatedInputTokens
    | ReportedInputTokens
    | ReportedCachedInputTokens
    | ReportedCacheWriteTokens
    | ReportedOutputTokens
    | RequestBytes
    | ResponseBytes
    | InferenceDurationMs
    | RequestedToolCalls
    | ExecutedToolCalls
    | FailedToolCalls
    | FullToolOutputBytes
    | ModelToolOutputBytes
    | ToolDurationMs

  /** A count for every counter. Adding two totals adds them counter by counter. */
  type UsageTotals = multiset<Column>

  const ZERO: UsageTotals := multiset{}

  lemma PlusLaws(a: UsageTotals, b: UsageTotals, c: UsageTotals)
    ensures a + b == b + a
    ensures (a + b) + c == a + (b + c)
    ensures a + ZERO == a && ZERO + a == a
  {
  }

  /** The sum of `f` over the values of a map, in whatever order. */
  ghost function MapSum<K, V>(m: map<K, V>, f: V -> UsageTotals): UsageTotals
    decreases |m|
  {
    if m == map[] then ZERO
    else
      var k :| k in m;
      f(m[k]) + MapSum(m - {k}, f)
  }

  /** The order does not matter: any key may be taken first. */
  lemma {:induction false} MapSumAt<K, V>(m: map<K, V>, f: V -> UsageTotals, k: K)
    requires k in m
    ensures MapSum(m, f) == f(m[k]) + MapSum(m - {k}, f)
    decreases |m|
  {
    var j :| j in m && MapSum(m, f) == f(m[j]) + MapSum(m - {j}, f);
    if j != k {
      MapSumAt(m - {j}, f, k);
      MapSumAt(m - {k}, f, j);
      assert m - {j} - {k} == m - {k} - {j};
      var rest := MapSum(m - {j} - {k}, f);
      PlusLaws(f(m[j]), f(m[k]), rest);
      PlusLaws(f(m[k]), f(m[j]), rest);
    }
  }

  /** Replacing or adding one value changes the sum by what that value changed. */
  lemma MapSumUpdate<K, V>(m: map<K, V>, f: V -> UsageTotals, k: K, v: V, delta: UsageTotals)
    requires f(v) == (if k in m then f(m[k]) else ZERO) + delta
    ensures MapSum(m[k := v], f) == MapSum(m, f) + delta
  {
    var m' := m[k := v];
    MapSumAt(m', f, k);
    assert m' - {k} == m - {k};
    var rest := MapSum(m - {k}, f);
    if k in m {
      MapSumAt(m, f, k);
      PlusLaws(f(m[k]), delta, rest);
      PlusLaws(f(m[k]), rest, delta);
      PlusLaws(delta, rest, ZERO);
    } else {
      assert m - {k} == m;
      PlusLaws(ZERO, delta, rest);
      PlusLaws(delta, rest, ZERO);
      PlusLaws(delta, ZERO, ZERO);
    }
  }

  /** The sum of `f` over a sequence. */
  function Sum<T>(ts: seq<T>, f: T -> UsageTotals): UsageTotals {
    if ts == [] then ZERO else Sum(ts[..|ts| - 1], f) + f(ts[|ts| - 1])
  }

  lemma SumAppend<T>(ts: seq<T>, t: T, f: T -> UsageTotals)
    ensures Sum(ts + [t], f) == Sum(ts, f) + f(t)
  {
    assert (ts + [t])[..|ts|] == ts;
  }

  lemma {:induction false} SumInsert<T>(ts: seq<T>, t: T, le: Comparison<T>, f: T -> UsageTotals)
    ensures Sum(Insert(ts, t, le), f) == Sum(ts, f) + f(t)
  {
    SumAppend(ts, t, f);
    if ts != [] && !le(ts[|ts| - 1], t) {
      var front, last := ts[..|ts| - 1], ts[|ts| - 1];
      SumInsert(front, t, le, f);
      SumAppend(Insert(front, t, le), last, f);
      PlusLaws(Sum(front, f), f(t), f(last));
    }
  }

  /** Sorting does not change the sum. */
  lemma {:induction false} SumSorted<T>(ts: seq<T>, le: Comparison<T>, f: T -> UsageTotals)
    ensures Sum(Sorted(ts, le), f) == Sum(ts, f)
  {
    if ts != [] {
      SumSorted(ts[..|ts| - 1], le, f);
      SumInsert(Sorted(ts[..|ts| - 1], le), ts[|ts| - 1], le, f);
    }
  }

  /** How many measured rounds and tool calls are in the totals: each metric adds one. */
  function Measured(t: UsageTotals): nat {
    t[InferenceRounds] + t[CompactionRounds] + t[ExecutedToolCalls]
  }

  lemma MeasuredPlus(a: UsageTotals, b: UsageTotals)
    ensures Measured(a + b) == Measured(a) + Measured(b)
  {
  }
}
