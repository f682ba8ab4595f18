/**
 * Maximal runs of equal values in the first column of a results table:
 * the notion shared by `find_change_indices` in shuffle.py and by the
 * counting loop of ntrials.py. Also index permutations, the form in which
 * numpy's `argsort` and `random.shuffle` reorder rows.
 */
module Runs {

  /** One row of a results table: the flux, then further numbers. */
  type Row = seq<real>

  /** An inclusive index range `[lo, hi]`, as the `[start_index, index-1]` pairs. */
  datatype Span = Span(lo: nat, hi: nat)

  predicate RowsNonempty(rows: seq<Row>)
  {
    forall i :: 0 <= i < |rows| ==> |rows[i]| > 0
  }

  /** `data[:,0]` */
  function FirstColumn(rows: seq<Row>): seq<real>
    requires RowsNonempty(rows)
  {
    seq(|rows|, i requires 0 <= i < |rows| => rows[i][0])
  }

  predicate SortedColumn(col: seq<real>)
  {
    forall i, j :: 0 <= i <= j < |col| ==> col[i] <= col[j]
  }

  predicate StrictlyIncreasing(s: seq<real>)
  {
    forall i, j :: 0 <= i < j < |s| ==> s[i] < s[j]
  }

  /** The maximal runs of `col`, built by extending a prefix one element at a time:
      an element equal to its predecessor extends the last run, any other opens a new one. */
  function MaximalRuns(col: seq<real>): (r: seq<Span>)
    requires |col| > 0
    ensures |r| > 0 && r[|r| - 1].hi == |col| - 1
    ensures forall n :: 0 <= n < |r| ==> r[n].lo <= r[n].hi < |col|
    decreases |col|
  {
    if |col| == 1 then [Span(0, 0)]
    else
      var prev := MaximalRuns(col[..|col| - 1]);
      if col[|col| - 1] == col[|col| - 2] then
        prev[..|prev| - 1] + [Span(prev[|prev| - 1].lo, |col| - 1)]
      else
        prev + [Span(|col| - 1, |col| - 1)]
  }

  /** `r` cuts `col` into maximal runs: the spans cover 0 .. |col|-1 in order without gaps,
      the column is constant on each span, and adjacent spans hold different values. */
  predicate IsRunPartition(col: seq<real>, r: seq<Span>)
  {
    && |r| > 0
    && (forall n :: 0 <= n < |r| ==> r[n].lo <= r[n].hi < |col|)
    && r[0].lo == 0
    && r[|r| - 1].hi == |col| - 1
    && (forall n :: 0 < n < |r| ==> r[n].lo == r[n - 1].hi + 1)
    && (forall n, i :: 0 <= n < |r| && r[n].lo <= i <= r[n].hi ==> col[i] == col[r[n].lo])
    && (forall n :: 0 < n < |r| ==> col[r[n].lo] != col[r[n - 1].hi])
  }

  /** Appending a value equal to the last one extends the last run. */
  lemma {:induction false} ExtendLastRun(p: seq<real>, prev: seq<Span>, v: real)
    requires |p| > 0 && IsRunPartition(p, prev) && v == p[|p| - 1]
    ensures IsRunPartition(p + [v], prev[..|prev| - 1] + [Span(prev[|prev| - 1].lo, |p|)])
  {
    var col := p + [v];
    var r := prev[..|prev| - 1] + [Span(prev[|prev| - 1].lo, |p|)];
    assert forall n :: 0 <= n < |prev| - 1 ==> r[n] == prev[n];
    assert forall i :: 0 <= i < |p| ==> col[i] == p[i];
    forall n, i | 0 <= n < |r| && r[n].lo <= i <= r[n].hi ensures col[i] == col[r[n].lo] {
      if n < |prev| - 1 || i < |p| {
        assert p[i] == p[prev[n].lo];
      }
    }
  }

  /** Appending a value different from the last one opens a new run. */
  lemma {:induction false} AppendRun(p: seq<real>, prev: seq<Span>, v: real)
    requires |p| > 0 && IsRunPartition(p, prev) && v != p[|p| - 1]
    ensures IsRunPartition(p + [v], prev + [Span(|p|, |p|)])
  {
    var col := p + [v];
    var r := prev + [Span(|p|, |p|)];
    assert forall n :: 0 <= n < |prev| ==> r[n] == prev[n];
    assert forall i :: 0 <= i < |p| ==> col[i] == p[i];
  }

  lemma {:induction false} RunsArePartition(col: seq<real>)
    requires |col| > 0
    ensures IsRunPartition(col, MaximalRuns(col))
    decreases |col|
  {
    if |col| > 1 {
      var m := |col|;
      var p := col[..m - 1];
      RunsArePartition(p);
      assert col == p + [col[m - 1]];
      if col[m - 1] == col[m - 2] {
        ExtendLastRun(p, MaximalRuns(p), col[m - 1]);
      } else {
        AppendRun(p, MaximalRuns(p), col[m - 1]);
      }
    }
  }

  /** What the partition says about the `k`-th run alone. */
  lemma {:induction false} RunFacts(col: seq<real>, k: nat)
    requires |col| > 0 && k < |MaximalRuns(col)|
    ensures var r := MaximalRuns(col);
      && r[k].lo <= r[k].hi < |col|
      && (k == 0 ==> r[k].lo == 0)
      && (k > 0 ==> r[k].lo == r[k - 1].hi + 1)
      && (k == |r| - 1 ==> r[k].hi == |col| - 1)
      && (forall i :: r[k].lo <= i <= r[k].hi ==> col[i] == col[r[k].lo])
  {
    RunsArePartition(col);
  }

  /** The value of each run. */
  function RunValues(col: seq<real>, r: seq<Span>): (v: seq<real>)
    requires forall n :: 0 <= n < |r| ==> r[n].lo < |col|
    ensures |v| == |r|
  {
    seq(|r|, n requires 0 <= n < |r| => col[r[n].lo])
  }

  /** The length of each run. */
  function RunLengths(r: seq<Span>): (c: seq<nat>)
    requires forall n :: 0 <= n < |r| ==> r[n].lo <= r[n].hi
    ensures |c| == |r|
  {
    seq(|r|, n requires 0 <= n < |r| => r[n].hi - r[n].lo + 1)
  }

  /** Appending a span appends its value and its length. */
  lemma {:induction false} SpansAppend(col: seq<real>, spans: seq<Span>, s: Span)
    requires forall n :: 0 <= n < |spans| ==> spans[n].lo <= spans[n].hi < |col|
    requires s.lo <= s.hi < |col|
    ensures RunValues(col, spans + [s]) == RunValues(col, spans) + [col[s.lo]]
    ensures RunLengths(spans + [s]) == RunLengths(spans) + [s.hi - s.lo + 1]
  {
  }

  function Sum(s: seq<nat>): nat
  {
    if s == [] then 0 else Sum(s[..|s| - 1]) + s[|s| - 1]
  }

  lemma {:induction false} SumAppend(s: seq<nat>, x: nat)
    ensures Sum(s + [x]) == Sum(s) + x
  {
    assert (s + [x])[..|s|] == s;
  }

  /** Lengthening the last span by one adds one to the total length. */
  lemma {:induction false} LengthsExtendLast(prev: seq<Span>)
    requires |prev| > 0 && forall n :: 0 <= n < |prev| ==> prev[n].lo <= prev[n].hi
    ensures var last := prev[|prev| - 1];
      Sum(RunLengths(prev[..|prev| - 1] + [Span(last.lo, last.hi + 1)])) == Sum(RunLengths(prev)) + 1
  {
    var last := prev[|prev| - 1];
    var init := prev[..|prev| - 1];
    assert RunLengths(init + [Span(last.lo, last.hi + 1)]) == RunLengths(init) + [last.hi + 1 - last.lo + 1];
    assert RunLengths(prev) == RunLengths(init) + [last.hi - last.lo + 1];
    SumAppend(RunLengths(init), last.hi + 1 - last.lo + 1);
    SumAppend(RunLengths(init), last.hi - last.lo + 1);
  }

  /** The run lengths add up to the length of the column. */
  lemma {:induction false} RunLengthsSum(col: seq<real>)
    requires |col| > 0
    ensures Sum(RunLengths(MaximalRuns(col))) == |col|
    decreases |col|
  {
    if |col| > 1 {
      RunLengthsSum(col[..|col| - 1]);
      if col[|col| - 1] == col[|col| - 2] {
        LengthsSumSame(col);
      } else {
        LengthsSumNew(col);
      }
    }
  }

  lemma {:induction false} LengthsSumSame(col: seq<real>)
    requires |col| > 1 && col[|col| - 1] == col[|col| - 2]
    ensures Sum(RunLengths(MaximalRuns(col))) == Sum(RunLengths(MaximalRuns(col[..|col| - 1]))) + 1
  {
    var prev := MaximalRuns(col[..|col| - 1]);
    var last := prev[|prev| - 1];
    var r := prev[..|prev| - 1] + [Span(last.lo, last.hi + 1)];
    assert MaximalRuns(col) == r;
    LengthsExtendLast(prev);
  }

  lemma {:induction false} LengthsSumNew(col: seq<real>)
    requires |col| > 1 && col[|col| - 1] != col[|col| - 2]
    ensures Sum(RunLengths(MaximalRuns(col))) == Sum(RunLengths(MaximalRuns(col[..|col| - 1]))) + 1
  {
    var prev := MaximalRuns(col[..|col| - 1]);
    var r := prev + [Span(|col| - 1, |col| - 1)];
    assert MaximalRuns(col) == r;
    SpansAppend(col, prev, Span(|col| - 1, |col| - 1));
    SumAppend(RunLengths(prev), 1);
  }

  /** The run-length encoding of a column: as many values as lengths, every length
      positive, the lengths adding up to the column, neighbouring values different, and
      the last value and length those of the trailing run. */
  lemma {:induction false} RunEncoding(col: seq<real>)
    requires |col| > 0
    ensures var r := MaximalRuns(col);
      var v := RunValues(col, r);
      var c := RunLengths(r);
      && |v| == |c| > 0
      && (forall n :: 0 <= n < |c| ==> c[n] >= 1)
      && Sum(c) == |col|
      && (forall n :: 0 < n < |v| ==> v[n - 1] != v[n])
      && v[|v| - 1] == col[|col| - 1]
      && c[|c| - 1] == |col| - r[|r| - 1].lo
  {
    RunsArePartition(col);
    RunLengthsSum(col);
  }

  lemma {:induction false} SetOfAppend(s: seq<real>, v: real)
    ensures (set x | x in s + [v]) == (set x | x in s) + {v}
  {
  }

  /** Lengthening the last span leaves the run values as they were. */
  lemma {:induction false} ValuesExtendLast(p: seq<real>, prev: seq<Span>, v: real)
    requires |prev| > 0 && forall n :: 0 <= n < |prev| ==> prev[n].lo < |p|
    ensures RunValues(p + [v], prev[..|prev| - 1] + [Span(prev[|prev| - 1].lo, |p|)]) == RunValues(p, prev)
  {
  }

  /** A new one-element span adds its value to the run values. */
  lemma {:induction false} ValuesAppend(p: seq<real>, prev: seq<Span>, v: real)
    requires forall n :: 0 <= n < |prev| ==> prev[n].lo < |p|
    ensures RunValues(p + [v], prev + [Span(|p|, |p|)]) == RunValues(p, prev) + [v]
  {
  }

  /** The run values are exactly the values occurring in the column. */
  lemma {:induction false} RunValuesAreColumnValues(col: seq<real>)
    requires |col| > 0
    ensures (set x | x in RunValues(col, MaximalRuns(col))) == (set x | x in col)
    decreases |col|
  {
    if |col| > 1 {
      var m := |col|;
      var p := col[..m - 1];
      var v := col[m - 1];
      RunValuesAreColumnValues(p);
      assert col == p + [v];
      if v == p[|p| - 1] {
        ColumnValuesSame(p, v);
      } else {
        ColumnValuesNew(p, v);
      }
    } else {
      assert RunValues(col, MaximalRuns(col)) == col;
    }
  }

  lemma {:induction false} ColumnValuesSame(p: seq<real>, v: real)
    requires |p| > 0 && v == p[|p| - 1]
    requires (set x | x in RunValues(p, MaximalRuns(p))) == (set x | x in p)
    ensures (set x | x in RunValues(p + [v], MaximalRuns(p + [v]))) == (set x | x in p + [v])
  {
    var prev := MaximalRuns(p);
    assert MaximalRuns(p + [v]) == prev[..|prev| - 1] + [Span(prev[|prev| - 1].lo, |p|)] by {
      assert (p + [v])[..|p|] == p;
    }
    ValuesExtendLast(p, prev, v);
    SetOfAppend(p, v);
    assert v in p;
  }

  lemma {:induction false} ColumnValuesNew(p: seq<real>, v: real)
    requires |p| > 0 && v != p[|p| - 1]
    requires (set x | x in RunValues(p, MaximalRuns(p))) == (set x | x in p)
    ensures (set x | x in RunValues(p + [v], MaximalRuns(p + [v]))) == (set x | x in p + [v])
  {
    var prev := MaximalRuns(p);
    assert MaximalRuns(p + [v]) == prev + [Span(|p|, |p|)] by {
      assert (p + [v])[..|p|] == p;
    }
    ValuesAppend(p, prev, v);
    SetOfAppend(p, v);
    SetOfAppend(RunValues(p, prev), v);
  }

  /** On a sorted column the run values increase strictly. */
  lemma {:induction false} SortedRunValuesIncrease(col: seq<real>)
    requires |col| > 0 && SortedColumn(col)
    ensures StrictlyIncreasing(RunValues(col, MaximalRuns(col)))
    decreases |col|
  {
    if |col| > 1 {
      var m := |col|;
      var p := col[..m - 1];
      var v := col[m - 1];
      assert col == p + [v];
      assert SortedColumn(p);
      SortedRunValuesIncrease(p);
      assert p[|p| - 1] == col[m - 2] <= v;
      if v == p[|p| - 1] {
        IncreaseSame(p, v);
      } else {
        IncreaseNew(p, v);
      }
    }
  }

  lemma {:induction false} IncreaseSame(p: seq<real>, v: real)
    requires |p| > 0 && v == p[|p| - 1] && StrictlyIncreasing(RunValues(p, MaximalRuns(p)))
    ensures StrictlyIncreasing(RunValues(p + [v], MaximalRuns(p + [v])))
  {
    var prev := MaximalRuns(p);
    assert MaximalRuns(p + [v]) == prev[..|prev| - 1] + [Span(prev[|prev| - 1].lo, |p|)] by {
      assert (p + [v])[..|p|] == p;
    }
    ValuesExtendLast(p, prev, v);
  }

  lemma {:induction false} IncreaseNew(p: seq<real>, v: real)
    requires |p| > 0 && SortedColumn(p) && p[|p| - 1] < v
    requires StrictlyIncreasing(RunValues(p, MaximalRuns(p)))
    ensures StrictlyIncreasing(RunValues(p + [v], MaximalRuns(p + [v])))
  {
    var prev := MaximalRuns(p);
    assert MaximalRuns(p + [v]) == prev + [Span(|p|, |p|)] by {
      assert (p + [v])[..|p|] == p;
    }
    ValuesAppend(p, prev, v);
    var vp := RunValues(p, prev);
    assert forall n :: 0 <= n < |vp| ==> vp[n] <= p[|p| - 1];
  }

  /** A strictly increasing sequence holds |s| distinct values. */
  lemma {:induction false} DistinctCount(s: seq<real>)
    requires StrictlyIncreasing(s)
    ensures |set x | x in s| == |s|
    decreases |s|
  {
    if s != [] {
      var p := s[..|s| - 1];
      DistinctCount(p);
      assert s == p + [s[|s| - 1]];
      assert (set x | x in s) == (set x | x in p) + {s[|s| - 1]};
      assert s[|s| - 1] !in p;
    }
  }

  /** On a sorted column there are as many runs as distinct values. */
  lemma {:induction false} RunCountIsDistinctCount(col: seq<real>)
    requires |col| > 0 && SortedColumn(col)
    ensures |MaximalRuns(col)| == |set x | x in col|
  {
    SortedRunValuesIncrease(col);
    RunValuesAreColumnValues(col);
    DistinctCount(RunValues(col, MaximalRuns(col)));
  }

  /** Each span's length is the number of occurrences of its value in `col`. */
  predicate LengthsAreMultiplicities(col: seq<real>, r: seq<Span>)
    requires forall n :: 0 <= n < |r| ==> r[n].lo <= r[n].hi < |col|
  {
    forall n :: 0 <= n < |r| ==> multiset(col)[col[r[n].lo]] == r[n].hi - r[n].lo + 1
  }

  lemma {:induction false} MultiplicityExtendLast(p: seq<real>, prev: seq<Span>, v: real, k: nat, col: seq<real>, r: seq<Span>)
    requires |prev| > 0 && forall n :: 0 <= n < |prev| ==> prev[n].lo <= prev[n].hi < |p|
    requires k == |prev| - 1 && p[prev[k].lo] == v
    requires StrictlyIncreasing(RunValues(p, prev))
    requires LengthsAreMultiplicities(p, prev)
    requires col == p + [v] && r == prev[..k] + [Span(prev[k].lo, prev[k].hi + 1)]
    ensures forall n :: 0 <= n < |r| ==> r[n].lo <= r[n].hi < |col|
    ensures LengthsAreMultiplicities(col, r)
  {
    assert multiset(col) == multiset(p) + multiset{v};
    forall n | 0 <= n < |r| ensures multiset(col)[col[r[n].lo]] == r[n].hi - r[n].lo + 1 {
      if n < k {
        assert RunValues(p, prev)[n] < RunValues(p, prev)[k];
        assert col[r[n].lo] == p[prev[n].lo] != v;
      } else {
        assert col[r[n].lo] == v;
      }
    }
  }

  lemma {:induction false} MultiplicityAppend(p: seq<real>, prev: seq<Span>, v: real)
    requires forall n :: 0 <= n < |prev| ==> prev[n].lo <= prev[n].hi < |p|
    requires v !in p
    requires LengthsAreMultiplicities(p, prev)
    ensures LengthsAreMultiplicities(p + [v], prev + [Span(|p|, |p|)])
  {
    var col := p + [v];
    var r := prev + [Span(|p|, |p|)];
    assert multiset(col) == multiset(p) + multiset{v};
    forall n | 0 <= n < |r| ensures multiset(col)[col[r[n].lo]] == r[n].hi - r[n].lo + 1 {
      if n < |prev| {
        assert col[r[n].lo] == p[prev[n].lo] != v;
      } else {
        assert col[r[n].lo] == v;
      }
    }
  }

  lemma {:induction false} MultiplicityStepSame(p: seq<real>, v: real)
    requires |p| > 0 && p[|p| - 1] == v
    requires StrictlyIncreasing(RunValues(p, MaximalRuns(p)))
    requires LengthsAreMultiplicities(p, MaximalRuns(p))
    ensures LengthsAreMultiplicities(p + [v], MaximalRuns(p + [v]))
  {
    var prev := MaximalRuns(p);
    var k := |prev| - 1;
    var r := prev[..k] + [Span(prev[k].lo, prev[k].hi + 1)];
    RunsExtendLast(p, v, prev, k, r);
    MultiplicityExtendLast(p, prev, v, k, p + [v], r);
    MultiplicitiesOfEqual(p + [v], r, MaximalRuns(p + [v]));
  }

  lemma {:induction false} MultiplicitiesOfEqual(col: seq<real>, r: seq<Span>, r': seq<Span>)
    requires forall n :: 0 <= n < |r| ==> r[n].lo <= r[n].hi < |col|
    requires r == r' && LengthsAreMultiplicities(col, r)
    ensures LengthsAreMultiplicities(col, r')
  {
  }

  /** Repeating the last value lengthens the last run by one. */
  lemma {:induction false} RunsExtendLast(p: seq<real>, v: real, prev: seq<Span>, k: nat, r: seq<Span>)
    requires |p| > 0 && p[|p| - 1] == v && prev == MaximalRuns(p) && k == |prev| - 1
    requires r == prev[..k] + [Span(prev[k].lo, prev[k].hi + 1)]
    ensures MaximalRuns(p + [v]) == r && p[prev[k].lo] == v
  {
    var col := p + [v];
    assert col[..|col| - 1] == p;
    RunFacts(p, k);
  }

  lemma {:induction false} MultiplicityStepNew(p: seq<real>, v: real)
    requires |p| > 0 && v != p[|p| - 1] && v !in p
    requires LengthsAreMultiplicities(p, MaximalRuns(p))
    ensures LengthsAreMultiplicities(p + [v], MaximalRuns(p + [v]))
  {
    var col := p + [v];
    assert col[..|col| - 1] == p;
    var prev := MaximalRuns(p);
    assert MaximalRuns(col) == prev + [Span(|p|, |p|)];
    MultiplicityAppend(p, prev, v);
  }

  /** On a sorted column every run holds all the occurrences of its value, so the
      length of a run is how often its value occurs in the column. */
  lemma {:induction false} RunLengthIsMultiplicity(col: seq<real>)
    requires |col| > 0 && SortedColumn(col)
    ensures LengthsAreMultiplicities(col, MaximalRuns(col))
    decreases |col|
  {
    if |col| > 1 {
      var p := col[..|col| - 1];
      assert col == p + [col[|col| - 1]];
      assert SortedColumn(p);
      RunLengthIsMultiplicity(p);
      var v := col[|col| - 1];
      if v == p[|p| - 1] {
        SortedRunValuesIncrease(p);
        MultiplicityStepSame(p, v);
      } else {
        assert v !in p by {
          assert forall i :: 0 <= i < |p| ==> p[i] <= p[|p| - 1] < v;
        }
        MultiplicityStepNew(p, v);
      }
    } else {
      assert col == [col[0]];
      assert MaximalRuns(col) == [Span(0, 0)];
    }
  }

  /** The indices lo, lo+1, ..., hi-1. */
  function Range(lo: nat, hi: nat): (r: seq<nat>)
    requires lo <= hi
    ensures |r| == hi - lo
  {
    seq(hi - lo, i requires 0 <= i < hi - lo => lo + i)
  }

  /** `rows[idx]`, numpy's fancy indexing. */
  function Pick<T>(rows: seq<T>, idx: seq<nat>): (r: seq<T>)
    requires forall i :: 0 <= i < |idx| ==> idx[i] < |rows|
    ensures |r| == |idx|
  {
    seq(|idx|, i requires 0 <= i < |idx| => rows[idx[i]])
  }

  /** `idx` lists the indices lo .. hi-1, each once, in some order. */
  predicate IsPermutationOf(idx: seq<nat>, lo: nat, hi: nat)
    requires lo <= hi
  {
    && |idx| == hi - lo
    && (forall i :: 0 <= i < |idx| ==> lo <= idx[i] < hi)
    && multiset(idx) == multiset(Range(lo, hi))
  }

  /** Having the multiset of lo .. hi-1 already makes a sequence a permutation of it. */
  lemma {:induction false} PermutationBounds(idx: seq<nat>, lo: nat, hi: nat)
    requires lo <= hi && multiset(idx) == multiset(Range(lo, hi))
    ensures IsPermutationOf(idx, lo, hi)
  {
    assert |multiset(idx)| == |multiset(Range(lo, hi))|;
    forall i | 0 <= i < |idx| ensures lo <= idx[i] < hi {
      assert idx[i] in multiset(idx);
      assert idx[i] in Range(lo, hi);
    }
  }

  lemma {:induction false} MultisetWithout<T>(q: seq<T>, j: nat)
    requires j < |q|
    ensures multiset(q) == multiset(q[..j] + q[j + 1..]) + multiset{q[j]}
  {
    assert q == q[..j] + [q[j]] + q[j + 1..];
  }

  lemma {:induction false} PickWithout<T>(rows: seq<T>, q: seq<nat>, j: nat)
    requires j < |q| && forall i :: 0 <= i < |q| ==> q[i] < |rows|
    ensures multiset(Pick(rows, q)) == multiset(Pick(rows, q[..j] + q[j + 1..])) + multiset{rows[q[j]]}
  {
    var pq := Pick(rows, q);
    MultisetWithout(pq, j);
    assert pq[..j] + pq[j + 1..] == Pick(rows, q[..j] + q[j + 1..]);
  }

  /** Taking the same element out of two equal multisets leaves equal multisets. */
  lemma {:induction false} RemoveMatching(p: seq<nat>, q: seq<nat>, j: nat)
    requires |p| > 0 && j < |q| && q[j] == p[0] && multiset(p) == multiset(q)
    ensures multiset(p[1..]) == multiset(q[..j] + q[j + 1..])
  {
    var x := p[0];
    MultisetWithout(q, j);
    assert p == [x] + p[1..];
    var rest, rest' := multiset(p[1..]), multiset(q[..j] + q[j + 1..]);
    assert rest + multiset{x} == rest' + multiset{x};
    CancelOne(rest, rest', x);
  }

  lemma {:induction false} CancelOne<T>(a: multiset<T>, b: multiset<T>, x: T)
    requires a + multiset{x} == b + multiset{x}
    ensures a == b
  {
    assert a == (a + multiset{x}) - multiset{x};
    assert b == (b + multiset{x}) - multiset{x};
  }

  lemma {:induction false} PermutedBounds(p: seq<nat>, q: seq<nat>, bound: nat)
    requires multiset(p) == multiset(q)
    requires forall i :: 0 <= i < |q| ==> q[i] < bound
    ensures forall i :: 0 <= i < |p| ==> p[i] < bound
  {
    forall i | 0 <= i < |p| ensures p[i] < bound {
      assert p[i] in multiset(p);
      assert p[i] in q;
    }
  }

  /** Picking rows along two orderings of the same indices gives the same rows. */
  lemma {:induction false} PickPermutation<T>(rows: seq<T>, p: seq<nat>, q: seq<nat>)
    requires multiset(p) == multiset(q)
    requires forall i :: 0 <= i < |p| ==> p[i] < |rows|
    requires forall i :: 0 <= i < |q| ==> q[i] < |rows|
    ensures multiset(Pick(rows, p)) == multiset(Pick(rows, q))
    decreases |p|
  {
    if p == [] {
      assert |multiset(q)| == 0;
    } else {
      assert p[0] in multiset(q);
      var j :| 0 <= j < |q| && q[j] == p[0];
      var q' := q[..j] + q[j + 1..];
      RemoveMatching(p, q, j);
      WithoutBounds(q, j, q', |rows|);
      PickPermutation(rows, p[1..], q');
      PickWithout(rows, q, j);
      PickWithoutFirst(rows, p);
    }
  }

  lemma {:induction false} WithoutBounds(q: seq<nat>, j: nat, q': seq<nat>, bound: nat)
    requires j < |q| && q' == q[..j] + q[j + 1..]
    requires forall i :: 0 <= i < |q| ==> q[i] < bound
    ensures forall i :: 0 <= i < |q'| ==> q'[i] < bound
  {
    forall i | 0 <= i < |q'| ensures q'[i] < bound {
      if i < j {
        assert q'[i] == q[i];
      } else {
        assert q'[i] == q[i + 1];
      }
    }
  }

  lemma {:induction false} PickWithoutFirst<T>(rows: seq<T>, p: seq<nat>)
    requires |p| > 0 && forall i :: 0 <= i < |p| ==> p[i] < |rows|
    ensures multiset(Pick(rows, p)) == multiset(Pick(rows, p[1..])) + multiset{rows[p[0]]}
  {
    PickWithout(rows, p, 0);
    assert p[..0] + p[1..] == p[1..];
  }

  lemma {:induction false} PickRange<T>(rows: seq<T>, lo: nat, hi: nat)
    requires lo <= hi <= |rows|
    ensures Pick(rows, Range(lo, hi)) == rows[lo..hi]
  {
  }

  /** What `argsort` on the first column promises: `order` lists every row index once,
      and the rows taken in that order have a sorted first column. */
  predicate IsSortingOrder(rows: seq<Row>, order: seq<nat>)
  {
    && RowsNonempty(rows)
    && IsPermutationOf(order, 0, |rows|)
    && SortedColumn(FirstColumn(Pick(rows, order)))
  }

  /** Sorting by an argsort order keeps the rows, as a multiset. */
  lemma {:induction false} SortKeepsRows(rows: seq<Row>, order: seq<nat>)
    requires IsSortingOrder(rows, order)
    ensures multiset(Pick(rows, order)) == multiset(rows)
    ensures RowsNonempty(Pick(rows, order))
  {
    PickPermutation(rows, order, Range(0, |rows|));
    PickRange(rows, 0, |rows|);
    assert rows[0..|rows|] == rows;
  }

  /** Sorting by an argsort order keeps the first-column values with their multiplicities. */
  lemma {:induction false} SortKeepsFluxes(rows: seq<Row>, order: seq<nat>)
    requires IsSortingOrder(rows, order)
    ensures RowsNonempty(Pick(rows, order))
    ensures multiset(FirstColumn(Pick(rows, order))) == multiset(FirstColumn(rows))
  {
    var col := FirstColumn(rows);
    assert FirstColumn(Pick(rows, order)) == Pick(col, order);
    PickPermutation(col, order, Range(0, |col|));
    PickRange(col, 0, |col|);
    assert col[0..|col|] == col;
  }
}
