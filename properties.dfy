/**
 * What the merge script promises, proved about the specification in module
 * Profile (and so, through module Merge, about the script): how one trial is
 * read, what the summed profiles are, the shape of the grids, the effect of the
 * bias flag, and what the rows and counters of a run say.
 */
module Properties {
  import opened Wrappers
  import opened Numeric
  import opened LinearInterp
  import opened Runs
  import opened Profile

  // ---------------------------------------------------------------- reading a trial

  /** File `j`'s row of trial `k`, as `map(float, ...)` reads it. */
  function RowOf(srcs: seq<Source>, heads: seq<Head>, k: nat, j: nat): Option<seq<real>>
    requires |heads| == |srcs| && j < |srcs|
  {
    ParseRow(TrialTokens(srcs, heads, k, j))
  }

  /** File `j`'s row of trial `k` is numeric, non-empty, and has the first file's true flux. */
  predicate GoodRow(srcs: seq<Source>, heads: seq<Head>, k: nat, j: nat)
    requires |heads| == |srcs| && j < |srcs|
  {
    var p := RowOf(srcs, heads, k, j);
    var p0 := RowOf(srcs, heads, k, 0);
    p.Some? && |p.value| > 0 && p0.Some? && |p0.value| > 0 && p.value[0] == p0.value[0]
  }

  /** The first file from `i` on whose row of trial `k` is not good, or `|srcs|`. */
  function FirstBad(srcs: seq<Source>, heads: seq<Head>, k: nat, i: nat): (m: nat)
    requires |heads| == |srcs| && i <= |srcs|
    ensures i <= m <= |srcs|
    ensures forall j :: i <= j < m ==> GoodRow(srcs, heads, k, j)
    ensures m < |srcs| ==> !GoodRow(srcs, heads, k, m)
    decreases |srcs| - i
  {
    if i == |srcs| || !GoodRow(srcs, heads, k, i) then i else FirstBad(srcs, heads, k, i + 1)
  }

  /** What a bad row of file `m` makes of the trial. */
  function Verdict(srcs: seq<Source>, heads: seq<Head>, k: nat, m: nat): (r: Read)
    requires |heads| == |srcs| && m < |srcs|
    ensures !r.Rows?
  {
    match RowOf(srcs, heads, k, m)
    case None => ReadFailed(BadNumber)
    case Some(line) => if |line| == 0 then EndOfData else ReadFailed(FluxMismatch)
  }

  lemma {:induction false} ReadFromDecided(srcs: seq<Source>, heads: seq<Head>, k: nat, i: nat,
                                           acc: seq<seq<real>>)
    requires |heads| == |srcs| && i <= |srcs| && |acc| == i
    requires forall j :: 0 <= j < i ==> |acc[j]| > 0
    requires forall j :: 0 <= j < i ==> GoodRow(srcs, heads, k, j) && RowOf(srcs, heads, k, j) == Some(acc[j])
    ensures var m := FirstBad(srcs, heads, k, i);
      var r := ReadFrom(srcs, heads, k, i, acc);
      if m == |srcs| then r.Rows? else r == Verdict(srcs, heads, k, m)
    decreases |srcs| - i
  {
    if i < |srcs| {
      var p := RowOf(srcs, heads, k, i);
      if GoodRow(srcs, heads, k, i) {
        var acc' := acc + [p.value];
        GoodRowStep(srcs, heads, k, i, acc);
        assert forall j :: 0 <= j < i ==> acc'[j] == acc[j];
        assert FirstBad(srcs, heads, k, i) == FirstBad(srcs, heads, k, i + 1);
        ReadFromDecided(srcs, heads, k, i + 1, acc');
      } else {
        assert FirstBad(srcs, heads, k, i) == i;
        BadRowVerdict(srcs, heads, k, i, acc);
      }
    }
  }

  lemma {:induction false} GoodRowStep(srcs: seq<Source>, heads: seq<Head>, k: nat, i: nat, acc: seq<seq<real>>)
    requires |heads| == |srcs| && i < |srcs| && |acc| == i
    requires forall j :: 0 <= j < i ==> |acc[j]| > 0
    requires i > 0 ==> RowOf(srcs, heads, k, 0) == Some(acc[0])
    requires GoodRow(srcs, heads, k, i)
    ensures ReadFrom(srcs, heads, k, i, acc) == ReadFrom(srcs, heads, k, i + 1, acc + [RowOf(srcs, heads, k, i).value])
  {
  }

  lemma {:induction false} BadRowVerdict(srcs: seq<Source>, heads: seq<Head>, k: nat, i: nat, acc: seq<seq<real>>)
    requires |heads| == |srcs| && i < |srcs| && |acc| == i
    requires forall j :: 0 <= j < i ==> |acc[j]| > 0
    requires i > 0 ==> RowOf(srcs, heads, k, 0) == Some(acc[0])
    requires !GoodRow(srcs, heads, k, i)
    ensures ReadFrom(srcs, heads, k, i, acc) == Verdict(srcs, heads, k, i)
  {
    var p := RowOf(srcs, heads, k, i);
    if p.Some? && |p.value| > 0 {
      assert i > 0;
    }
  }

  /** A trial reads as rows exactly when every file's row is good; otherwise the first
      file whose row is not good decides: an empty line ends the data (whatever the
      later files hold), a malformed number or a differing true flux is an error. */
  lemma {:induction false} ReadTrialDecided(srcs: seq<Source>, heads: seq<Head>, k: nat)
    requires |heads| == |srcs|
    ensures ReadTrial(srcs, heads, k).Rows? <==> forall j :: 0 <= j < |srcs| ==> GoodRow(srcs, heads, k, j)
    ensures var m := FirstBad(srcs, heads, k, 0);
      m < |srcs| ==> ReadTrial(srcs, heads, k) == Verdict(srcs, heads, k, m)
    ensures var r := ReadTrial(srcs, heads, k);
      r.Rows? ==> |r.lines| == |srcs| && forall j :: 0 <= j < |srcs| ==> RowOf(srcs, heads, k, j) == Some(r.lines[j])
  {
    ReadFromDecided(srcs, heads, k, 0, []);
    RowsAreAligned(srcs, heads, k, 0, []);
    var m := FirstBad(srcs, heads, k, 0);
    if m < |srcs| {
      assert !GoodRow(srcs, heads, k, m);
    }
  }

  // ---------------------------------------------------------------- the naive sum

  /** Every row's samples fit a profile of `n` samples under numpy broadcasting: as many
      samples, or a single one. */
  predicate Broadcastable(lines: seq<seq<real>>, n: nat)
  {
    forall j :: 0 <= j < |lines| ==> |lines[j]| - 1 == n || |lines[j]| - 1 == 1
  }

  /** What a row adds at column `c` of a profile of `n` samples. */
  function Contribution(line: seq<real>, n: nat, c: nat): real
    requires |line| - 1 == n || |line| - 1 == 1
    requires c < n
  {
    if |line| - 1 == n then line[c + 1] else line[1]
  }

  /** Column `c` of the first `m` rows, added up. */
  function ColumnSum(lines: seq<seq<real>>, n: nat, c: nat, m: nat): real
    requires m <= |lines| && Broadcastable(lines, n) && c < n
  {
    if m == 0 then 0.0 else ColumnSum(lines, n, c, m - 1) + Contribution(lines[m - 1], n, c)
  }

  lemma {:induction false} NaiveSumFromDefined(acc: seq<real>, lines: seq<seq<real>>, j: nat)
    requires j <= |lines| && forall i :: 0 <= i < |lines| ==> |lines[i]| > 0
    ensures NaiveSumFrom(acc, lines, j).Some?
        <==> forall i :: j <= i < |lines| ==> |lines[i]| - 1 == |acc| || |lines[i]| - 1 == 1
    decreases |lines| - j
  {
    if j < |lines| {
      var a := AddInto(acc, lines[j][1..]);
      if a.Some? {
        NaiveSumFromDefined(a.value, lines, j + 1);
      }
    }
  }

  lemma {:induction false} NaiveSumFromColumns(acc: seq<real>, lines: seq<seq<real>>, j: nat)
    requires j <= |lines| && forall i :: 0 <= i < |lines| ==> |lines[i]| > 0
    requires Broadcastable(lines, |acc|)
    requires forall c :: 0 <= c < |acc| ==> acc[c] == ColumnSum(lines, |acc|, c, j)
    ensures var r := NaiveSumFrom(acc, lines, j);
      r.Some? && forall c :: 0 <= c < |acc| ==> r.value[c] == ColumnSum(lines, |acc|, c, |lines|)
    decreases |lines| - j
  {
    if j < |lines| {
      var a := AddInto(acc, lines[j][1..]).value;
      forall c | 0 <= c < |acc| ensures a[c] == ColumnSum(lines, |acc|, c, j + 1) {
        assert a[c] == acc[c] + Contribution(lines[j], |acc|, c);
      }
      NaiveSumFromColumns(a, lines, j + 1);
    }
  }

  /** The naive sum (merge.py:172-174) exists exactly when every row broadcasts against
      the first, and then holds at each column the sum over the files of that column. */
  lemma {:induction false} NaiveSumIsColumnSum(lines: seq<seq<real>>)
    requires |lines| > 0 && forall i :: 0 <= i < |lines| ==> |lines[i]| > 0
    ensures NaiveSum(lines).Some? <==> Broadcastable(lines, |lines[0]| - 1)
    ensures NaiveSum(lines).Some? ==>
      var n := |lines[0]| - 1;
      |NaiveSum(lines).value| == n &&
      forall c :: 0 <= c < n ==> NaiveSum(lines).value[c] == ColumnSum(lines, n, c, |lines|)
  {
    var n := |lines[0]| - 1;
    NaiveSumFromDefined(Zeros(n), lines, 0);
    if Broadcastable(lines, n) {
      NaiveSumFromColumns(Zeros(n), lines, 0);
    }
  }

  // ---------------------------------------------------------------- the interpolated sum

  /** Every row has one sample per point of the coarse grid. */
  predicate OnGrid(g: Grid, lines: seq<seq<real>>)
  {
    forall j :: 0 <= j < |lines| ==> |lines[j]| == |g.x| + 1
  }

  /** With bias correction every scale `a` is non-zero, so `(x - b) / a` is defined. */
  predicate ScalesNonzero(useBias: bool, ab: seq<(real, real)>)
  {
    useBias ==> forall i :: 0 <= i < |ab| ==> ab[i].0 != 0.0
  }

  /** The sample points of a file with bias coefficients `ab`: the coarse grid, or its remap. */
  function AxisOf(g: Grid, useBias: bool, ab: (real, real)): seq<real>
    requires !useBias || ab.0 != 0.0
  {
    if useBias then Remap(g.x, ab.0, ab.1) else g.x
  }

  /** The first `m` files' curves at fine point `c`, each interpolated over its own
      sample points, added up. */
  function CurveSum(g: Grid, useBias: bool, ab: seq<(real, real)>, lines: seq<seq<real>>, c: nat, m: nat): real
    requires m <= |lines| == |ab| && OnGrid(g, lines) && ScalesNonzero(useBias, ab)
    requires |g.x| > 0 && c < |g.xs|
  {
    if m == 0 then 0.0
    else CurveSum(g, useBias, ab, lines, c, m - 1) + InterpAt(g.xs[c], AxisOf(g, useBias, ab[m - 1]), lines[m - 1][1..])
  }

  lemma {:induction false} InterpSumFromCurves(g: Grid, useBias: bool, ab: seq<(real, real)>, lines: seq<seq<real>>,
                                               j: nat, acc: seq<real>)
    requires j <= |lines| == |ab| && forall i :: 0 <= i < |lines| ==> |lines[i]| > 0
    requires |acc| == |g.xs|
    ensures var r := InterpSumFrom(g, useBias, ab, lines, j, acc);
      r.Success? <==> j == |lines| || (|g.x| > 0 && forall i :: j <= i < |lines| ==>
                                         |lines[i]| == |g.x| + 1 && (useBias ==> ab[i].0 != 0.0))
    ensures var r := InterpSumFrom(g, useBias, ab, lines, j, acc);
      r.Success? && |g.x| > 0 && OnGrid(g, lines) && ScalesNonzero(useBias, ab)
      && (forall c :: 0 <= c < |acc| ==> acc[c] == CurveSum(g, useBias, ab, lines, c, j))
      ==> forall c :: 0 <= c < |acc| ==> r.value[c] == CurveSum(g, useBias, ab, lines, c, |lines|)
    decreases |lines| - j
  {
    if j < |lines| {
      var axis := SampleAxis(g, useBias, ab[j]);
      if axis.Success? {
        var curve := Curve(g, axis.value, lines[j]);
        if curve.Success? {
          var a := Plus(acc, curve.value);
          InterpSumFromCurves(g, useBias, ab, lines, j + 1, a);
        }
      }
    }
  }

  /** The interpolated sum (merge.py:90, 102-109) exists exactly when the bias lines
      parse, the grid is not empty, every row has one sample per grid point and, with
      bias correction, no scale is zero; it then holds at each fine point the sum over
      the files of their interpolated curves. */
  lemma {:induction false} InterpSumIsCurveSum(g: Grid, useBias: bool, bs: seq<seq<string>>, lines: seq<seq<real>>)
    requires |lines| == |bs| > 0 && forall i :: 0 <= i < |lines| ==> |lines[i]| > 0
    ensures InterpSum(g, useBias, bs, lines).Success?
        <==> ParseBiases(bs).Some? && |g.x| > 0 && OnGrid(g, lines) && ScalesNonzero(useBias, ParseBiases(bs).value)
    ensures InterpSum(g, useBias, bs, lines).Success? ==>
      && ParseBiases(bs).Some? && |g.x| > 0 && OnGrid(g, lines) && ScalesNonzero(useBias, ParseBiases(bs).value)
      && |InterpSum(g, useBias, bs, lines).value| == |g.xs|
      && forall c :: 0 <= c < |g.xs| ==>
           InterpSum(g, useBias, bs, lines).value[c] == CurveSum(g, useBias, ParseBiases(bs).value, lines, c, |lines|)
  {
    var ab := ParseBiases(bs);
    if ab.Some? {
      InterpSumFromCurves(g, useBias, ab.value, lines, 0, Zeros(|g.xs|));
    }
  }

  // ---------------------------------------------------------------- bias correction

  /** The default bias line `1 * x + 0` parses as scale 1 and offset 0, which leave the
      sample points as they are. */
  lemma {:induction false} DefaultBiasIsIdentity(g: Grid)
    ensures ParseBias(DefaultBias) == Some((1.0, 0.0))
    ensures SampleAxis(g, true, (1.0, 0.0)) == Success(g.x)
  {
    FloatIntTokenRoundTrip(1);
    FloatIntTokenRoundTrip(0);
    assert IntToken(1) == "1" && IntToken(0) == "0";
    RemapIdentity(g.x);
  }

  /** `n` copies of the identity bias `(1, 0)`. */
  function IdentityBiases(n: nat): (r: seq<(real, real)>)
    ensures |r| == n && forall i :: 0 <= i < n ==> r[i] == (1.0, 0.0)
  {
    seq(n, i => (1.0, 0.0))
  }

  lemma {:induction false} DefaultBiasesParse(bs: seq<seq<string>>)
    requires forall i :: 0 <= i < |bs| ==> bs[i] == DefaultBias
    ensures ParseBiases(bs) == Some(IdentityBiases(|bs|))
    decreases |bs|
  {
    if bs != [] {
      DefaultBiasesParse(bs[..|bs| - 1]);
      DefaultBiasIsIdentity(Grid(0.0, 0.0, 0, [], []));
      assert ParseBias(bs[|bs| - 1]) == Some((1.0, 0.0));
      assert IdentityBiases(|bs| - 1) + [(1.0, 0.0)] == IdentityBiases(|bs|);
    }
  }

  lemma {:induction false} IdentityBiasSumFrom(g: Grid, ab: seq<(real, real)>, lines: seq<seq<real>>,
                                               j: nat, acc: seq<real>)
    requires j <= |lines| == |ab| && forall i :: 0 <= i < |lines| ==> |lines[i]| > 0
    requires |acc| == |g.xs|
    requires forall i :: 0 <= i < |ab| ==> ab[i] == (1.0, 0.0)
    ensures InterpSumFrom(g, true, ab, lines, j, acc) == InterpSumFrom(g, false, ab, lines, j, acc)
    decreases |lines| - j
  {
    if j < |lines| {
      DefaultBiasIsIdentity(g);
      var curve := Curve(g, g.x, lines[j]);
      if curve.Success? {
        IdentityBiasSumFrom(g, ab, lines, j + 1, Plus(acc, curve.value));
      }
    }
  }

  /** When no file carries a bias line (merge.py:31), the interpolated sum is the same
      with and without bias correction. */
  lemma {:induction false} DefaultBiasesChangeNothing(g: Grid, bs: seq<seq<string>>, lines: seq<seq<real>>)
    requires |lines| == |bs| && forall i :: 0 <= i < |lines| ==> |lines[i]| > 0
    requires forall i :: 0 <= i < |bs| ==> bs[i] == DefaultBias
    ensures InterpSum(g, true, bs, lines) == InterpSum(g, false, bs, lines)
  {
    DefaultBiasesParse(bs);
    IdentityBiasSumFrom(g, IdentityBiases(|bs|), lines, 0, Zeros(|g.xs|));
  }

  // ---------------------------------------------------------------- grids and peaks

  /** The coarse grid has `nsamples` points from `fluxMin` to `fluxMax`, the fine grid
      `GridUpscale` times as many over the same range, and both increase on an
      increasing range (merge.py:52-56). */
  lemma {:induction false} GridShape(g: Grid)
    requires ValidGrid(g)
    ensures |g.x| == g.nsamples && |g.xs| == GridUpscale * g.nsamples
    ensures g.nsamples > 0 ==> g.x[0] == g.fluxMin && g.xs[0] == g.fluxMin && g.xs[|g.xs| - 1] == g.fluxMax
    ensures g.nsamples > 1 ==> g.x[|g.x| - 1] == g.fluxMax
    ensures g.fluxMin < g.fluxMax ==> StrictlyIncreasing(g.x) && StrictlyIncreasing(g.xs)
  {
    LinspaceShape(g.fluxMin, g.fluxMax, g.nsamples);
    LinspaceShape(g.fluxMin - Padding, g.fluxMax + Padding, GridUpscale * g.nsamples);
  }

  lemma {:induction false} ScaledBelow(i: real, w: real, d: real, f: real)
    requires w > 0.0 && d > 0.0
    ensures i * w / d > f * w <==> i > f * d
  {
    assert i * w / d - f * w == (i - f * d) * w / d;
  }

  /** Without interpolation a trial overflows exactly when its peak index lies above
      `OverflowFraction` of the coarse grid's points (merge.py:178-180). */
  lemma {:induction false} NaiveOverflowAtTop(g: Grid, i: nat)
    requires g.nsamples > 0 && g.fluxMin < g.fluxMax
    ensures IsOverflow((i as real) * (g.fluxMax - g.fluxMin) / (g.nsamples as real), g)
        <==> (i as real) > OverflowFraction * (g.nsamples as real)
  {
    var w := g.fluxMax - g.fluxMin;
    var d := g.nsamples as real;
    assert (i as real) * (g.fluxMax - g.fluxMin) / (g.nsamples as real) == (i as real) * w / d;
    assert IsOverflow((i as real) * w / d, g) <==> (i as real) * w / d > OverflowFraction * w;
    ScaledBelow(i as real, w, d, OverflowFraction);
  }

  /** With interpolation a trial overflows exactly when its peak index lies above
      `OverflowFraction` of the fine grid's points (merge.py:132-134). */
  lemma {:induction false} InterpOverflowAtTop(g: Grid, i: nat)
    requires g.nsamples > 0 && g.fluxMin < g.fluxMax
    ensures IsOverflow(IndexFlux(i, FineStep(g)), g)
        <==> (i as real) > OverflowFraction * ((GridUpscale * g.nsamples) as real)
  {
    var d := (GridUpscale * g.nsamples) as real;
    var w := g.fluxMax - g.fluxMin;
    var step := FineStep(g);
    assert step == w / d;
    assert IndexFlux(i, step) == (i as real) * w / d by {
      ProductOfQuotient(i as real, w, d);
    }
    ScaledBelow(i as real, w, d, OverflowFraction);
  }

  lemma {:induction false} ProductOfQuotient(a: real, b: real, d: real)
    requires d != 0.0
    ensures a * (b / d) == a * b / d
  {
  }

  lemma {:induction false} IndexFluxMonotone(i: nat, j: nat, step: real)
    requires i <= j && step >= 0.0
    ensures IndexFlux(i, step) <= IndexFlux(j, step)
  {
    assert IndexFlux(j, step) - IndexFlux(i, step) == ((j - i) as real) * step;
  }

  /** The containment region brackets the peak (merge.py:137-146): its low end lies at or
      before the index of the maximum and its high end at or after it. */
  lemma {:induction false} ContainmentAroundPeak(s: seq<real>)
    requires |s| > 0
    ensures FirstAbove(s, Max(s) - LikelihoodDrop, 0) <= ArgMax(s) <= LastAbove(s, Max(s) - LikelihoodDrop, |s| - 1)
  {
    assert s[ArgMax(s)] > Max(s) - LikelihoodDrop;
  }

  /** On a non-decreasing flux range, the fluxes of the containment region's ends
      bracket the flux of the peak as well. */
  lemma {:induction false} ContainmentBracketsPeak(g: Grid, s: seq<real>)
    requires g.nsamples > 0 && |s| > 0 && g.fluxMin <= g.fluxMax
    ensures var t := Max(s) - LikelihoodDrop;
      var lo := FirstAbove(s, t, 0);
      var hi := LastAbove(s, t, |s| - 1);
      && lo <= ArgMax(s) <= hi
      && IndexFlux(lo, FineStep(g)) <= IndexFlux(ArgMax(s), FineStep(g)) <= IndexFlux(hi, FineStep(g))
  {
    var t := Max(s) - LikelihoodDrop;
    var top := ArgMax(s);
    var lo := FirstAbove(s, t, 0);
    var hi := LastAbove(s, t, |s| - 1);
    ContainmentAroundPeak(s);
    IndexFluxMonotone(lo, top, FineStep(g));
    IndexFluxMonotone(top, hi, FineStep(g));
  }

  // ---------------------------------------------------------------- a whole run

  /** The true flux on the first file's row of trial `k`. */
  function FirstFlux(srcs: seq<Source>, heads: seq<Head>, k: nat): Option<real>
    requires |heads| == |srcs| > 0
  {
    match RowOf(srcs, heads, k, 0)
    case Some(line) => if |line| > 0 then Some(line[0]) else None
    case None => None
  }

  /** The outcome of trial `k` on its own: the rows read for it, evaluated together,
      when both succeed. */
  function Evaluated(srcs: seq<Source>, heads: seq<Head>, g: Grid, interpolate: bool, useBias: bool,
                     k: nat): Option<Outcome>
    requires |heads| == |srcs| > 0 && ValidGrid(g)
  {
    var r := ReadTrial(srcs, heads, k);
    if r.Rows? && |r.lines| == |heads| && forall i :: 0 <= i < |r.lines| ==> |r.lines[i]| > 0 then
      match Evaluate(g, interpolate, useBias, Biases(heads), r.lines)
      case Success(o) => Some(o)
      case Failure(_) => None
    else None
  }

  /** What the outcome `o` of trial `k` says: it is what that trial's rows evaluate
      to, it holds the trial's true flux, it overflows exactly when its maximum flux is
      in the top of the range, and it is never contained without interpolation. */
  predicate Reports(srcs: seq<Source>, heads: seq<Head>, g: Grid, interpolate: bool, useBias: bool, k: nat,
                    o: Outcome)
  {
    && |heads| == |srcs| > 0 && ValidGrid(g)
    && Evaluated(srcs, heads, g, interpolate, useBias, k) == Some(o)
    && FirstFlux(srcs, heads, k) == Some(o.row.trueFlux)
    && o.overflow == IsOverflow(o.row.maxFlux, g)
    && (!interpolate ==> !o.contained)
  }

  /** A combined trial reports the first file's true flux, overflows exactly when its
      maximum flux is in the top of the range, and without interpolation never counts as
      contained. */
  lemma {:induction false} OutcomeFacts(g: Grid, interpolate: bool, useBias: bool, bs: seq<seq<string>>,
                     lines: seq<seq<real>>, o: Outcome)
    requires ValidGrid(g)
    requires |lines| == |bs| > 0 && forall i :: 0 <= i < |lines| ==> |lines[i]| > 0
    requires Evaluate(g, interpolate, useBias, bs, lines) == Success(o)
    ensures o.row.trueFlux == lines[0][0]
    ensures o.overflow == IsOverflow(o.row.maxFlux, g)
    ensures !interpolate ==> !o.contained
  {
  }

  /** A naive trial (merge.py:172-181): `maxllh` bounds the summed profile and is attained
      in it, first at the index `k` from which `maxflux` is computed. */
  lemma {:induction false} NaiveOutcome(g: Grid, lines: seq<seq<real>>, o: Outcome)
    requires |lines| > 0 && forall i :: 0 <= i < |lines| ==> |lines[i]| > 0
    requires EvaluateNaive(g, lines) == Success(o)
    ensures NaiveSum(lines).Some? && |NaiveSum(lines).value| > 0 && g.nsamples > 0
    ensures var s := NaiveSum(lines).value;
      var k := ArgMax(s);
      && (forall i :: 0 <= i < |s| ==> s[i] <= o.row.maxLlh)
      && s[k] == o.row.maxLlh
      && (forall i :: 0 <= i < k ==> s[i] < o.row.maxLlh)
      && o.row.maxFlux == (k as real) * (g.fluxMax - g.fluxMin) / (g.nsamples as real)
  {
  }

  /** An interpolated trial (merge.py:129-150): `maxllh` bounds the summed curve and is
      attained in it, first at the index `k` from which `maxflux` is computed, and the
      trial counts as contained exactly when its true flux lies strictly between the
      fluxes of the first and the last index above `maxllh - 1`. */
  lemma {:induction false} InterpolatedOutcome(g: Grid, useBias: bool, bs: seq<seq<string>>, lines: seq<seq<real>>,
                                               o: Outcome)
    requires ValidGrid(g)
    requires |lines| == |bs| > 0 && forall i :: 0 <= i < |lines| ==> |lines[i]| > 0
    requires EvaluateInterp(g, useBias, bs, lines) == Success(o)
    ensures InterpSum(g, useBias, bs, lines).Success? && |InterpSum(g, useBias, bs, lines).value| > 0
    ensures g.nsamples > 0
    ensures var s := InterpSum(g, useBias, bs, lines).value;
      var k := ArgMax(s);
      var t := o.row.maxLlh - LikelihoodDrop;
      && (forall i :: 0 <= i < |s| ==> s[i] <= o.row.maxLlh)
      && s[k] == o.row.maxLlh
      && (forall i :: 0 <= i < k ==> s[i] < o.row.maxLlh)
      && o.row.maxFlux == IndexFlux(k, FineStep(g))
      && o.row.trueFlux == lines[0][0]
      && (o.contained <==> IndexFlux(FirstAbove(s, t, 0), FineStep(g)) < o.row.trueFlux
                            < IndexFlux(LastAbove(s, t, |s| - 1), FineStep(g)))
  {
    var r := InterpSum(g, useBias, bs, lines);
    assert r.Success? && o == InterpOutcome(g, lines[0][0], r.value);
    GridShape(g);
    SumOutcome(g, lines[0][0], r.value, o);
  }

  /** The outcome computed from a summed curve `s`, in terms of `s`. */
  lemma {:induction false} SumOutcome(g: Grid, trueFlux: real, s: seq<real>, o: Outcome)
    requires g.nsamples > 0 && |s| > 0 && o == InterpOutcome(g, trueFlux, s)
    ensures var k := ArgMax(s);
      var t := o.row.maxLlh - LikelihoodDrop;
      && (forall i :: 0 <= i < |s| ==> s[i] <= o.row.maxLlh)
      && s[k] == o.row.maxLlh
      && (forall i :: 0 <= i < k ==> s[i] < o.row.maxLlh)
      && o.row.maxFlux == IndexFlux(k, FineStep(g))
      && o.row.trueFlux == trueFlux
      && (o.contained <==> IndexFlux(FirstAbove(s, t, 0), FineStep(g)) < trueFlux
                            < IndexFlux(LastAbove(s, t, |s| - 1), FineStep(g)))
  {
  }

  /** `Reports` of one run's files, grid and mode, as a predicate on trial and outcome. */
  function ReportsOf(srcs: seq<Source>, heads: seq<Head>, g: Grid, interpolate: bool, useBias: bool)
    : (nat, Outcome) -> bool
  {
    (j: nat, o: Outcome) => Reports(srcs, heads, g, interpolate, useBias, j, o)
  }

  /** `p` holds of trial `k + n` and the `n`-th of `outs`, for every `n`, stated one
      outcome at a time. */
  predicate AllFrom(p: (nat, Outcome) -> bool, k: nat, outs: seq<Outcome>)
    decreases |outs|
  {
    outs == [] || (p(k, outs[0]) && AllFrom(p, k + 1, outs[1..]))
  }

  lemma {:induction false} AllFromAt(p: (nat, Outcome) -> bool, k: nat, outs: seq<Outcome>, n: nat)
    requires AllFrom(p, k, outs) && n < |outs|
    ensures p(k + n, outs[n])
    decreases n
  {
    if n > 0 {
      AllFromAt(p, k + 1, outs[1..], n - 1);
      assert outs[1..][n - 1] == outs[n];
    }
  }

  /** The outcomes of the trials from `k` on report trials `k`, `k + 1`, ... in order:
      one outcome per trial, none skipped. */
  lemma {:induction false} TrialsInOrder(srcs: seq<Source>, heads: seq<Head>, g: Grid,
                                         interpolate: bool, useBias: bool, k: nat)
    requires |heads| == |srcs| > 0 && ValidGrid(g)
    ensures AllFrom(ReportsOf(srcs, heads, g, interpolate, useBias), k, Trials(srcs, heads, g, interpolate, useBias, k).0)
  {
    var P := InOrderFrom(srcs, heads, g, interpolate, useBias);
    var more := HasTrial(srcs, heads);
    forall j: nat ensures StepsDown(P, more, j) {
      InOrderStep(srcs, heads, g, interpolate, useBias, j);
    }
    DownFrom(P, more, |srcs[0].lines|, k);
    assert P(k);
  }

  /** For every `j`: the outcomes from trial `j` on report their trials in order. */
  function InOrderFrom(srcs: seq<Source>, heads: seq<Head>, g: Grid, interpolate: bool, useBias: bool): nat -> bool
    requires |heads| == |srcs| > 0 && ValidGrid(g)
  {
    (j: nat) => AllFrom(ReportsOf(srcs, heads, g, interpolate, useBias), j, Trials(srcs, heads, g, interpolate, useBias, j).0)
  }

  /** Whether the first file still has a line for trial `j`. */
  function HasTrial(srcs: seq<Source>, heads: seq<Head>): nat -> bool
    requires |heads| == |srcs| > 0
  {
    (j: nat) => heads[0].first + j < |srcs[0].lines|
  }

  lemma {:induction false} InOrderStep(srcs: seq<Source>, heads: seq<Head>, g: Grid, interpolate: bool, useBias: bool, k: nat)
    requires |heads| == |srcs| > 0 && ValidGrid(g)
    ensures StepsDown(InOrderFrom(srcs, heads, g, interpolate, useBias), HasTrial(srcs, heads), k)
  {
    var p := ReportsOf(srcs, heads, g, interpolate, useBias);
    if heads[0].first + k < |srcs[0].lines| ==> AllFrom(p, k + 1, Trials(srcs, heads, g, interpolate, useBias, k + 1).0) {
      TrialsFirst(srcs, heads, g, interpolate, useBias, k);
      var outs := Trials(srcs, heads, g, interpolate, useBias, k).0;
      if |outs| > 0 {
        AllFromCons(srcs, heads, g, interpolate, useBias, k, outs, Trials(srcs, heads, g, interpolate, useBias, k + 1).0);
      }
    }
  }

  lemma {:induction false} AllFromCons(srcs: seq<Source>, heads: seq<Head>, g: Grid, interpolate: bool, useBias: bool, k: nat,
                    outs: seq<Outcome>, rest: seq<Outcome>)
    requires |outs| > 0 && Reports(srcs, heads, g, interpolate, useBias, k, outs[0]) && outs[1..] == rest
    requires AllFrom(ReportsOf(srcs, heads, g, interpolate, useBias), k + 1, rest)
    ensures AllFrom(ReportsOf(srcs, heads, g, interpolate, useBias), k, outs)
  {
  }

  /** `P` holds at `j` when it holds at `j + 1`, or when there is no trial `j`. */
  predicate StepsDown(P: nat -> bool, more: nat -> bool, j: nat)
  {
    (more(j) ==> P(j + 1)) ==> P(j)
  }

  /** Induction downwards from the last trial: a property that holds at `j` whenever it
      holds at `j + 1` (or there is no trial `j`) holds at every `k`. */
  lemma {:induction false} DownFrom(P: nat -> bool, more: nat -> bool, bound: nat, k: nat)
    requires forall j: nat :: more(j) ==> j < bound
    requires forall j: nat :: StepsDown(P, more, j)
    ensures P(k)
    decreases bound - k
  {
    assert StepsDown(P, more, k);
    if more(k) {
      DownFrom(P, more, bound, k + 1);
    }
  }

  /** The `n`-th outcome of a run's trials reports trial `n`. */
  lemma {:induction false} TrialsReport(srcs: seq<Source>, heads: seq<Head>, g: Grid, interpolate: bool, useBias: bool,
                                        outs: seq<Outcome>)
    requires |heads| == |srcs| > 0 && ValidGrid(g)
    requires outs == Trials(srcs, heads, g, interpolate, useBias, 0).0
    ensures forall n :: 0 <= n < |outs| ==> Reports(srcs, heads, g, interpolate, useBias, n, outs[n])
  {
    var p := ReportsOf(srcs, heads, g, interpolate, useBias);
    TrialsInOrder(srcs, heads, g, interpolate, useBias, 0);
    AllFromEach(p, outs);
  }

  lemma {:induction false} AllFromEach(p: (nat, Outcome) -> bool, outs: seq<Outcome>)
    requires AllFrom(p, 0, outs)
    ensures forall n :: 0 <= n < |outs| ==> p(n, outs[n])
  {
    forall n | 0 <= n < |outs| ensures p(n, outs[n]) {
      AllFromAt(p, 0, outs, n);
    }
  }

  /** The first outcome from trial `k` on, if any, reports trial `k`, and the others are
      those from trial `k + 1` on. */
  lemma {:induction false} TrialsFirst(srcs: seq<Source>, heads: seq<Head>, g: Grid, interpolate: bool, useBias: bool,
                    k: nat)
    requires |heads| == |srcs| > 0 && ValidGrid(g)
    ensures var outs := Trials(srcs, heads, g, interpolate, useBias, k).0;
      |outs| > 0 ==>
        && heads[0].first + k < |srcs[0].lines|
        && Reports(srcs, heads, g, interpolate, useBias, k, outs[0])
        && outs[1..] == Trials(srcs, heads, g, interpolate, useBias, k + 1).0
  {
    var r := ReadTrial(srcs, heads, k);
    if r.Rows? {
      RowsAreAligned(srcs, heads, k, 0, []);
      RowsGiveLines(srcs, heads, k, r.lines);
      var e := Evaluate(g, interpolate, useBias, Biases(heads), r.lines);
      if e.Success? {
        TrialsNext(srcs, heads, g, interpolate, useBias, k, r.lines, e.value);
        OutcomeFacts(g, interpolate, useBias, Biases(heads), r.lines, e.value);
        assert RowOf(srcs, heads, k, 0) == Some(r.lines[0]);
      } else {
        TrialsFail(srcs, heads, g, interpolate, useBias, k, r.lines, e.error);
      }
    } else if r.EndOfData? {
      TrialsEnd(srcs, heads, g, interpolate, useBias, k, Completed);
    } else {
      TrialsEnd(srcs, heads, g, interpolate, useBias, k, Failed(r.reason));
    }
  }

  /** How the trials from `k` on end: at trial `k` when it gives no outcome, Completed
      exactly at the end of the data; otherwise as the trials from `k + 1` on do. */
  lemma {:induction false} StatusHere(srcs: seq<Source>, heads: seq<Head>, g: Grid, interpolate: bool, useBias: bool, k: nat)
    requires |heads| == |srcs| > 0 && ValidGrid(g)
    ensures var t := Trials(srcs, heads, g, interpolate, useBias, k);
      && (|t.0| == 0 ==> (t.1 == Completed <==> ReadTrial(srcs, heads, k).EndOfData?))
      && (|t.0| > 0 ==>
          var rest := Trials(srcs, heads, g, interpolate, useBias, k + 1);
          heads[0].first + k < |srcs[0].lines| && t.1 == rest.1 && |t.0| == 1 + |rest.0|)
  {
    var r := ReadTrial(srcs, heads, k);
    if r.Rows? {
      RowsAreAligned(srcs, heads, k, 0, []);
      RowsGiveLines(srcs, heads, k, r.lines);
      var e := Evaluate(g, interpolate, useBias, Biases(heads), r.lines);
      if e.Success? {
        TrialsNext(srcs, heads, g, interpolate, useBias, k, r.lines, e.value);
      } else {
        TrialsFail(srcs, heads, g, interpolate, useBias, k, r.lines, e.error);
      }
    } else if r.EndOfData? {
      TrialsEnd(srcs, heads, g, interpolate, useBias, k, Completed);
    } else {
      TrialsEnd(srcs, heads, g, interpolate, useBias, k, Failed(r.reason));
    }
  }

  /** The number of rows whose maximum flux lies in the top of the range. */
  function OverflowRows(rows: seq<Summary>, g: Grid): (n: nat)
    ensures n <= |rows|
  {
    if rows == [] then 0
    else OverflowRows(rows[..|rows| - 1], g) + (if IsOverflow(rows[|rows| - 1].maxFlux, g) then 1 else 0)
  }

  lemma {:induction false} CountsOfOutcomes(outs: seq<Outcome>, g: Grid, interpolate: bool)
    requires forall n :: 0 <= n < |outs| ==> outs[n].overflow == IsOverflow(outs[n].row.maxFlux, g)
    requires forall n :: 0 <= n < |outs| ==> !interpolate ==> !outs[n].contained
    ensures CountOverflows(outs) == OverflowRows(RowsOf(outs), g)
    ensures CountContained(outs) <= |outs|
    ensures !interpolate ==> CountContained(outs) == 0
    decreases |outs|
  {
    if outs != [] {
      var init := outs[..|outs| - 1];
      CountsOfOutcomes(init, g, interpolate);
      assert RowsOf(outs)[..|outs| - 1] == RowsOf(init);
    }
  }

  /** What a run of the script reports (merge.py:41-185): a failed set-up stops before
      any trial; otherwise the `n`-th row is the summary of trial `n`, evaluated on its
      own, and holds that trial's true flux, `line_count` is one more than the number of rows, `overflow_count` is
      the number of rows whose maximum flux is in the top of the range, `count_correct`
      counts at most every row and stays 0 without interpolation. */
  lemma {:induction false} RunReport(srcs: seq<Source>, interpolate: bool, useBias: bool)
    ensures var heads := ReadHeads(srcs);
      var setup := SetUp(heads, interpolate);
      var rep := Run(srcs, interpolate, useBias);
      && (setup.Failure? ==> rep == Report([], Failed(setup.error), 0, 0, 0))
      && (setup.Success? ==>
          && rep.lineCount == |rep.rows| + 1
          && rep.overflowCount == OverflowRows(rep.rows, setup.value)
          && rep.countCorrect <= |rep.rows|
          && (!interpolate ==> rep.countCorrect == 0)
          && (forall n :: 0 <= n < |rep.rows| ==> FirstFlux(srcs, heads, n) == Some(rep.rows[n].trueFlux))
          && (forall n :: 0 <= n < |rep.rows| ==>
                && Evaluated(srcs, heads, setup.value, interpolate, useBias, n).Some?
                && Evaluated(srcs, heads, setup.value, interpolate, useBias, n).value.row == rep.rows[n]))
  {
    var heads := ReadHeads(srcs);
    var setup := SetUp(heads, interpolate);
    if setup.Success? {
      var g := setup.value;
      var t := Trials(srcs, heads, g, interpolate, useBias, 0);
      var outs := t.0;
      assert Run(srcs, interpolate, useBias)
          == Report(RowsOf(outs), t.1, |outs| + 1, CountOverflows(outs), CountContained(outs));
      TrialsReport(srcs, heads, g, interpolate, useBias, outs);
      ReportsCount(srcs, heads, g, interpolate, useBias, outs);
    }
  }

  /** Outcomes that report their trials in order give the counters of `RunReport`. */
  lemma {:induction false} ReportsCount(srcs: seq<Source>, heads: seq<Head>, g: Grid, interpolate: bool,
                                        useBias: bool, outs: seq<Outcome>)
    requires forall n :: 0 <= n < |outs| ==> Reports(srcs, heads, g, interpolate, useBias, n, outs[n])
    ensures CountOverflows(outs) == OverflowRows(RowsOf(outs), g)
    ensures CountContained(outs) <= |outs|
    ensures !interpolate ==> CountContained(outs) == 0
    ensures forall n :: 0 <= n < |outs| ==> |heads| == |srcs| > 0 && FirstFlux(srcs, heads, n) == Some(RowsOf(outs)[n].trueFlux)
    ensures forall n :: 0 <= n < |outs| ==>
      && |heads| == |srcs| > 0 && ValidGrid(g)
      && Evaluated(srcs, heads, g, interpolate, useBias, n).Some?
      && Evaluated(srcs, heads, g, interpolate, useBias, n).value.row == RowsOf(outs)[n]
  {
    CountsOfOutcomes(outs, g, interpolate);
    forall n | 0 <= n < |outs|
      ensures Evaluated(srcs, heads, g, interpolate, useBias, n) == Some(outs[n])
    {
      assert Reports(srcs, heads, g, interpolate, useBias, n, outs[n]);
    }
  }
}
