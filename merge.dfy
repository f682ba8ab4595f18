/**
 * merge.py, `main`, as the script runs it: a loop over the trials that reads one
 * row from every file, sums the profiles into a buffer, scans the summed profile
 * and counts the results. Each method is proved to compute what module Profile
 * specifies, so the properties proved there hold of the script.
 *
 * A file handle is modelled by its position: after its head and `k` trials, file
 * `i` reads its line `heads[i].first + k`.
 */
module Merge {
  import opened Wrappers
  import opened Numeric
  import opened LinearInterp
  import opened Profile

  /** Reads trial `k` from every file in turn, stopping at the first file whose line
      is empty and failing at the first row whose true flux differs (merge.py:66-77). */
  method ReadTrialRows(srcs: seq<Source>, heads: seq<Head>, k: nat) returns (r: Read)
    requires |heads| == |srcs|
    ensures r == ReadTrial(srcs, heads, k)
  {
    var lines: seq<seq<real>> := [];
    var i := 0;
    while i < |srcs|
      invariant i <= |srcs| && |lines| == i
      invariant forall j :: 0 <= j < i ==> |lines[j]| > 0
      invariant ReadFrom(srcs, heads, k, i, lines) == ReadTrial(srcs, heads, k)
    {
      var parsed := ParseRow(TrialTokens(srcs, heads, k, i));
      ghost var here := ReadFrom(srcs, heads, k, i, lines);
      if parsed.None? {
        assert here == ReadFailed(BadNumber);
        return ReadFailed(BadNumber);
      }
      var line := parsed.value;
      ghost var before := lines;
      lines := lines + [line];
      if |line| == 0 {
        assert here == EndOfData;
        return EndOfData;
      }
      assert lines[0] == if i == 0 then line else before[0];
      if line[0] != lines[0][0] {
        assert here == ReadFailed(FluxMismatch);
        return ReadFailed(FluxMismatch);
      }
      assert here == ReadFrom(srcs, heads, k, i + 1, lines);
      i := i + 1;
    }
    return Rows(lines);
  }

  /** numpy's in-place `acc += v` on the sum buffer (merge.py:109, 174). */
  method AddInPlace(acc: array<real>, v: seq<real>) returns (ok: bool)
    modifies acc
    ensures ok <==> AddInto(old(acc[..]), v).Some?
    ensures ok ==> acc[..] == AddInto(old(acc[..]), v).value
    ensures !ok ==> acc[..] == old(acc[..])
  {
    if |v| == acc.Length {
      for i := 0 to acc.Length
        invariant forall j :: 0 <= j < i ==> acc[j] == old(acc[j]) + v[j]
        invariant forall j :: i <= j < acc.Length ==> acc[j] == old(acc[j])
      {
        acc[i] := acc[i] + v[i];
      }
      ok := true;
    } else if |v| == 1 {
      for i := 0 to acc.Length
        invariant forall j :: 0 <= j < i ==> acc[j] == old(acc[j]) + v[0]
        invariant forall j :: i <= j < acc.Length ==> acc[j] == old(acc[j])
      {
        acc[i] := acc[i] + v[0];
      }
      ok := true;
    } else {
      ok := false;
    }
  }

  /** The naive sum of a trial's samples `line[1:]` (merge.py:172-174). */
  method SumNaive(lines: seq<seq<real>>) returns (s: Option<seq<real>>)
    requires |lines| > 0 && forall i :: 0 <= i < |lines| ==> |lines[i]| > 0
    ensures s == NaiveSum(lines)
  {
    var sumArray := new real[|lines[0]| - 1](_ => 0.0);
    assert sumArray[..] == Zeros(|lines[0]| - 1);
    for j := 0 to |lines|
      invariant NaiveSumFrom(sumArray[..], lines, j) == NaiveSum(lines)
    {
      var ok := AddInPlace(sumArray, lines[j][1..]);
      if !ok {
        return None;
      }
    }
    return Some(sumArray[..]);
  }

  /** `float(bs[index][3])` and `float(bs[index][7])` of every file's bias line
      (merge.py:80-84). */
  method ReadBiases(bs: seq<seq<string>>) returns (ab: Option<seq<(real, real)>>)
    ensures ab == ParseBiases(bs)
  {
    var parsed: seq<(real, real)> := [];
    for index := 0 to |bs|
      invariant ParseBiases(bs[..index]) == Some(parsed)
    {
      var p := ParseBias(bs[index]);
      assert bs[..index + 1][..index] == bs[..index];
      if p.None? {
        BiasPrefixFails(bs, index + 1);
        return None;
      }
      parsed := parsed + [p.value];
    }
    assert bs[..|bs|] == bs;
    return Some(parsed);
  }

  /** Every file's curve on the fine grid, added into a zeroed buffer (merge.py:90,
      102-109). */
  method SumCurves(g: Grid, useBias: bool, ab: seq<(real, real)>, lines: seq<seq<real>>)
    returns (r: Result<seq<real>, Failure>)
    requires |lines| == |ab| && forall i :: 0 <= i < |lines| ==> |lines[i]| > 0
    ensures r == InterpSumFrom(g, useBias, ab, lines, 0, Zeros(|g.xs|))
  {
    var sumArray := new real[|g.xs|](_ => 0.0);
    assert sumArray[..] == Zeros(|g.xs|);
    for j := 0 to |lines|
      invariant InterpSumFrom(g, useBias, ab, lines, j, sumArray[..])
             == InterpSumFrom(g, useBias, ab, lines, 0, Zeros(|g.xs|))
    {
      var xp := SampleAxis(g, useBias, ab[j]);
      if xp.Failure? {
        return Failure(xp.error);
      }
      var interp := Curve(g, xp.value, lines[j]);
      if interp.Failure? {
        return Failure(interp.error);
      }
      var ok := AddInPlace(sumArray, interp.value);
    }
    return Success(sumArray[..]);
  }

  /** A malformed bias line anywhere makes the whole list malformed. */
  lemma {:induction false} BiasPrefixFails(bs: seq<seq<string>>, n: nat)
    requires n <= |bs| && ParseBiases(bs[..n]).None?
    ensures ParseBiases(bs).None?
    decreases |bs|
  {
    if n < |bs| {
      var init := bs[..|bs| - 1];
      assert init[..n] == bs[..n];
      BiasPrefixFails(init, n);
    } else {
      assert bs[..n] == bs;
    }
  }

  /** The low end of the containment scan (merge.py:137-140): the first index whose
      value exceeds `t`. */
  method ScanLow(s: seq<real>, t: real) returns (lowi: nat)
    requires exists j :: 0 <= j < |s| && s[j] > t
    ensures lowi < |s| && s[lowi] > t
    ensures forall j :: 0 <= j < lowi ==> s[j] <= t
    ensures lowi == FirstAbove(s, t, 0)
  {
    var i := 0;
    while !(s[i] > t)
      invariant exists j :: i <= j < |s| && s[j] > t
      invariant forall j :: 0 <= j < i ==> s[j] <= t
      decreases |s| - i
    {
      i := i + 1;
    }
    lowi := i;
  }

  /** The high end of the containment scan (merge.py:141-144): the last index whose
      value exceeds `t`. */
  method ScanHigh(s: seq<real>, t: real) returns (highi: nat)
    requires exists j :: 0 <= j < |s| && s[j] > t
    ensures highi < |s| && s[highi] > t
    ensures forall j :: highi < j < |s| ==> s[j] <= t
    ensures highi == LastAbove(s, t, |s| - 1)
  {
    var i := |s| - 1;
    while !(s[i] > t)
      invariant i < |s|
      invariant exists j :: 0 <= j <= i && s[j] > t
      invariant forall j :: i < j < |s| ==> s[j] <= t
      decreases i
    {
      i := i - 1;
    }
    highi := i;
  }

  /** One trial with interpolation (merge.py:79-152): the interpolated sum, its
      maximum, the flux of the maximum, and whether the true flux lies strictly inside
      the region within `LikelihoodDrop` of the maximum. */
  method CombineInterpolated(g: Grid, useBias: bool, bs: seq<seq<string>>, lines: seq<seq<real>>)
    returns (r: Result<Outcome, Failure>)
    requires ValidGrid(g)
    requires |lines| == |bs| > 0 && forall i :: 0 <= i < |lines| ==> |lines[i]| > 0
    ensures r == EvaluateInterp(g, useBias, bs, lines)
  {
    var ab := ReadBiases(bs);
    if ab.None? {
      return Failure(BadBias);
    }
    var summed := SumCurves(g, useBias, ab.value, lines);
    if summed.Failure? {
      return Failure(summed.error);
    }
    var sumArray := summed.value;
    assert InterpSum(g, useBias, bs, lines) == Success(sumArray);
    assert |sumArray| == GridUpscale * g.nsamples > 0;
    var maxLlh := Max(sumArray);
    var step := FineStep(g);
    var maxFlux := IndexFlux(ArgMax(sumArray), step);
    var lowi := ScanLow(sumArray, maxLlh - LikelihoodDrop);
    var highi := ScanHigh(sumArray, maxLlh - LikelihoodDrop);
    var lowFlux := IndexFlux(lowi, step);
    var highFlux := IndexFlux(highi, step);
    var trueFlux := lines[0][0];
    r := Success(Outcome(Summary(trueFlux, maxFlux, maxLlh), IsOverflow(maxFlux, g),
                         lowFlux < trueFlux && trueFlux < highFlux));
    InterpOutcomeAt(g, trueFlux, sumArray, maxLlh - LikelihoodDrop, lowi, highi);
    assert r.value == InterpOutcome(g, trueFlux, sumArray);
  }

  /** One trial without interpolation (merge.py:170-181): the sum on the coarse grid,
      its maximum and the flux of the maximum. */
  method CombineNaive(g: Grid, lines: seq<seq<real>>) returns (r: Result<Outcome, Failure>)
    requires |lines| > 0 && forall i :: 0 <= i < |lines| ==> |lines[i]| > 0
    ensures r == EvaluateNaive(g, lines)
  {
    var summed := SumNaive(lines);
    if summed.None? {
      return Failure(NotBroadcastable);
    }
    var sumArray := summed.value;
    if |sumArray| == 0 {
      return Failure(EmptyProfile);
    }
    var maxLlh := Max(sumArray);
    if g.nsamples == 0 {
      return Failure(ZeroSamples);
    }
    var maxFlux := (ArgMax(sumArray) as real) * (g.fluxMax - g.fluxMin) / (g.nsamples as real);
    r := Success(Outcome(Summary(lines[0][0], maxFlux, maxLlh), IsOverflow(maxFlux, g), false));
  }

  /** One trial's combination, with or without interpolation (merge.py:79, 170). */
  method CombineTrial(g: Grid, interpolate: bool, useBias: bool, bs: seq<seq<string>>,
                      lines: seq<seq<real>>) returns (r: Result<Outcome, Failure>)
    requires ValidGrid(g)
    requires |lines| == |bs| > 0 && forall i :: 0 <= i < |lines| ==> |lines[i]| > 0
    ensures r == Evaluate(g, interpolate, useBias, bs, lines)
  {
    if interpolate {
      r := CombineInterpolated(g, useBias, bs, lines);
    } else {
      r := CombineNaive(g, lines);
    }
  }

  /** The header check and the grid set-up (merge.py:41-56). */
  method SetUpGrids(heads: seq<Head>, interpolate: bool) returns (r: Result<Grid, Failure>)
    ensures r == SetUp(heads, interpolate)
  {
    for i := 0 to |heads|
      invariant interpolate || forall j :: 0 <= j < i ==> heads[j].header == heads[0].header
    {
      if heads[i].header != heads[0].header && !interpolate {
        return Failure(HeaderMismatch);
      }
    }
    if |heads| == 0 {
      return Failure(NoInputFiles);
    }
    var h := heads[0].header;
    if |h| < 3 {
      return Failure(BadHeader);
    }
    var fluxMin, fluxMax, nsamples := ParseFloat(h[0]), ParseFloat(h[1]), ParseInt(h[2]);
    if fluxMin.None? || fluxMax.None? || nsamples.None? {
      return Failure(BadHeader);
    }
    if nsamples.value < 0 {
      return Failure(NegativeSamples);
    }
    var n: nat := nsamples.value;
    var x := Linspace(fluxMin.value, fluxMax.value, n);
    var xs := Linspace(fluxMin.value - Padding, fluxMax.value + Padding, GridUpscale * n);
    r := Success(Grid(fluxMin.value, fluxMax.value, n, x, xs));
  }

  /** One pass of the trial loop (merge.py:64-181): read trial `k` and combine it.
      Either the run stops here with `status`, or trial `k` gives the outcome `o` and
      the run goes on with trial `k + 1`. */
  method TrialStep(srcs: seq<Source>, heads: seq<Head>, g: Grid, interpolate: bool, useBias: bool, k: nat)
    returns (stop: bool, status: Status, o: Outcome)
    requires |heads| == |srcs| > 0 && ValidGrid(g)
    ensures stop ==> Trials(srcs, heads, g, interpolate, useBias, k) == ([], status)
    ensures !stop ==> heads[0].first + k < |srcs[0].lines|
    ensures !stop ==> var rest := Trials(srcs, heads, g, interpolate, useBias, k + 1);
      Trials(srcs, heads, g, interpolate, useBias, k) == ([o] + rest.0, rest.1)
  {
    o := Outcome(Summary(0.0, 0.0, 0.0), false, false);
    status := Completed;
    stop := true;
    var read := ReadTrialRows(srcs, heads, k);
    if read.EndOfData? {
      TrialsEnd(srcs, heads, g, interpolate, useBias, k, status);
      return;
    }
    if read.ReadFailed? {
      status := Failed(read.reason);
      TrialsEnd(srcs, heads, g, interpolate, useBias, k, status);
      return;
    }
    RowsAreAligned(srcs, heads, k, 0, []);
    RowsGiveLines(srcs, heads, k, read.lines);
    var r := CombineTrial(g, interpolate, useBias, Biases(heads), read.lines);
    if r.Failure? {
      status := Failed(r.error);
      TrialsFail(srcs, heads, g, interpolate, useBias, k, read.lines, r.error);
      return;
    }
    stop, o := false, r.value;
    TrialsNext(srcs, heads, g, interpolate, useBias, k, read.lines, o);
  }

  /** The trial loop (merge.py:60-181): the rows it writes, how it ends, and its
      counters `line_count`, `overflow_count` and `count_correct`. */
  method RunTrials(srcs: seq<Source>, heads: seq<Head>, g: Grid, interpolate: bool, useBias: bool)
    returns (rows: seq<Summary>, status: Status, lineCount: nat, overflowCount: nat, countCorrect: nat)
    requires |heads| == |srcs| > 0 && ValidGrid(g)
    ensures var (outs, st) := Trials(srcs, heads, g, interpolate, useBias, 0);
      && rows == RowsOf(outs) && status == st && lineCount == |outs| + 1
      && overflowCount == CountOverflows(outs) && countCorrect == CountContained(outs)
  {
    lineCount, overflowCount, countCorrect := 0, 0, 0;
    rows := [];
    ghost var outs: seq<Outcome> := [];
    var k := 0;
    ghost var all := Trials(srcs, heads, g, interpolate, useBias, 0);
    assert all.0 == outs + all.0;
    while true
      invariant lineCount == k == |outs|
      invariant rows == RowsOf(outs)
      invariant overflowCount == CountOverflows(outs) && countCorrect == CountContained(outs)
      invariant all == Done(outs, Trials(srcs, heads, g, interpolate, useBias, k))
      decreases |srcs[0].lines| - k
    {
      lineCount := lineCount + 1;
      var stop, st, o := TrialStep(srcs, heads, g, interpolate, useBias, k);
      if stop {
        status := st;
        DoneLast(outs, status);
        return;
      }
      DoneStep(outs, o, Trials(srcs, heads, g, interpolate, useBias, k + 1));
      RowsOfAppend(outs, o);
      CountsAppend(outs, o);
      rows := rows + [o.row];
      if o.overflow {
        overflowCount := overflowCount + 1;
      }
      if o.contained {
        countCorrect := countCorrect + 1;
      }
      outs := outs + [o];
      k := k + 1;
    }
  }

  lemma {:induction false} CountsAppend(outs: seq<Outcome>, o: Outcome)
    ensures CountOverflows(outs + [o]) == CountOverflows(outs) + (if o.overflow then 1 else 0)
    ensures CountContained(outs + [o]) == CountContained(outs) + (if o.contained then 1 else 0)
  {
    assert (outs + [o])[..|outs|] == outs;
  }

  /** The outcomes of a run: those of the trials done so far, then the rest. */
  ghost function Done(outs: seq<Outcome>, rest: (seq<Outcome>, Status)): (seq<Outcome>, Status)
  {
    (outs + rest.0, rest.1)
  }

  lemma {:induction false} DoneStep(outs: seq<Outcome>, o: Outcome, rest: (seq<Outcome>, Status))
    ensures Done(outs, ([o] + rest.0, rest.1)) == Done(outs + [o], rest)
  {
    assert outs + ([o] + rest.0) == (outs + [o]) + rest.0;
  }

  lemma {:induction false} DoneLast(outs: seq<Outcome>, status: Status)
    ensures Done(outs, ([], status)) == (outs, status)
  {
    assert outs + [] == outs;
  }

  /** `main` from the header check on (merge.py:41-181). */
  method Merge(srcs: seq<Source>, interpolate: bool, useBias: bool) returns (report: Report)
    ensures report == Run(srcs, interpolate, useBias)
  {
    var heads := ReadHeads(srcs);
    var grid := SetUpGrids(heads, interpolate);
    if grid.Failure? {
      return Report([], Failed(grid.error), 0, 0, 0);
    }
    var rows, status, lineCount, overflowCount, countCorrect :=
      RunTrials(srcs, heads, grid.value, interpolate, useBias);
    report := Report(rows, status, lineCount, overflowCount, countCorrect);
  }
}
