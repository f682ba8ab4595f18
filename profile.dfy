/**
 * merge.py, `main`, as a specification: how the script reads the heads of its
 * input files, sets up the coarse and the fine flux grid, reads one trial row
 * per file in lock-step, combines the log-likelihood profiles of a trial
 * (summed on the coarse grid, or interpolated onto the fine grid and summed),
 * finds the maximum, and counts overflows and containments.
 *
 * The imperative version in module Merge is proved equal to these functions.
 */
module Profile {
  import opened Wrappers
  import opened Numeric
  import opened LinearInterp

  /** Engine constants (merge.py:54-55, 133, 137-144). */
  const Padding: real := 0.0
  const GridUpscale: nat := 10
  const OverflowFraction: real := 0.95
  const LikelihoodDrop: real := 1.0

  /** The bias line assumed for a file that has none (merge.py:31): `1 * x + 0`. */
  const DefaultBias: seq<string> := ["Bias", "fitted", "by:", "1", "*", "x", "+", "0"]

  /** One input file, as the whitespace-split tokens of each of its lines. */
  datatype Source = Source(lines: seq<seq<string>>)

  /** Why a run stops early: an error message the script prints before returning, an
      exception it raises, or a value numpy would make infinite or undefined. */
  datatype Failure =
    | NoInputFiles          // `hs[0]` of an empty list (merge.py:49)
    | HeaderMismatch        // headers differ without interpolation (merge.py:41-44)
    | BadHeader             // the header is too short or not numeric (merge.py:49-51)
    | NegativeSamples       // `np.linspace` refuses a negative count (merge.py:52)
    | BadNumber             // a trial row holds a token `float` refuses (merge.py:68)
    | FluxMismatch          // the files disagree on the true flux (merge.py:73-75)
    | BadBias               // the bias line is too short or not numeric (merge.py:83-84)
    | ZeroBiasScale         // `(x - b) / a` with `a == 0` (merge.py:105)
    | EmptySamplePoints     // `np.interp` with no sample points (merge.py:105, 107)
    | SampleCountMismatch   // `np.interp` with as many samples as sample points (merge.py:105, 107)
    | NotBroadcastable      // `sum_array += line[1:]` with incompatible lengths (merge.py:174)
    | EmptyProfile          // `np.max` of an empty profile (merge.py:176)
    | ZeroSamples           // the naive flux divides by `nsamples == 0` (merge.py:178)

  /** The tokens of line `i` of a file; an exhausted file reads as an empty line. */
  function LineAt(s: Source, i: nat): seq<string>
  {
    if i < |s.lines| then s.lines[i] else []
  }

  /** What the script takes from the top of a file (merge.py:24-31): its bias tokens,
      its grid header, and the index of its first trial line. */
  datatype Head = Head(bias: seq<string>, header: seq<string>, first: nat)

  function ReadHead(s: Source): (h: Head)
    ensures h.first == 1 || h.first == 2
    ensures h.first == 2 <==> "Bias" in LineAt(s, 0)
    ensures h.header == LineAt(s, h.first - 1)
    ensures h.bias == if h.first == 2 then LineAt(s, 0) else DefaultBias
  {
    if "Bias" in LineAt(s, 0) then Head(LineAt(s, 0), LineAt(s, 1), 2)
    else Head(DefaultBias, LineAt(s, 0), 1)
  }

  function ReadHeads(srcs: seq<Source>): (heads: seq<Head>)
    ensures |heads| == |srcs|
    ensures forall i :: 0 <= i < |srcs| ==> heads[i] == ReadHead(srcs[i])
  {
    seq(|srcs|, i requires 0 <= i < |srcs| => ReadHead(srcs[i]))
  }

  /** The grids of a run (merge.py:49-56): the coarse grid `x` of the first file's
      header and the fine grid `xs` with `GridUpscale` times as many points. */
  datatype Grid = Grid(fluxMin: real, fluxMax: real, nsamples: nat, x: seq<real>, xs: seq<real>)

  predicate ValidGrid(g: Grid)
  {
    && g.x == Linspace(g.fluxMin, g.fluxMax, g.nsamples)
    && g.xs == Linspace(g.fluxMin - Padding, g.fluxMax + Padding, GridUpscale * g.nsamples)
  }

  predicate HeadersAgree(heads: seq<Head>)
  {
    forall i :: 0 <= i < |heads| ==> heads[i].header == heads[0].header
  }

  /** The header check and the grid set-up, in the order the script does them. */
  function SetUp(heads: seq<Head>, interpolate: bool): (r: Result<Grid, Failure>)
    ensures r.Success? ==> ValidGrid(r.value) && |heads| > 0 && (interpolate || HeadersAgree(heads))
    ensures !interpolate && !HeadersAgree(heads) ==> r == Failure(HeaderMismatch)
    ensures r.Success? <==>
      && (interpolate || HeadersAgree(heads))
      && |heads| > 0 && |heads[0].header| >= 3
      && ParseFloat(heads[0].header[0]).Some? && ParseFloat(heads[0].header[1]).Some?
      && ParseInt(heads[0].header[2]).Some? && ParseInt(heads[0].header[2]).value >= 0
    ensures r.Success? ==>
      && Some(r.value.fluxMin) == ParseFloat(heads[0].header[0])
      && Some(r.value.fluxMax) == ParseFloat(heads[0].header[1])
      && Some(r.value.nsamples as int) == ParseInt(heads[0].header[2])
  {
    if !interpolate && !HeadersAgree(heads) then Failure(HeaderMismatch)
    else if |heads| == 0 then Failure(NoInputFiles)
    else
      var h := heads[0].header;
      if |h| < 3 then Failure(BadHeader)
      else
        match (ParseFloat(h[0]), ParseFloat(h[1]), ParseInt(h[2]))
        case (Some(lo), Some(hi), Some(n)) =>
          if n < 0 then Failure(NegativeSamples)
          else Success(Grid(lo, hi, n, Linspace(lo, hi, n),
                            Linspace(lo - Padding, hi + Padding, GridUpscale * n)))
        case _ => Failure(BadHeader)
  }

  /** What reading one trial gives: a row per file, the end of the data, or a failure. */
  datatype Read = EndOfData | Rows(lines: seq<seq<real>>) | ReadFailed(reason: Failure)

  /** The file at which reading a trial looks: line `first + k` of file `i`. */
  function TrialTokens(srcs: seq<Source>, heads: seq<Head>, k: nat, i: nat): seq<string>
    requires |heads| == |srcs| && i < |srcs|
  {
    LineAt(srcs[i], heads[i].first + k)
  }

  /** Reading trial `k` from file `i` on, the rows of the files before `i` in `acc`
      (merge.py:66-77): a file whose line is empty ends the data, a row whose true
      flux differs from the first file's is an error. */
  function ReadFrom(srcs: seq<Source>, heads: seq<Head>, k: nat, i: nat, acc: seq<seq<real>>): (r: Read)
    requires |heads| == |srcs| && i <= |srcs| && |acc| == i
    requires forall j :: 0 <= j < |acc| ==> |acc[j]| > 0
    ensures r.Rows? ==> |r.lines| == |srcs|
    decreases |srcs| - i
  {
    if i == |srcs| then Rows(acc)
    else
      match ParseRow(TrialTokens(srcs, heads, k, i))
      case None => ReadFailed(BadNumber)
      case Some(line) =>
        if |line| == 0 then EndOfData
        else if i > 0 && line[0] != acc[0][0] then ReadFailed(FluxMismatch)
        else ReadFrom(srcs, heads, k, i + 1, acc + [line])
  }

  /** Reading trial `k` from every file: one row per file, the end of the data, or
      a failure. */
  function ReadTrial(srcs: seq<Source>, heads: seq<Head>, k: nat): (r: Read)
    requires |heads| == |srcs|
    ensures r.Rows? ==> |r.lines| == |srcs|
  {
    ReadFrom(srcs, heads, k, 0, [])
  }

  /** Element-wise sum of two profiles of the same length. */
  function Plus(a: seq<real>, b: seq<real>): (c: seq<real>)
    requires |a| == |b|
    ensures |c| == |a|
    ensures forall i :: 0 <= i < |a| ==> c[i] == a[i] + b[i]
  {
    seq(|a|, i requires 0 <= i < |a| => a[i] + b[i])
  }

  function Zeros(n: nat): (z: seq<real>)
    ensures |z| == n && forall i :: 0 <= i < n ==> z[i] == 0.0
  {
    seq(n, i => 0.0)
  }

  /** numpy's in-place `acc += v`: element-wise for equal lengths, `v`'s single value
      added everywhere for a one-element `v`, and refused otherwise. */
  function AddInto(acc: seq<real>, v: seq<real>): (r: Option<seq<real>>)
    ensures r.Some? <==> (|v| == |acc| || |v| == 1)
    ensures r.Some? ==> |r.value| == |acc|
    ensures r.Some? ==> forall i :: 0 <= i < |acc| ==> r.value[i] == acc[i] + (if |v| == |acc| then v[i] else v[0])
  {
    if |v| == |acc| then Some(Plus(acc, v))
    else if |v| == 1 then Some(seq(|acc|, i requires 0 <= i < |acc| => acc[i] + v[0]))
    else None
  }

  /** The naive sum (merge.py:172-174): `acc` plus the samples `line[1:]` of rows `j` on. */
  function NaiveSumFrom(acc: seq<real>, lines: seq<seq<real>>, j: nat): (r: Option<seq<real>>)
    requires j <= |lines| && forall i :: 0 <= i < |lines| ==> |lines[i]| > 0
    ensures r.Some? ==> |r.value| == |acc|
    decreases |lines| - j
  {
    if j == |lines| then Some(acc)
    else
      match AddInto(acc, lines[j][1..])
      case None => None
      case Some(a) => NaiveSumFrom(a, lines, j + 1)
  }

  function NaiveSum(lines: seq<seq<real>>): (r: Option<seq<real>>)
    requires |lines| > 0 && forall i :: 0 <= i < |lines| ==> |lines[i]| > 0
  {
    NaiveSumFrom(Zeros(|lines[0]| - 1), lines, 0)
  }

  /** `np.max`. */
  function Max(s: seq<real>): (m: real)
    requires |s| > 0
    ensures forall i :: 0 <= i < |s| ==> s[i] <= m
    ensures exists i :: 0 <= i < |s| && s[i] == m
  {
    if |s| == 1 then s[0]
    else
      var m := Max(s[..|s| - 1]);
      if s[|s| - 1] > m then s[|s| - 1] else m
  }

  /** The first index from `i` on that holds `m`. */
  function FirstIndexOf(s: seq<real>, m: real, i: nat): (k: nat)
    requires i < |s| && exists j :: i <= j < |s| && s[j] == m
    ensures i <= k < |s| && s[k] == m
    ensures forall j :: i <= j < k ==> s[j] != m
    decreases |s| - i
  {
    if s[i] == m then i else FirstIndexOf(s, m, i + 1)
  }

  /** `np.argmax`: the first index at which the maximum occurs. */
  function ArgMax(s: seq<real>): (k: nat)
    requires |s| > 0
    ensures k < |s| && s[k] == Max(s)
    ensures forall j :: 0 <= j < k ==> s[j] < Max(s)
  {
    FirstIndexOf(s, Max(s), 0)
  }

  /** The first index whose value exceeds `t` (the low end of the containment scan). */
  function FirstAbove(s: seq<real>, t: real, i: nat): (k: nat)
    requires i < |s| && exists j :: i <= j < |s| && s[j] > t
    ensures i <= k < |s| && s[k] > t
    ensures forall j :: i <= j < k ==> s[j] <= t
    decreases |s| - i
  {
    if s[i] > t then i else FirstAbove(s, t, i + 1)
  }

  /** The last index up to `i` whose value exceeds `t` (the high end of the scan). */
  function LastAbove(s: seq<real>, t: real, i: nat): (k: nat)
    requires i < |s| && exists j :: 0 <= j <= i && s[j] > t
    ensures k <= i && s[k] > t
    ensures forall j :: k < j <= i ==> s[j] <= t
  {
    if s[i] > t then i else LastAbove(s, t, i - 1)
  }

  /** The emitted row of one trial (merge.py:152, 181). */
  datatype Summary = Summary(trueFlux: real, maxFlux: real, maxLlh: real)

  /** One evaluated trial: its row, and whether it counts as an overflow and as a
      containment. */
  datatype Outcome = Outcome(row: Summary, overflow: bool, contained: bool)

  predicate IsOverflow(maxFlux: real, g: Grid)
  {
    maxFlux > OverflowFraction * (g.fluxMax - g.fluxMin)
  }

  /** A trial without interpolation (merge.py:170-181). */
  function EvaluateNaive(g: Grid, lines: seq<seq<real>>): (r: Result<Outcome, Failure>)
    requires |lines| > 0 && forall i :: 0 <= i < |lines| ==> |lines[i]| > 0
    ensures r.Success? <==> NaiveSum(lines).Some? && |NaiveSum(lines).value| > 0 && g.nsamples > 0
    ensures r.Success? ==> r.value.row.trueFlux == lines[0][0] && !r.value.contained
  {
    match NaiveSum(lines)
    case None => Failure(NotBroadcastable)
    case Some(s) =>
      if |s| == 0 then Failure(EmptyProfile)
      else if g.nsamples == 0 then Failure(ZeroSamples)
      else
        var maxFlux := (ArgMax(s) as real) * (g.fluxMax - g.fluxMin) / (g.nsamples as real);
        Success(Outcome(Summary(lines[0][0], maxFlux, Max(s)), IsOverflow(maxFlux, g), false))
  }

  /** `float(b[3])` and `float(b[7])` of a bias line: the scale `a` and offset `b`. */
  function ParseBias(b: seq<string>): (r: Option<(real, real)>)
    ensures r.Some? <==> |b| >= 8 && ParseFloat(b[3]).Some? && ParseFloat(b[7]).Some?
    ensures r.Some? ==> r.value == (ParseFloat(b[3]).value, ParseFloat(b[7]).value)
  {
    if |b| < 8 then None
    else
      match (ParseFloat(b[3]), ParseFloat(b[7]))
      case (Some(a), Some(off)) => Some((a, off))
      case _ => None
  }

  /** The bias coefficients of every file (merge.py:82-84), or failure if any is malformed. */
  function ParseBiases(bs: seq<seq<string>>): (r: Option<seq<(real, real)>>)
    ensures r.Some? <==> forall i :: 0 <= i < |bs| ==> ParseBias(bs[i]).Some?
    ensures r.Some? ==> |r.value| == |bs| && forall i :: 0 <= i < |bs| ==> r.value[i] == ParseBias(bs[i]).value
  {
    if bs == [] then Some([])
    else
      assert forall i :: 0 <= i < |bs| - 1 ==> bs[..|bs| - 1][i] == bs[i];
      match (ParseBiases(bs[..|bs| - 1]), ParseBias(bs[|bs| - 1]))
      case (Some(init), Some(ab)) => Some(init + [ab])
      case _ => None
  }

  /** The sample points of one file: the coarse grid, remapped by `(x - b) / a` when
      bias correction is on (merge.py:104-107). */
  function SampleAxis(g: Grid, useBias: bool, ab: (real, real)): (r: Result<seq<real>, Failure>)
    ensures r.Success? ==> |r.value| == |g.x|
  {
    if !useBias then Success(g.x)
    else if ab.0 == 0.0 then Failure(ZeroBiasScale)
    else Success(Remap(g.x, ab.0, ab.1))
  }

  /** `np.interp(xs, xp, line[1:])` with numpy's checks on its arguments. */
  function Curve(g: Grid, xp: seq<real>, line: seq<real>): (r: Result<seq<real>, Failure>)
    requires |line| > 0
    ensures r.Success? ==> |xp| > 0 && |r.value| == |g.xs|
  {
    if |xp| == 0 then Failure(EmptySamplePoints)
    else if |xp| != |line| - 1 then Failure(SampleCountMismatch)
    else Success(InterpAll(g.xs, xp, line[1..]))
  }

  /** The interpolated sum (merge.py:90, 102-109): `acc` plus the interpolated curves of
      rows `j` on. */
  function InterpSumFrom(g: Grid, useBias: bool, ab: seq<(real, real)>, lines: seq<seq<real>>,
                         j: nat, acc: seq<real>): (r: Result<seq<real>, Failure>)
    requires j <= |lines| == |ab| && forall i :: 0 <= i < |lines| ==> |lines[i]| > 0
    requires |acc| == |g.xs|
    ensures r.Success? ==> |r.value| == |g.xs|
    ensures r.Success? && j < |lines| ==> |g.x| > 0
    decreases |lines| - j
  {
    if j == |lines| then Success(acc)
    else
      match SampleAxis(g, useBias, ab[j])
      case Failure(e) => Failure(e)
      case Success(xp) =>
        match Curve(g, xp, lines[j])
        case Failure(e) => Failure(e)
        case Success(c) => InterpSumFrom(g, useBias, ab, lines, j + 1, Plus(acc, c))
  }

  /** The interpolated profile of a trial: every file's curve on the fine grid, summed. */
  function InterpSum(g: Grid, useBias: bool, bs: seq<seq<string>>, lines: seq<seq<real>>)
    : (r: Result<seq<real>, Failure>)
    requires |lines| == |bs| && forall i :: 0 <= i < |lines| ==> |lines[i]| > 0
    ensures r.Success? ==> |r.value| == |g.xs|
    ensures r.Success? && |lines| > 0 ==> |g.x| > 0
  {
    match ParseBiases(bs)
    case None => Failure(BadBias)
    case Some(ab) => InterpSumFrom(g, useBias, ab, lines, 0, Zeros(|g.xs|))
  }

  /** The width of one fine-grid step as the script computes it (merge.py:132, 145-146). */
  function FineStep(g: Grid): real
    requires g.nsamples > 0
  {
    ((g.fluxMax + Padding) - (g.fluxMin - Padding)) / ((GridUpscale * g.nsamples) as real)
  }

  /** The flux of grid index `i` for a grid step `step`. */
  function IndexFlux(i: nat, step: real): real
  {
    (i as real) * step
  }

  /** What the script takes from an interpolated profile `s` (merge.py:129-149): its
      maximum, the flux of the maximum, and whether the true flux lies strictly inside
      the region where the profile is within `LikelihoodDrop` of the maximum. */
  function InterpOutcome(g: Grid, trueFlux: real, s: seq<real>): Outcome
    requires g.nsamples > 0 && |s| > 0
  {
    var maxLlh := Max(s);
    var step := FineStep(g);
    var maxFlux := IndexFlux(ArgMax(s), step);
    var lowFlux := IndexFlux(FirstAbove(s, maxLlh - LikelihoodDrop, 0), step);
    var highFlux := IndexFlux(LastAbove(s, maxLlh - LikelihoodDrop, |s| - 1), step);
    Outcome(Summary(trueFlux, maxFlux, maxLlh), IsOverflow(maxFlux, g),
            lowFlux < trueFlux && trueFlux < highFlux)
  }

  /** The interpolated outcome in terms of the two ends of the containment scan. */
  lemma {:induction false} InterpOutcomeAt(g: Grid, trueFlux: real, s: seq<real>, t: real, lowi: nat, highi: nat)
    requires g.nsamples > 0 && |s| > 0 && t == Max(s) - LikelihoodDrop
    requires lowi == FirstAbove(s, t, 0) && highi == LastAbove(s, t, |s| - 1)
    ensures var step := FineStep(g);
      var maxFlux := IndexFlux(ArgMax(s), step);
      InterpOutcome(g, trueFlux, s)
        == Outcome(Summary(trueFlux, maxFlux, Max(s)), IsOverflow(maxFlux, g),
                   IndexFlux(lowi, step) < trueFlux && trueFlux < IndexFlux(highi, step))
  {
  }

  /** A trial with interpolation (merge.py:80-152). */
  function EvaluateInterp(g: Grid, useBias: bool, bs: seq<seq<string>>, lines: seq<seq<real>>)
    : (r: Result<Outcome, Failure>)
    requires ValidGrid(g)
    requires |lines| == |bs| > 0 && forall i :: 0 <= i < |lines| ==> |lines[i]| > 0
    ensures r.Success? <==> InterpSum(g, useBias, bs, lines).Success?
    ensures r.Success? ==> r.value.row.trueFlux == lines[0][0]
  {
    match InterpSum(g, useBias, bs, lines)
    case Failure(e) => Failure(e)
    case Success(s) => Success(InterpOutcome(g, lines[0][0], s))
  }

  function Evaluate(g: Grid, interpolate: bool, useBias: bool, bs: seq<seq<string>>,
                    lines: seq<seq<real>>): Result<Outcome, Failure>
    requires ValidGrid(g)
    requires |lines| == |bs| > 0 && forall i :: 0 <= i < |lines| ==> |lines[i]| > 0
  {
    if interpolate then EvaluateInterp(g, useBias, bs, lines) else EvaluateNaive(g, lines)
  }

  function Biases(heads: seq<Head>): (bs: seq<seq<string>>)
    ensures |bs| == |heads|
  {
    seq(|heads|, i requires 0 <= i < |heads| => heads[i].bias)
  }

  datatype Status = Completed | Failed(reason: Failure)

  /** What a run produces: the rows written, how it ended, and its three counters
      (`line_count`, `overflow_count`, `count_correct`). */
  datatype Report = Report(rows: seq<Summary>, status: Status, lineCount: nat,
                           overflowCount: nat, countCorrect: nat)

  /** The trials from `k` on (merge.py:64-181), until the data ends or a trial fails. */
  function Trials(srcs: seq<Source>, heads: seq<Head>, g: Grid, interpolate: bool, useBias: bool,
                  k: nat): (t: (seq<Outcome>, Status))
    requires |heads| == |srcs| > 0 && ValidGrid(g)
    ensures |t.0| == 0 || heads[0].first + k + |t.0| <= |srcs[0].lines|
    decreases |srcs[0].lines| - k
  {
    match ReadTrial(srcs, heads, k)
    case EndOfData => ([], Completed)
    case ReadFailed(e) => ([], Failed(e))
    case Rows(lines) =>
      RowsAreAligned(srcs, heads, k, 0, []);
      RowsGiveLines(srcs, heads, k, lines);
      match Evaluate(g, interpolate, useBias, Biases(heads), lines)
      case Failure(e) => ([], Failed(e))
      case Success(o) =>
        var rest := Trials(srcs, heads, g, interpolate, useBias, k + 1);
        ([o] + rest.0, rest.1)
  }

  /** The cases of one step of the trial loop. */
  lemma {:induction false} TrialsEnd(srcs: seq<Source>, heads: seq<Head>, g: Grid, interpolate: bool, useBias: bool,
                  k: nat, status: Status)
    requires |heads| == |srcs| > 0 && ValidGrid(g)
    requires var r := ReadTrial(srcs, heads, k);
      (r.EndOfData? && status == Completed) || (r.ReadFailed? && status == Failed(r.reason))
    ensures Trials(srcs, heads, g, interpolate, useBias, k) == ([], status)
  {
  }

  lemma {:induction false} TrialsFail(srcs: seq<Source>, heads: seq<Head>, g: Grid, interpolate: bool, useBias: bool,
                   k: nat, lines: seq<seq<real>>, e: Failure)
    requires |heads| == |srcs| > 0 && ValidGrid(g)
    requires ReadTrial(srcs, heads, k) == Rows(lines) && AlignedRows(srcs, heads, k, lines, 0)
    requires Evaluate(g, interpolate, useBias, Biases(heads), lines) == Failure(e)
    ensures Trials(srcs, heads, g, interpolate, useBias, k) == ([], Failed(e))
  {
  }

  lemma {:induction false} TrialsNext(srcs: seq<Source>, heads: seq<Head>, g: Grid, interpolate: bool, useBias: bool,
                   k: nat, lines: seq<seq<real>>, o: Outcome)
    requires |heads| == |srcs| > 0 && ValidGrid(g)
    requires ReadTrial(srcs, heads, k) == Rows(lines) && AlignedRows(srcs, heads, k, lines, 0)
    requires Evaluate(g, interpolate, useBias, Biases(heads), lines) == Success(o)
    ensures var rest := Trials(srcs, heads, g, interpolate, useBias, k + 1);
      Trials(srcs, heads, g, interpolate, useBias, k) == ([o] + rest.0, rest.1)
  {
  }

  function RowsOf(outs: seq<Outcome>): (rows: seq<Summary>)
    ensures |rows| == |outs|
    ensures forall k :: 0 <= k < |outs| ==> rows[k] == outs[k].row
  {
    seq(|outs|, k requires 0 <= k < |outs| => outs[k].row)
  }

  lemma {:induction false} RowsOfAppend(outs: seq<Outcome>, o: Outcome)
    ensures RowsOf(outs + [o]) == RowsOf(outs) + [o.row]
  {
    assert forall k :: 0 <= k < |outs| ==> (outs + [o])[k] == outs[k];
  }

  function CountOverflows(outs: seq<Outcome>): (n: nat)
    ensures n <= |outs|
  {
    if outs == [] then 0 else CountOverflows(outs[..|outs| - 1]) + (if outs[|outs| - 1].overflow then 1 else 0)
  }

  function CountContained(outs: seq<Outcome>): (n: nat)
    ensures n <= |outs|
  {
    if outs == [] then 0 else CountContained(outs[..|outs| - 1]) + (if outs[|outs| - 1].contained then 1 else 0)
  }

  /** A whole run of the script on the files `srcs` with the `--interp` and `--bias` flags. */
  function Run(srcs: seq<Source>, interpolate: bool, useBias: bool): (rep: Report)
    ensures rep.lineCount == 0 ==> rep.rows == [] && rep.status.Failed?
    ensures rep.lineCount != 0 ==> rep.lineCount == |rep.rows| + 1
    ensures rep.overflowCount <= |rep.rows| && rep.countCorrect <= |rep.rows|
  {
    var heads := ReadHeads(srcs);
    match SetUp(heads, interpolate)
    case Failure(e) => Report([], Failed(e), 0, 0, 0)
    case Success(g) =>
      var (outs, status) := Trials(srcs, heads, g, interpolate, useBias, 0);
      Report(RowsOf(outs), status, |outs| + 1, CountOverflows(outs), CountContained(outs))
  }

  // ---------------------------------------------------------------- trial alignment

  /** The rows of one trial as reading them promises: one non-empty row per file, all
      with the first file's true flux, each from `i` on the parsed line of its file. */
  predicate AlignedRows(srcs: seq<Source>, heads: seq<Head>, k: nat, lines: seq<seq<real>>, i: nat)
    requires |heads| == |srcs|
  {
    && |lines| == |srcs|
    && (forall j :: 0 <= j < |lines| ==> |lines[j]| > 0)
    && (forall j :: 0 <= j < |lines| ==> lines[j][0] == lines[0][0])
    && (forall j :: i <= j < |srcs| ==> ParseRow(TrialTokens(srcs, heads, k, j)) == Some(lines[j]))
  }

  /** A trial that reads as rows has one non-empty row per file, each the parsed line
      `first + k` of its file, all with the first file's true flux. */
  lemma {:induction false} RowsAreAligned(srcs: seq<Source>, heads: seq<Head>, k: nat, i: nat,
                                          acc: seq<seq<real>>)
    requires |heads| == |srcs| && i <= |srcs| && |acc| == i
    requires forall j :: 0 <= j < |acc| ==> |acc[j]| > 0
    requires forall j :: 0 <= j < |acc| ==> acc[j][0] == acc[0][0]
    ensures var r := ReadFrom(srcs, heads, k, i, acc);
      r.Rows? ==> AlignedRows(srcs, heads, k, r.lines, i) && r.lines[..i] == acc
    decreases |srcs| - i
  {
    if i < |srcs| {
      match ParseRow(TrialTokens(srcs, heads, k, i))
      case None =>
      case Some(line) =>
        if |line| > 0 && !(i > 0 && line[0] != acc[0][0]) {
          var acc' := acc + [line];
          assert forall j :: 0 <= j < |acc'| ==> |acc'[j]| > 0;
          assert forall j :: 0 <= j < |acc'| ==> acc'[j][0] == acc'[0][0];
          RowsAreAligned(srcs, heads, k, i + 1, acc');
          var r := ReadFrom(srcs, heads, k, i + 1, acc');
          if r.Rows? {
            assert r.lines[..i] == r.lines[..i + 1][..i];
            assert r.lines[i] == r.lines[..i + 1][i] == line;
            AlignedBefore(srcs, heads, k, r.lines, i);
          }
        }
    }
  }

  lemma {:induction false} AlignedBefore(srcs: seq<Source>, heads: seq<Head>, k: nat, lines: seq<seq<real>>, i: nat)
    requires |heads| == |srcs| && i < |srcs| && AlignedRows(srcs, heads, k, lines, i + 1)
    requires ParseRow(TrialTokens(srcs, heads, k, i)) == Some(lines[i])
    ensures AlignedRows(srcs, heads, k, lines, i)
  {
  }

  /** A file that still gives a row has not run out of lines. */
  lemma {:induction false} RowsGiveLines(srcs: seq<Source>, heads: seq<Head>, k: nat, lines: seq<seq<real>>)
    requires |heads| == |srcs| && AlignedRows(srcs, heads, k, lines, 0)
    ensures forall j :: 0 <= j < |srcs| ==> heads[j].first + k < |srcs[j].lines|
  {
    forall j | 0 <= j < |srcs| ensures heads[j].first + k < |srcs[j].lines| {
      assert ParseRow(TrialTokens(srcs, heads, k, j)) == Some(lines[j]);
      assert |TrialTokens(srcs, heads, k, j)| > 0;
    }
  }
}
