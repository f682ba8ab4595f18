/**
 * The numeric building blocks of the interpolating combination: evenly spaced
 * grids (`np.linspace`), the affine bias remap of a grid, and piecewise-linear
 * interpolation clamped outside the sample range (`np.interp`).
 */
module LinearInterp {
  import opened Runs

  /** `np.linspace(start, stop, num)`: `num` evenly spaced points from `start` to `stop`
      inclusive; a single point is `start`. */
  function Linspace(start: real, stop: real, num: nat): (xs: seq<real>)
    ensures |xs| == num
  {
    if num == 0 then []
    else if num == 1 then [start]
    else
      var step := (stop - start) / ((num - 1) as real);
      seq(num, i requires 0 <= i < num => start + (i as real) * step)
  }

  /** The grid starts at `start`, ends at `stop`, and increases strictly when `start < stop`. */
  lemma {:induction false} LinspaceShape(start: real, stop: real, num: nat)
    ensures var xs := Linspace(start, stop, num);
      && (num > 0 ==> xs[0] == start)
      && (num > 1 ==> xs[num - 1] == stop)
      && (start < stop ==> StrictlyIncreasing(xs))
  {
    var xs := Linspace(start, stop, num);
    if num > 1 {
      var step := (stop - start) / ((num - 1) as real);
      assert xs[num - 1] == start + ((num - 1) as real) * step;
      if start < stop {
        assert step > 0.0;
        forall i, j | 0 <= i < j < num ensures xs[i] < xs[j] {
          assert xs[j] - xs[i] == ((j - i) as real) * step;
        }
      }
    }
  }

  /** The bias-corrected grid `(x - b) / a` of one source. */
  function Remap(x: seq<real>, a: real, b: real): (y: seq<real>)
    requires a != 0.0
    ensures |y| == |x|
  {
    seq(|x|, i requires 0 <= i < |x| => (x[i] - b) / a)
  }

  /** The default bias `1 * x + 0` leaves the grid as it is. */
  lemma {:induction false} RemapIdentity(x: seq<real>)
    ensures Remap(x, 1.0, 0.0) == x
  {
  }

  /** A positive scale keeps the grid increasing, so it stays a valid sample axis. */
  lemma {:induction false} RemapKeepsOrder(x: seq<real>, a: real, b: real)
    requires a > 0.0 && StrictlyIncreasing(x)
    ensures StrictlyIncreasing(Remap(x, a, b))
  {
    var y := Remap(x, a, b);
    forall i, j | 0 <= i < j < |y| ensures y[i] < y[j] {
      assert y[j] - y[i] == (x[j] - x[i]) / a;
    }
  }

  /** The last index `k <= j` whose sample point lies at or below `v`: the left end of
      the segment `[xp[k], xp[k+1]]` that `np.interp` finds for `v`. */
  function SegmentBelow(v: real, xp: seq<real>, j: nat): (k: nat)
    requires j < |xp| && xp[0] <= v
    ensures k <= j && xp[k] <= v
    ensures forall i :: k < i <= j ==> v < xp[i]
    decreases j
  {
    if xp[j] <= v then j else SegmentBelow(v, xp, j - 1)
  }

  /** The straight line through `(x0, y0)` and `(x1, y1)`, evaluated at `v`. */
  function Line(x0: real, y0: real, x1: real, y1: real, v: real): real
    requires x0 < x1
  {
    y0 + (y1 - y0) * (v - x0) / (x1 - x0)
  }

  /** `np.interp(v, xp, fp)`, with its tests in numpy's order: beyond the last sample
      point the last value, below the first the first value, at the last point the last
      value, and otherwise the straight line across the last segment whose left end is
      at or below `v`. */
  function InterpAt(v: real, xp: seq<real>, fp: seq<real>): (y: real)
    requires |xp| == |fp| > 0
    ensures v >= xp[0] && v >= xp[|xp| - 1] ==> y == fp[|fp| - 1]
    ensures v < xp[0] && v <= xp[|xp| - 1] ==> y == fp[0]
    ensures xp[0] <= v < xp[|xp| - 1] ==>
      exists j :: 0 <= j < |xp| - 1 && xp[j] <= v < xp[j + 1] && y == Line(xp[j], fp[j], xp[j + 1], fp[j + 1], v)
  {
    var last := |xp| - 1;
    if v > xp[last] then fp[last]
    else if v < xp[0] then fp[0]
    else if v == xp[last] then fp[last]
    else
      var j := SegmentBelow(v, xp, last - 1);
      Line(xp[j], fp[j], xp[j + 1], fp[j + 1], v)
  }

  /** `np.interp(xs, xp, fp)` on a whole grid. */
  function InterpAll(xs: seq<real>, xp: seq<real>, fp: seq<real>): (ys: seq<real>)
    requires |xp| == |fp| > 0
    ensures |ys| == |xs|
    ensures forall i :: 0 <= i < |xs| ==> ys[i] == InterpAt(xs[i], xp, fp)
  {
    seq(|xs|, i requires 0 <= i < |xs| => InterpAt(xs[i], xp, fp))
  }

  /** With increasing sample points the segment found is the one that holds `v`. */
  lemma {:induction false} SegmentIsUnique(v: real, xp: seq<real>, j: nat)
    requires StrictlyIncreasing(xp) && j < |xp| - 1 && xp[j] <= v < xp[j + 1]
    ensures SegmentBelow(v, xp, |xp| - 2) == j
  {
    assert xp[0] <= xp[j];
    var k := SegmentBelow(v, xp, |xp| - 2);
    assert xp[k] <= v < xp[j + 1];
  }

  lemma {:induction false} LineEnds(x0: real, y0: real, x1: real, y1: real)
    requires x0 < x1
    ensures Line(x0, y0, x1, y1, x0) == y0
    ensures Line(x0, y0, x1, y1, x1) == y1
  {
    assert (y1 - y0) * (x1 - x0) / (x1 - x0) == y1 - y0;
  }

  /** On increasing sample points, `np.interp` is the straight line through the two
      samples around `v`, whichever segment `[xp[j], xp[j+1]]` holds it. */
  lemma {:induction false} InterpOnSegment(v: real, xp: seq<real>, fp: seq<real>, j: nat)
    requires |xp| == |fp| && StrictlyIncreasing(xp)
    requires j < |xp| - 1 && xp[j] <= v <= xp[j + 1]
    ensures InterpAt(v, xp, fp) == Line(xp[j], fp[j], xp[j + 1], fp[j + 1], v)
  {
    var last := |xp| - 1;
    LineEnds(xp[j], fp[j], xp[j + 1], fp[j + 1]);
    assert xp[0] <= xp[j];
    if v == xp[j + 1] && j + 1 == last {
      assert InterpAt(v, xp, fp) == fp[last];
    } else if v == xp[j + 1] {
      assert xp[j + 1] < xp[last];
      SegmentIsUnique(v, xp, j + 1);
      LineEnds(xp[j + 1], fp[j + 1], xp[j + 2], fp[j + 2]);
    } else {
      assert xp[j + 1] <= xp[last];
      SegmentIsUnique(v, xp, j);
    }
  }

  /** On increasing sample points, `np.interp` passes through every sample. */
  lemma {:induction false} InterpAtSample(xp: seq<real>, fp: seq<real>, j: nat)
    requires |xp| == |fp| && StrictlyIncreasing(xp) && j < |xp|
    ensures InterpAt(xp[j], xp, fp) == fp[j]
  {
    if j < |xp| - 1 {
      InterpOnSegment(xp[j], xp, fp, j);
    }
  }

  /** On increasing sample points, `np.interp` holds the nearest end sample outside the
      sample range. */
  lemma {:induction false} InterpClamps(v: real, xp: seq<real>, fp: seq<real>)
    requires |xp| == |fp| > 0 && StrictlyIncreasing(xp)
    ensures v <= xp[0] ==> InterpAt(v, xp, fp) == fp[0]
    ensures v >= xp[|xp| - 1] ==> InterpAt(v, xp, fp) == fp[|fp| - 1]
  {
    if v <= xp[0] {
      assert |xp| > 1 ==> xp[0] < xp[|xp| - 1];
      if v == xp[0] {
        InterpAtSample(xp, fp, 0);
      }
    }
  }

  /** On non-increasing sample points (a reversed or degenerate grid) `np.interp` never
      interpolates: below both ends it gives the first value, and otherwise the last. */
  lemma {:induction false} InterpOnNonIncreasing(v: real, xp: seq<real>, fp: seq<real>)
    requires |xp| == |fp| > 0
    requires forall i, j :: 0 <= i < j < |xp| ==> xp[j] <= xp[i]
    ensures InterpAt(v, xp, fp) == if v < xp[0] && v <= xp[|xp| - 1] then fp[0] else fp[|fp| - 1]
  {
    assert 0 < |xp| - 1 ==> xp[|xp| - 1] <= xp[0];
  }

  /** Between its two ends the line stays between the two end values. */
  lemma {:induction false} LineBetween(x0: real, y0: real, x1: real, y1: real, v: real)
    requires x0 <= v <= x1 && x0 < x1
    ensures y0 <= y1 ==> y0 <= Line(x0, y0, x1, y1, v) <= y1
    ensures y1 < y0 ==> y1 <= Line(x0, y0, x1, y1, v) <= y0
  {
    var d, a, den := y1 - y0, v - x0, x1 - x0;
    var t := a / den;
    RatioBetween(a, den);
    assert d * a / den == d * t;
    assert Line(x0, y0, x1, y1, v) == y0 + d * t;
    FractionOfStep(d, t);
  }

  lemma {:induction false} RatioBetween(a: real, den: real)
    requires 0.0 <= a <= den && den > 0.0
    ensures 0.0 <= a / den <= 1.0
  {
  }

  lemma {:induction false} FractionOfStep(d: real, t: real)
    requires 0.0 <= t <= 1.0
    ensures d >= 0.0 ==> 0.0 <= d * t <= d
    ensures d < 0.0 ==> d <= d * t <= 0.0
  {
    assert d - d * t == d * (1.0 - t);
  }

  /** `np.interp` never leaves the range of the sample values it is given. */
  lemma {:induction false} InterpWithinSamples(v: real, xp: seq<real>, fp: seq<real>)
    requires |xp| == |fp| > 0
    ensures exists i :: 0 <= i < |fp| && fp[i] <= InterpAt(v, xp, fp)
    ensures exists i :: 0 <= i < |fp| && InterpAt(v, xp, fp) <= fp[i]
  {
    var last := |xp| - 1;
    var r := InterpAt(v, xp, fp);
    if v > xp[last] {
      assert fp[last] <= r <= fp[last];
    } else if v < xp[0] {
      assert fp[0] <= r <= fp[0];
    } else if v == xp[last] {
      assert fp[last] <= r <= fp[last];
    } else {
      var j := SegmentBelow(v, xp, last - 1);
      assert xp[j] <= v < xp[j + 1];
      LineBetween(xp[j], fp[j], xp[j + 1], fp[j + 1], v);
    }
  }
}
