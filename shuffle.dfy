/**
 * shuffle.py: reorder a results file by flux, find the ranges of constant
 * flux, and shuffle the rows inside each range. The random permutation of
 * each range is a parameter of the model.
 */
module Shuffle {
  import opened Runs

  /** `find_change_indices` (shuffle.py:15-29): the `[start, end]` ranges over which
      the first column is constant, scanned left to right. */
  method FindChangeIndices(idata: seq<Row>) returns (changePoints: seq<Span>)
    requires |idata| > 0 && RowsNonempty(idata)
    ensures changePoints == MaximalRuns(FirstColumn(idata))
  {
    ghost var col := FirstColumn(idata);
    var prevFlux := idata[0][0];
    var startIndex: nat := 0;
    var index: nat := 0;
    changePoints := [];
    while index < |idata|
      invariant index <= |idata|
      invariant index == 0 ==> changePoints == [] && startIndex == 0 && prevFlux == col[0]
      invariant index > 0 ==> prevFlux == col[index - 1] && startIndex < index
      invariant index > 0 ==> changePoints + [Span(startIndex, index - 1)] == MaximalRuns(col[..index])
    {
      var row := idata[index];
      assert col[..index + 1][..index] == col[..index];
      if row[0] != prevFlux {
        changePoints := changePoints + [Span(startIndex, index - 1)];
        startIndex := index;
      }
      prevFlux := row[0];
      index := index + 1;
    }
    changePoints := changePoints + [Span(startIndex, |idata| - 1)];
    assert col[..|idata|] == col;
  }

  /** `shuffle` (shuffle.py:33-41): writes the rows of `idata` in the range `r` into
      `odata`, in the order given by `mapping`, a shuffled list of the range's indices. */
  method Shuffle<T>(idata: seq<T>, odata: array<T>, r: Span, mapping: seq<nat>)
    requires r.lo <= r.hi < |idata| == odata.Length
    requires multiset(mapping) == multiset(Range(r.lo, r.hi + 1))
    modifies odata
    ensures IsPermutationOf(mapping, r.lo, r.hi + 1)
    ensures odata[..] == old(odata[..])[..r.lo] + Pick(idata, mapping) + old(odata[..])[r.hi + 1..]
    ensures multiset(Pick(idata, mapping)) == multiset(idata[r.lo..r.hi + 1])
  {
    ghost var before := odata[..];
    PermutationBounds(mapping, r.lo, r.hi + 1);
    var index := 0;
    for n := r.lo to r.hi + 1
      invariant index == n - r.lo
      invariant forall k :: 0 <= k < odata.Length && !(r.lo <= k < n) ==> odata[k] == old(odata[k])
      invariant forall k :: r.lo <= k < n ==> odata[k] == idata[mapping[k - r.lo]]
    {
      odata[n] := idata[mapping[index]];
      index := index + 1;
    }
    PickPermutation(idata, mapping, Range(r.lo, r.hi + 1));
    PickRange(idata, r.lo, r.hi + 1);
    assert odata[r.lo..r.hi + 1] == Pick(idata, mapping);
    FrameToSeq(before, odata[..], r.lo, r.hi, Pick(idata, mapping));
  }

  /** Number of rows covered by the first `k` ranges. */
  function Covered(changePoints: seq<Span>, k: nat): nat
    requires k <= |changePoints|
  {
    if k == 0 then 0 else changePoints[k - 1].hi + 1
  }

  /** `odata` agrees with the sorted rows `idata` beyond `done`, holds the same rows
      before it, and has the same first column there. */
  ghost predicate ShuffledUpTo(odata: seq<Row>, idata: seq<Row>, done: nat)
  {
    && |odata| == |idata| && done <= |idata|
    && multiset(odata[..done]) == multiset(idata[..done])
    && odata[done..] == idata[done..]
    && (forall i :: 0 <= i < done ==> |odata[i]| > 0 && |idata[i]| > 0 && odata[i][0] == idata[i][0])
  }

  /** Shuffling the next range of constant flux extends `ShuffledUpTo` over that range. */
  lemma {:induction false} ShuffleRangeStep(before: seq<Row>, after: seq<Row>, idata: seq<Row>, r: Span, mapping: seq<nat>)
    requires r.lo <= r.hi < |idata| && RowsNonempty(idata)
    requires IsPermutationOf(mapping, r.lo, r.hi + 1)
    requires forall i :: r.lo <= i <= r.hi ==> FirstColumn(idata)[i] == FirstColumn(idata)[r.lo]
    requires ShuffledUpTo(before, idata, r.lo)
    requires after == before[..r.lo] + Pick(idata, mapping) + before[r.hi + 1..]
    requires multiset(Pick(idata, mapping)) == multiset(idata[r.lo..r.hi + 1])
    ensures ShuffledUpTo(after, idata, r.hi + 1)
  {
    var done := r.lo;
    assert after[done..r.hi + 1] == Pick(idata, mapping);
    assert after[..r.hi + 1] == after[..done] + after[done..r.hi + 1];
    assert idata[..r.hi + 1] == idata[..done] + idata[done..r.hi + 1];
    assert after[..done] == before[..done];
    assert after[r.hi + 1..] == before[r.hi + 1..];
    forall i | done <= i <= r.hi ensures |after[i]| > 0 && after[i][0] == idata[i][0] {
      assert after[i] == after[done..r.hi + 1][i - done];
      assert after[i] == idata[mapping[i - done]];
      assert FirstColumn(idata)[mapping[i - done]] == FirstColumn(idata)[i];
    }
  }

  lemma {:induction false} ShuffledAll(odata: seq<Row>, idata: seq<Row>)
    requires ShuffledUpTo(odata, idata, |idata|)
    ensures multiset(odata) == multiset(idata)
    ensures RowsNonempty(odata) && RowsNonempty(idata)
    ensures FirstColumn(odata) == FirstColumn(idata)
  {
    assert odata == odata[..|idata|] && idata == idata[..|idata|];
  }

  lemma {:induction false} FrameToSeq<T>(before: seq<T>, after: seq<T>, lo: nat, hi: nat, picked: seq<T>)
    requires lo <= hi < |before| == |after|
    requires forall n :: 0 <= n < |after| && !(lo <= n <= hi) ==> after[n] == before[n]
    requires after[lo..hi + 1] == picked
    ensures after == before[..lo] + picked + before[hi + 1..]
  {
  }

  /** The loop of `main` over the ranges (shuffle.py:61-62): shuffle every range of
      constant flux of the sorted rows `idata` inside the copy `odata`. */
  method ShuffleRanges(idata: seq<Row>, odata: array<Row>, changePoints: seq<Span>,
                       shuffler: seq<nat> -> seq<nat>)
    requires |idata| > 0 && RowsNonempty(idata)
    requires changePoints == MaximalRuns(FirstColumn(idata))
    requires odata[..] == idata
    requires forall s: seq<nat> {:trigger shuffler(s)} :: multiset(shuffler(s)) == multiset(s)
    modifies odata
    ensures ShuffledUpTo(odata[..], idata, |idata|)
  {
    for k := 0 to |changePoints|
      invariant odata.Length == |idata|
      invariant ShuffledUpTo(odata[..], idata, Covered(changePoints, k))
    {
      ShuffleNext(idata, odata, changePoints, shuffler, k);
    }
    RunFacts(FirstColumn(idata), |changePoints| - 1);
  }

  /** One pass of the loop over the ranges: shuffle range `k`. */
  method ShuffleNext(idata: seq<Row>, odata: array<Row>, changePoints: seq<Span>,
                     shuffler: seq<nat> -> seq<nat>, k: nat)
    requires |idata| > 0 && RowsNonempty(idata)
    requires changePoints == MaximalRuns(FirstColumn(idata)) && k < |changePoints|
    requires forall s: seq<nat> {:trigger shuffler(s)} :: multiset(shuffler(s)) == multiset(s)
    requires ShuffledUpTo(odata[..], idata, Covered(changePoints, k))
    modifies odata
    ensures ShuffledUpTo(odata[..], idata, Covered(changePoints, k + 1))
  {
    var r := changePoints[k];
    NextRange(idata, changePoints, k);
    var mapping := shuffler(Range(r.lo, r.hi + 1));
    assert multiset(mapping) == multiset(Range(r.lo, r.hi + 1));
    ghost var before := odata[..];
    Shuffle(idata, odata, r, mapping);
    ShuffleRangeStep(before, odata[..], idata, r, mapping);
  }

  /** Range `k` of constant flux starts where the first `k` ranges end. */
  lemma {:induction false} NextRange(idata: seq<Row>, changePoints: seq<Span>, k: nat)
    requires |idata| > 0 && RowsNonempty(idata)
    requires changePoints == MaximalRuns(FirstColumn(idata)) && k < |changePoints|
    ensures changePoints[k].lo <= changePoints[k].hi < |idata|
    ensures changePoints[k].lo == Covered(changePoints, k)
    ensures changePoints[k].hi + 1 == Covered(changePoints, k + 1)
    ensures forall i :: changePoints[k].lo <= i <= changePoints[k].hi ==>
      FirstColumn(idata)[i] == FirstColumn(idata)[changePoints[k].lo]
  {
    RunFacts(FirstColumn(idata), k);
  }

  /** The body of `main` (shuffle.py:50-62): sort the rows by flux (`order` is what
      `argsort` returned), copy them, and shuffle each range of constant flux with the
      permutation `shuffler` makes of that range's indices. */
  method ShuffleFile(loaded: seq<Row>, order: seq<nat>, shuffler: seq<nat> -> seq<nat>)
    returns (shuffled: seq<Row>)
    requires |loaded| > 0 && IsSortingOrder(loaded, order)
    requires forall s: seq<nat> {:trigger shuffler(s)} :: multiset(shuffler(s)) == multiset(s)
    ensures multiset(shuffled) == multiset(loaded)
    ensures multiset(shuffled) == multiset(Pick(loaded, order))
    ensures |shuffled| == |loaded| && RowsNonempty(shuffled)
    ensures FirstColumn(shuffled) == FirstColumn(Pick(loaded, order))
  {
    var idata := Pick(loaded, order);
    SortKeepsRows(loaded, order);
    var odata := new Row[|idata|](i requires 0 <= i < |idata| => idata[i]);
    var changePoints := FindChangeIndices(idata);
    assert odata[..] == idata;
    ShuffleRanges(idata, odata, changePoints, shuffler);
    shuffled := odata[..];
    ShuffledAll(shuffled, idata);
  }
}
