/**
 * ntrials.py: sort a results file by flux and report, for every flux value,
 * how many trials were run at it.
 */
module NTrials {
  import opened Runs

  /** After scanning `col[..index]`: `spans` are the closed runs, whose values and
      lengths are `fluxes` and `counts`, and the open run starts at `startIndex`. */
  ghost predicate Scanned(col: seq<real>, spans: seq<Span>, fluxes: seq<real>, counts: seq<nat>,
                          startIndex: nat, index: nat)
  {
    && startIndex < index <= |col|
    && col[index - 1] == col[startIndex]
    && spans + [Span(startIndex, index - 1)] == MaximalRuns(col[..index])
    && (forall n :: 0 <= n < |spans| ==> spans[n].lo <= spans[n].hi < startIndex)
    && fluxes == RunValues(col, spans) && counts == RunLengths(spans)
  }

  lemma {:induction false} StartScan(col: seq<real>)
    requires |col| > 0
    ensures Scanned(col, [], [], [], 0, 1)
  {
  }

  /** A flux change at `index` closes the open run and opens a new one. */
  lemma {:induction false} CloseRun(col: seq<real>, spans: seq<Span>, fluxes: seq<real>, counts: seq<nat>,
                                    startIndex: nat, index: nat)
    requires Scanned(col, spans, fluxes, counts, startIndex, index)
    requires index < |col| && col[index] != col[index - 1]
    ensures Scanned(col, spans + [Span(startIndex, index - 1)], fluxes + [col[startIndex]],
                    counts + [index - startIndex], index, index + 1)
  {
    assert col[..index + 1][..index] == col[..index];
    SpansAppend(col, spans, Span(startIndex, index - 1));
  }

  /** An unchanged flux at `index` lengthens the open run. */
  lemma {:induction false} ExtendRun(col: seq<real>, spans: seq<Span>, fluxes: seq<real>, counts: seq<nat>,
                                     startIndex: nat, index: nat)
    requires Scanned(col, spans, fluxes, counts, startIndex, index)
    requires index < |col| && col[index] == col[index - 1]
    ensures Scanned(col, spans, fluxes, counts, startIndex, index + 1)
  {
    assert col[..index + 1][..index] == col[..index];
  }

  /** The state of the loop of `main` after `index` rows: before the first row nothing
      is scanned; after it, `prevFlux` is the last flux read and `Scanned` holds. */
  ghost predicate Progress(col: seq<real>, spans: seq<Span>, fluxes: seq<real>, counts: seq<nat>,
                           startIndex: nat, index: nat, prevFlux: real)
  {
    && 0 < |col| && index <= |col|
    && (index == 0 ==> spans == [] && fluxes == [] && counts == [] && startIndex == 0 && prevFlux == col[0])
    && (index > 0 ==> prevFlux == col[index - 1] && Scanned(col, spans, fluxes, counts, startIndex, index))
  }

  /** One pass of the loop: a flux change closes the open run, otherwise the run grows. */
  lemma {:induction false} Advance(col: seq<real>, spans: seq<Span>, fluxes: seq<real>, counts: seq<nat>,
                                   startIndex: nat, index: nat, prevFlux: real)
    requires Progress(col, spans, fluxes, counts, startIndex, index, prevFlux) && index < |col|
    ensures col[index] != prevFlux ==>
      Progress(col, spans + [Span(startIndex, index - 1)], fluxes + [prevFlux],
               counts + [index - startIndex], index, index + 1, col[index])
    ensures col[index] == prevFlux ==>
      Progress(col, spans, fluxes, counts, startIndex, index + 1, col[index])
  {
    if col[index] != prevFlux {
      CloseRun(col, spans, fluxes, counts, startIndex, index);
    } else if index > 0 {
      ExtendRun(col, spans, fluxes, counts, startIndex, index);
    } else {
      StartScan(col);
    }
  }

  /** After the last row the open run is the trailing run of the column. */
  lemma {:induction false} ScanEnds(col: seq<real>, spans: seq<Span>, fluxes: seq<real>, counts: seq<nat>,
                                    startIndex: nat, prevFlux: real)
    requires Progress(col, spans, fluxes, counts, startIndex, |col|, prevFlux)
    ensures startIndex < |col| && col[|col| - 1] == col[startIndex]
    ensures forall n :: 0 <= n < |spans| ==> spans[n].lo <= spans[n].hi < startIndex
    ensures spans + [Span(startIndex, |col| - 1)] == MaximalRuns(col)
    ensures fluxes == RunValues(col, spans) && counts == RunLengths(spans)
  {
    assert col[..|col|] == col;
  }

  /** At the end of the column, closing the open run gives every run. */
  lemma {:induction false} FinishScan(col: seq<real>, spans: seq<Span>, fluxes: seq<real>, counts: seq<nat>,
                                      startIndex: nat, prevFlux: real, allFluxes: seq<real>, allCounts: seq<int>)
    requires Progress(col, spans, fluxes, counts, startIndex, |col|, prevFlux)
    requires allFluxes == fluxes + [col[|col| - 1]] && allCounts == counts + [|col| - startIndex]
    ensures allFluxes == RunValues(col, MaximalRuns(col))
    ensures allCounts == RunLengths(MaximalRuns(col))
  {
    ScanEnds(col, spans, fluxes, counts, startIndex, prevFlux);
    CloseLastRun(col, spans, fluxes, counts, startIndex);
  }

  lemma {:induction false} CloseLastRun(col: seq<real>, spans: seq<Span>, fluxes: seq<real>, counts: seq<nat>,
                                        startIndex: nat)
    requires startIndex < |col| && col[|col| - 1] == col[startIndex]
    requires forall n :: 0 <= n < |spans| ==> spans[n].lo <= spans[n].hi < startIndex
    requires spans + [Span(startIndex, |col| - 1)] == MaximalRuns(col)
    requires fluxes == RunValues(col, spans) && counts == RunLengths(spans)
    ensures fluxes + [col[|col| - 1]] == RunValues(col, MaximalRuns(col))
    ensures counts + [|col| - startIndex] == RunLengths(MaximalRuns(col))
  {
    SpansAppend(col, spans, Span(startIndex, |col| - 1));
  }

  /** The run-detection loop of `main` (ntrials.py:27-42): the value and the length of
      each maximal run of equal first-column values, in order. */
  method CountAtFluxes(data: seq<Row>) returns (fluxes: seq<real>, counts: seq<nat>)
    requires |data| > 0 && RowsNonempty(data)
    ensures fluxes == RunValues(FirstColumn(data), MaximalRuns(FirstColumn(data)))
    ensures counts == RunLengths(MaximalRuns(FirstColumn(data)))
  {
    ghost var col := FirstColumn(data);
    ghost var spans: seq<Span> := [];
    var prevFlux := data[0][0];
    var startIndex: nat := 0;
    var index: nat := 0;
    fluxes, counts := [], [];
    while index < |data|
      invariant |col| == |data| && Progress(col, spans, fluxes, counts, startIndex, index, prevFlux)
    {
      var row := data[index];
      assert row[0] == col[index];
      Advance(col, spans, fluxes, counts, startIndex, index, prevFlux);
      if row[0] != prevFlux {
        fluxes := fluxes + [prevFlux];
        counts := counts + [index - startIndex];
        spans := spans + [Span(startIndex, index - 1)];
        startIndex := index;
      }
      prevFlux := row[0];
      index := index + 1;
    }
    // `row` is now the last row of the data
    var row := data[|data| - 1];
    assert row[0] == col[|col| - 1];
    ghost var closedFluxes, closedCounts := fluxes, counts;
    fluxes := fluxes + [row[0]];
    counts := counts + [|data| - startIndex];
    FinishScan(col, spans, closedFluxes, closedCounts, startIndex, prevFlux, fluxes, counts);
  }

  /** `fluxes` is what `np.unique` returns for `col`: its distinct values in increasing order. */
  predicate IsUniqueOf(fluxes: seq<real>, col: seq<real>)
  {
    StrictlyIncreasing(fluxes) && (set x | x in fluxes) == (set x | x in col)
  }

  /** `main` (ntrials.py:13-42) once the file is loaded: sort the rows by flux with the
      `argsort` order `order`, then count the trials at each flux. */
  method TrialsAtFluxes(loaded: seq<Row>, order: seq<nat>) returns (fluxes: seq<real>, counts: seq<nat>)
    requires |loaded| > 0 && IsSortingOrder(loaded, order)
    ensures IsUniqueOf(fluxes, FirstColumn(loaded))
    ensures |counts| == |fluxes|
    ensures forall n :: 0 <= n < |fluxes| ==> counts[n] == multiset(FirstColumn(loaded))[fluxes[n]]
    ensures Sum(counts) == |loaded|
  {
    var data := Pick(loaded, order);
    SortKeepsFluxes(loaded, order);
    fluxes, counts := CountAtFluxes(data);
    RunSummary(FirstColumn(data), FirstColumn(loaded), fluxes, counts);
  }

  /** The run values and lengths of a sorted column are the distinct values, in
      increasing order, and their multiplicities in any column with the same values. */
  lemma {:induction false} RunSummary(col: seq<real>, orig: seq<real>, fluxes: seq<real>, counts: seq<nat>)
    requires |col| > 0 && SortedColumn(col) && multiset(col) == multiset(orig)
    requires fluxes == RunValues(col, MaximalRuns(col)) && counts == RunLengths(MaximalRuns(col))
    ensures IsUniqueOf(fluxes, orig)
    ensures |counts| == |fluxes|
    ensures forall n :: 0 <= n < |fluxes| ==> counts[n] == multiset(orig)[fluxes[n]]
    ensures Sum(counts) == |orig|
  {
    var r := MaximalRuns(col);
    RunEncoding(col);
    SortedRunValuesIncrease(col);
    RunValuesAreColumnValues(col);
    RunLengthIsMultiplicity(col);
    assert |orig| == |multiset(orig)| == |col|;
    assert (set x | x in col) == (set x | x in orig) by {
      assert forall x :: x in col <==> x in multiset(col);
    }
    forall n | 0 <= n < |fluxes| ensures counts[n] == multiset(orig)[fluxes[n]] {
      assert fluxes[n] == col[r[n].lo] && counts[n] == r[n].hi - r[n].lo + 1;
    }
  }
}
