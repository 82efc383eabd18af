/**
 * The stacking of the composite bar plot: each algorithm's bar for a
 * feature is drawn on top of the bars of the algorithms before it, so its
 * base is the running element-wise total of the earlier algorithms' scores.
 */
module Stacking {
  import opened Wrappers
  import opened Vectors

  /**
   * The element type numpy gives `np.array(row)`: an integer array when every
   * entry is a Python int, a float array otherwise. Normalisation and
   * fractionation write the int 0 for an uninformative feature or an all-zero
   * row, so the type is not fixed by the real values alone.
   */
  datatype DType = Int64 | Float64

  /**
   * `bottom += np.array(row)` under numpy's same_kind casting rule: a float
   * row cannot be added into an integer array in place.
   */
  predicate AddCasts(into: DType, row: DType)
  {
    !(into == Int64 && row == Float64)
  }

  /**
   * The bottoms loop raises exactly when the first algorithm's row is an
   * integer array and some row it adds, those of algorithms 1 to
   * algorithmCount - 2, is a float array.
   */
  predicate CastFails(dtypes: seq<DType>, algorithmCount: nat)
    requires algorithmCount <= |dtypes| + 1
  {
    exists j :: 1 <= j < algorithmCount - 1 && !AddCasts(dtypes[0], dtypes[j])
  }

  /** Every algorithm's list holds one score per shown feature. */
  predicate SameWidth(rows: seq<seq<real>>, width: nat)
  {
    forall k :: 0 <= k < |rows| ==> |rows[k]| == width
  }

  /** The top of algorithm i's bar: the scores of algorithms 0..i added up feature by feature. */
  function Top(rows: seq<seq<real>>, width: nat, i: nat): seq<real>
    requires SameWidth(rows, width) && i < |rows|
  {
    ColumnSums(rows[..i + 1], width)
  }

  /** `bottom += np.array(row)`: the running total updated in place. */
  method AddInto(bottom: array<real>, row: seq<real>)
    requires bottom.Length == |row|
    modifies bottom
    ensures bottom[..] == Add(old(bottom[..]), row)
  {
    for c := 0 to bottom.Length
      invariant forall k :: 0 <= k < c ==> bottom[k] == old(bottom[k]) + row[k]
      invariant forall k :: c <= k < bottom.Length ==> bottom[k] == old(bottom[k])
    {
      bottom[c] := bottom[c] + row[c];
    }
  }

  /**
   * The `bottoms` loop of `composite_FI_plot`: for every algorithm after the
   * first, a fresh array starts as the first algorithm's scores and the
   * scores of the next ones are added into it; entry i is the base on which
   * algorithm i + 1 is drawn, the top of algorithm i's bar. `dtypes[j]` is
   * the element type of algorithm j's array; None is numpy's casting error.
   */
  method Bottoms(fiList: seq<seq<real>>, dtypes: seq<DType>, algorithmCount: nat, width: nat)
    returns (result: Option<seq<seq<real>>>)
    requires algorithmCount <= |fiList| + 1 && |dtypes| == |fiList|
    requires SameWidth(fiList, width)
    ensures result.None? <==> CastFails(dtypes, algorithmCount)
    ensures result.Some? ==> |result.value| == if algorithmCount == 0 then 0 else algorithmCount - 1
    ensures result.Some? ==> forall i :: 0 <= i < |result.value| ==> result.value[i] == Top(fiList, width, i)
  {
    var bottoms := [];
    var i := 0;
    while i + 1 < algorithmCount
      invariant i == |bottoms|
      invariant i == 0 || i < algorithmCount
      invariant forall k :: 0 <= k < i ==> bottoms[k] == Top(fiList, width, k)
      invariant forall k :: 1 <= k < i ==> AddCasts(dtypes[0], dtypes[k])
    {
      var bottom := new real[0];
      for j := 0 to i + 1
        invariant j > 0 ==> bottom.Length == width && bottom[..] == Top(fiList, width, j - 1)
        invariant forall k :: 1 <= k < j ==> AddCasts(dtypes[0], dtypes[k])
        invariant fresh(bottom)
      {
        if j == 0 {
          bottom := new real[width](c requires 0 <= c < width => fiList[0][c]);
          TopOfFirst(fiList, width);
        } else {
          if !AddCasts(dtypes[0], dtypes[j]) {
            return None;
          }
          AddInto(bottom, fiList[j]);
          TopStep(fiList, width, j - 1);
        }
      }
      bottoms := bottoms + [bottom[..]];
      i := i + 1;
    }
    return Some(bottoms);
  }

  /** The example of a first row shown as integer zeros under two float rows: the loop raises. */
  lemma IntegerFirstRowFails()
    ensures CastFails([Int64, Float64, Float64], 3)
  {
    assert !AddCasts([Int64, Float64, Float64][0], [Int64, Float64, Float64][1]);
  }

  /** A float first row, or at most two algorithms, never raises. */
  lemma FloatFirstRowNeverFails(dtypes: seq<DType>, algorithmCount: nat)
    requires algorithmCount <= |dtypes| + 1
    requires algorithmCount <= 2 || (0 < |dtypes| && dtypes[0] == Float64)
    ensures !CastFails(dtypes, algorithmCount)
  {
  }

  /** The first algorithm's bar starts at zero, so its top is its own scores. */
  lemma TopOfFirst(rows: seq<seq<real>>, width: nat)
    requires SameWidth(rows, width) && 0 < |rows|
    ensures Top(rows, width, 0) == rows[0]
  {
    forall c | 0 <= c < width
      ensures Top(rows, width, 0)[c] == rows[0][c]
    {
      assert rows[..1][..0] == [];
      assert ColumnSum(rows[..1], c) == ColumnSum(rows[..1][..0], c) + rows[..1][0][c];
    }
  }

  /** Bars are contiguous: each algorithm's bar ends where the next one's begins plus its own height. */
  lemma TopStep(rows: seq<seq<real>>, width: nat, i: nat)
    requires SameWidth(rows, width) && i + 1 < |rows|
    ensures Top(rows, width, i + 1) == Add(Top(rows, width, i), rows[i + 1])
  {
    forall c | 0 <= c < width
      ensures Top(rows, width, i + 1)[c] == Top(rows, width, i)[c] + rows[i + 1][c]
    {
      assert rows[..i + 2][..i + 1] == rows[..i + 1];
    }
  }

  /** With nonnegative scores, every bar starts no lower than the one beneath it. */
  lemma TopsRise(rows: seq<seq<real>>, width: nat, i: nat)
    requires SameWidth(rows, width) && i + 1 < |rows|
    requires forall k, c :: 0 <= k < |rows| && 0 <= c < width ==> 0.0 <= rows[k][c]
    ensures forall c :: 0 <= c < width ==> Top(rows, width, i)[c] <= Top(rows, width, i + 1)[c]
  {
    TopStep(rows, width, i);
  }

  /** The top of the last bar is the total over all algorithms, the height by which features are ranked. */
  lemma LastTopIsTotal(rows: seq<seq<real>>, width: nat)
    requires SameWidth(rows, width) && 0 < |rows|
    ensures Top(rows, width, |rows| - 1) == ColumnSums(rows, width)
  {
    assert rows[..|rows|] == rows;
  }
}
