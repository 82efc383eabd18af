/**
 * Real-valued vectors and tables as the statistics job holds them: Python
 * lists of scores, and pandas frames whose rows are folds or algorithms.
 */
module Vectors {

  /** Python's built-in `sum`. */
  function Sum(s: seq<real>): real
  {
    if |s| == 0 then 0.0 else s[0] + Sum(s[1..])
  }

  /** `np.multiply(c, s)`: every entry scaled by the same factor. */
  function Scale(c: real, s: seq<real>): seq<real>
  {
    seq(|s|, i requires 0 <= i < |s| => c * s[i])
  }

  /** Element-wise `a + b` of two numpy arrays of the same length. */
  function Add(a: seq<real>, b: seq<real>): seq<real>
    requires |a| == |b|
  {
    seq(|a|, i requires 0 <= i < |a| => a[i] + b[i])
  }

  /** Python's built-in `max` of a non-empty list. */
  function Max(s: seq<real>): (m: real)
    requires |s| > 0
    ensures m in s
    ensures forall i :: 0 <= i < |s| ==> s[i] <= m
  {
    if |s| == 1 then s[0]
    else
      var rest := Max(s[1..]);
      if s[0] >= rest then s[0] else rest
  }

  /** `list.index(x)`: the position of the first occurrence of x. */
  function IndexOf<T(==)>(s: seq<T>, x: T): (i: nat)
    requires x in s
    ensures i < |s| && s[i] == x
    ensures forall k :: 0 <= k < i ==> s[k] != x
  {
    if s[0] == x then 0 else 1 + IndexOf(s[1..], x)
  }

  predicate Distinct<T(==)>(s: seq<T>)
  {
    forall i, j :: 0 <= i < j < |s| ==> s[i] != s[j]
  }

  /** In a list without repetitions, `index` inverts indexing. */
  lemma IndexOfDistinct<T>(s: seq<T>, k: nat)
    requires Distinct(s) && k < |s|
    ensures IndexOf(s, s[k]) == k
  {
  }

  /** Every row of the table has at least `width` columns. */
  predicate Wide(rows: seq<seq<real>>, width: nat)
  {
    forall k :: 0 <= k < |rows| ==> width <= |rows[k]|
  }

  /** Sum of column j over all rows, accumulated row by row. */
  function ColumnSum(rows: seq<seq<real>>, j: nat): real
    requires forall k :: 0 <= k < |rows| ==> j < |rows[k]|
  {
    if |rows| == 0 then 0.0 else ColumnSum(rows[..|rows| - 1], j) + rows[|rows| - 1][j]
  }

  function ColumnSums(rows: seq<seq<real>>, width: nat): seq<real>
    requires Wide(rows, width)
  {
    seq(width, j requires 0 <= j < width => ColumnSum(rows, j))
  }

  /** `DataFrame.mean()`: the mean of every column over the rows. */
  function ColumnMean(rows: seq<seq<real>>, width: nat): seq<real>
    requires Wide(rows, width) && |rows| > 0
  {
    seq(width, j requires 0 <= j < width => ColumnSum(rows, j) / (|rows| as real))
  }

  /** A column that is 0 in every row sums to 0. */
  lemma {:induction false} ColumnSumOfZeros(rows: seq<seq<real>>, j: nat)
    requires forall k :: 0 <= k < |rows| ==> j < |rows[k]| && rows[k][j] == 0.0
    ensures ColumnSum(rows, j) == 0.0
  {
    if |rows| > 0 {
      ColumnSumOfZeros(rows[..|rows| - 1], j);
    }
  }

  /** A column that is non-negative in every row has a non-negative sum. */
  lemma {:induction false} ColumnSumNonNegative(rows: seq<seq<real>>, j: nat)
    requires forall k :: 0 <= k < |rows| ==> j < |rows[k]| && 0.0 <= rows[k][j]
    ensures 0.0 <= ColumnSum(rows, j)
  {
    if |rows| > 0 {
      ColumnSumNonNegative(rows[..|rows| - 1], j);
    }
  }

  /** Scaling every entry scales the sum. */
  lemma {:induction false} SumScale(c: real, s: seq<real>)
    ensures Sum(Scale(c, s)) == c * Sum(s)
  {
    if |s| > 0 {
      var t := Scale(c, s[1..]);
      assert |t| == |s| - 1;
      forall i | 0 <= i < |s| - 1
        ensures Scale(c, s)[1..][i] == t[i]
      {
        assert t[i] == c * s[1..][i];
      }
      assert Scale(c, s)[1..] == t;
      SumScale(c, s[1..]);
    }
  }

  /** A list of zeros sums to 0. */
  lemma {:induction false} SumOfZeros(s: seq<real>)
    requires forall i :: 0 <= i < |s| ==> s[i] == 0.0
    ensures Sum(s) == 0.0
  {
    if |s| > 0 {
      SumOfZeros(s[1..]);
    }
  }
}
