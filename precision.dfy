/**
 * The per-fold "aggregate average precision" computed from a fold's
 * confusion matrix (rows are true classes, columns predicted classes).
 * As written, every class's diagonal count is divided by one shared
 * denominator: the sum of column 0, not the per-class total.
 */
module AveragePrecision {

  /** What the two divisions produce: a number, a non-finite numpy value, or Python's ZeroDivisionError. */
  datatype Quotient = Value(value: real) | NonFinite | ZeroDivision

  /** Row k reaches column k (and so column 0): every entry the loops read exists. */
  predicate Indexable(conf: seq<seq<int>>)
  {
    forall k :: 0 <= k < |conf| ==> k < |conf[k]|
  }

  /** conf[0][0] + ... + conf[n-1][0]: the job's "total number of labeled instances". */
  function FirstColumnSum(conf: seq<seq<int>>, n: nat): int
    requires n <= |conf| && Indexable(conf)
  {
    if n == 0 then 0 else FirstColumnSum(conf, n - 1) + conf[n - 1][0]
  }

  /** conf[0][0] + ... + conf[n-1][n-1]: the correctly classified instances of the first n classes. */
  function DiagonalSum(conf: seq<seq<int>>, n: nat): int
    requires n <= |conf| && Indexable(conf)
  {
    if n == 0 then 0 else DiagonalSum(conf, n - 1) + conf[n - 1][n - 1]
  }

  /**
   * The value the job records: (sum of the diagonal / sum of column 0) / number
   * of classes. An empty matrix divides 0 by 0 in plain Python (raises); a
   * zero first column makes numpy's divisions non-finite.
   */
  function AggregatePrecision(conf: seq<seq<int>>): Quotient
    requires Indexable(conf)
  {
    if |conf| == 0 then ZeroDivision
    else if FirstColumnSum(conf, |conf|) == 0 then NonFinite
    else Value((DiagonalSum(conf, |conf|) as real / FirstColumnSum(conf, |conf|) as real) / (|conf| as real))
  }

  lemma SumOfQuotients(a: real, b: real, n: real)
    requires n != 0.0
    ensures a / n + b / n == (a + b) / n
  {
  }

  /** The two loops of the job: total the first column, then add up each class's share of it. */
  method ComputeAggregatePrecision(conf: seq<seq<int>>) returns (r: Quotient)
    requires Indexable(conf)
    ensures r == AggregatePrecision(conf)
  {
    var numLabeled := 0;
    for classNum := 0 to |conf|
      invariant numLabeled == FirstColumnSum(conf, classNum)
    {
      numLabeled := numLabeled + conf[classNum][0];
    }
    if |conf| == 0 {
      return ZeroDivision;
    }
    if numLabeled == 0 {
      return NonFinite;
    }
    var aggAvgPrec: real := 0.0;
    for classNum := 0 to |conf|
      invariant aggAvgPrec == DiagonalSum(conf, classNum) as real / numLabeled as real
    {
      SumOfQuotients(DiagonalSum(conf, classNum) as real, conf[classNum][classNum] as real, numLabeled as real);
      aggAvgPrec := aggAvgPrec + conf[classNum][classNum] as real / numLabeled as real;
    }
    r := Value(aggAvgPrec / (|conf| as real));
  }

  /**
   * The shared denominator lets the "precision" leave [0, 1]: a two-class
   * matrix with one true first-class instance and nine correct second-class
   * instances scores 5.
   */
  lemma AggregatePrecisionCanExceedOne()
    ensures AggregatePrecision([[1, 0], [0, 9]]) == Value(5.0)
  {
    var conf := [[1, 0], [0, 9]];
    assert FirstColumnSum(conf, 2) == 1;
    assert DiagonalSum(conf, 2) == 10;
  }

  // The per-class reading: class c's precision is conf[c][c] over the sum of column c.

  /** A square matrix of counts. */
  predicate Square(conf: seq<seq<int>>)
  {
    forall k :: 0 <= k < |conf| ==> |conf[k]| == |conf|
  }

  predicate NonNegative(conf: seq<seq<int>>)
  {
    forall k, c :: 0 <= k < |conf| && 0 <= c < |conf[k]| ==> 0 <= conf[k][c]
  }

  /** conf[0][c] + ... + conf[n-1][c]: the instances predicted as class c among the first n true classes. */
  function ColumnTotal(conf: seq<seq<int>>, c: nat, n: nat): int
    requires Square(conf) && c < |conf| && n <= |conf|
  {
    if n == 0 then 0 else ColumnTotal(conf, c, n - 1) + conf[n - 1][c]
  }

  /** Sum of the per-class precisions of the first n classes. */
  function PrecisionSum(conf: seq<seq<int>>, n: nat): real
    requires Square(conf) && n <= |conf|
    requires forall c :: 0 <= c < |conf| ==> ColumnTotal(conf, c, |conf|) != 0
  {
    if n == 0 then 0.0
    else PrecisionSum(conf, n - 1) + conf[n - 1][n - 1] as real / ColumnTotal(conf, n - 1, |conf|) as real
  }

  /** Macro-averaged precision: the mean over classes of conf[c][c] / (sum of column c). */
  function MacroPrecision(conf: seq<seq<int>>): Quotient
    requires Square(conf)
  {
    if |conf| == 0 then ZeroDivision
    else if exists c :: 0 <= c < |conf| && ColumnTotal(conf, c, |conf|) == 0 then NonFinite
    else Value(PrecisionSum(conf, |conf|) / (|conf| as real))
  }

  /** In a matrix of counts a diagonal entry never exceeds its column's total. */
  lemma {:induction false} DiagonalWithinColumn(conf: seq<seq<int>>, c: nat, n: nat)
    requires Square(conf) && NonNegative(conf) && c < |conf| && n <= |conf|
    ensures 0 <= ColumnTotal(conf, c, n)
    ensures c < n ==> conf[c][c] <= ColumnTotal(conf, c, n)
  {
    if n > 0 {
      DiagonalWithinColumn(conf, c, n - 1);
      assert 0 <= conf[n - 1][c];
    }
  }

  lemma {:induction false} PrecisionSumBounds(conf: seq<seq<int>>, n: nat)
    requires Square(conf) && NonNegative(conf) && n <= |conf|
    requires forall c :: 0 <= c < |conf| ==> ColumnTotal(conf, c, |conf|) != 0
    ensures 0.0 <= PrecisionSum(conf, n) <= n as real
  {
    if n > 0 {
      PrecisionSumBounds(conf, n - 1);
      var c := n - 1;
      DiagonalWithinColumn(conf, c, |conf|);
      assert 0 <= conf[c][c];
      var q := conf[c][c] as real / ColumnTotal(conf, c, |conf|) as real;
      assert 0.0 <= q <= 1.0;
    }
  }

  /** Macro-averaged precision of a matrix of counts is a proportion. */
  lemma MacroPrecisionInUnitRange(conf: seq<seq<int>>)
    requires Square(conf) && NonNegative(conf)
    ensures MacroPrecision(conf).Value? ==> 0.0 <= MacroPrecision(conf).value <= 1.0
  {
    if MacroPrecision(conf).Value? {
      PrecisionSumBounds(conf, |conf|);
      var n := |conf| as real;
      var p := PrecisionSum(conf, |conf|);
      assert MacroPrecision(conf).value == p / n;
      assert p / n <= 1.0 by {
        assert p <= n;
        assert p / n <= n / n;
      }
    }
  }
}
