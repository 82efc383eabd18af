/**
 * Per-fold feature-importance reconciliation. Each cross-validation fold
 * reports importances in the order of the features that survived feature
 * selection in that fold; the job maps every fold's vector back onto the fixed
 * original feature list, writing 0 for features the fold dropped, keeps the
 * reconciled rows (FI_all) and accumulates their column sums (FI_ave).
 */
module Reconciliation {
  import opened Wrappers
  import opened Vectors

  /** The list with the entry at the first position of x cut out; the other entries keep their order. */
  function Without(s: seq<string>, x: string): seq<string>
    requires x in s
  {
    s[..IndexOf(s, x)] + s[IndexOf(s, x) + 1..]
  }

  /** `list.remove(x)`: drops the first occurrence of x; None is the ValueError raised when x is absent. */
  function RemoveFirst(s: seq<string>, x: string): (r: Option<seq<string>>)
    ensures r.Some? <==> x in s
    ensures r.Some? ==> |r.value| == |s| - 1
    ensures r.Some? ==> forall y :: y in r.value ==> y in s
    ensures r.Some? ==> forall y :: y in s && y != x ==> y in r.value
  {
    if |s| == 0 then None
    else if s[0] == x then Some(s[1..])
    else
      match RemoveFirst(s[1..], x)
      case None => None
      case Some(t) => Some([s[0]] + t)
  }

  /** `list.remove` cuts out exactly the first occurrence and keeps the rest in order. */
  lemma {:induction false} RemoveFirstIsWithout(s: seq<string>, x: string)
    requires x in s
    ensures RemoveFirst(s, x) == Some(Without(s, x))
  {
    if s[0] == x {
      assert s[..0] + s[1..] == s[1..];
    } else {
      RemoveFirstIsWithout(s[1..], x);
      WithoutCons(s, x);
    }
  }

  /** Past a different head, the cut happens in the tail. */
  lemma WithoutCons(s: seq<string>, x: string)
    requires x in s && s[0] != x
    ensures Without(s, x) == [s[0]] + Without(s[1..], x)
  {
    var i := IndexOf(s[1..], x);
    assert IndexOf(s, x) == i + 1;
    assert s[..i + 1] == [s[0]] + s[1..][..i];
    assert s[i + 2..] == s[1..][i + 1..];
  }

  /**
   * The fold's test-set header with the instance-ID column (unless it is
   * named "None") and the class column removed.
   */
  function StripLabels(headers: seq<string>, instanceLabel: string, classLabel: string): (r: Option<seq<string>>)
    ensures instanceLabel != "None" && instanceLabel !in headers ==> r.None?
    ensures classLabel !in headers ==> r.None?
    ensures ((instanceLabel == "None" || instanceLabel in headers) && classLabel in headers
             && classLabel != instanceLabel) ==> r.Some?
    ensures r.Some? ==> |r.value| == |headers| - (if instanceLabel == "None" then 1 else 2)
    ensures r.Some? ==> forall f :: f in r.value ==> f in headers
    ensures r.Some? ==> forall f :: f in headers && f != instanceLabel && f != classLabel ==> f in r.value
  {
    var withoutInstance := if instanceLabel != "None" then RemoveFirst(headers, instanceLabel) else Some(headers);
    if withoutInstance.None? then None else RemoveFirst(withoutInstance.value, classLabel)
  }

  /**
   * A stripped header is the fold's header with the first instance-ID entry
   * (unless the label is "None") and then the first class entry cut out, the
   * remaining columns in their original order.
   */
  lemma StripLabelsKeepsOrder(headers: seq<string>, instanceLabel: string, classLabel: string)
    requires instanceLabel == "None" || instanceLabel in headers
    requires classLabel in (if instanceLabel == "None" then headers else Without(headers, instanceLabel))
    ensures StripLabels(headers, instanceLabel, classLabel)
      == Some(Without(if instanceLabel == "None" then headers else Without(headers, instanceLabel), classLabel))
  {
    if instanceLabel != "None" {
      RemoveFirstIsWithout(headers, instanceLabel);
    }
    RemoveFirstIsWithout(if instanceLabel == "None" then headers else Without(headers, instanceLabel), classLabel);
  }

  /**
   * The reconciled row of one fold: entry j is the fold's importance of the
   * j-th original feature, looked up by name at its first position in the
   * fold's header, or 0 when the fold does not have that feature.
   */
  function ReconciledRow(original: seq<string>, headers: seq<string>, fi: seq<real>): seq<real>
    requires |headers| <= |fi|
  {
    seq(|original|, j requires 0 <= j < |original| =>
      if original[j] in headers then fi[IndexOf(headers, original[j])] else 0.0)
  }

  /** A fold that kept every original feature in the original order yields its own vector. */
  lemma ReconcileIdentity(original: seq<string>, fi: seq<real>)
    requires Distinct(original) && |fi| == |original|
    ensures ReconciledRow(original, original, fi) == fi
  {
    forall j | 0 <= j < |original|
      ensures ReconciledRow(original, original, fi)[j] == fi[j]
    {
      IndexOfDistinct(original, j);
    }
  }

  /**
   * Read from the fold's side: the importance the fold gives the feature at
   * header position p lands in that feature's original slot.
   */
  lemma ReconcileByName(original: seq<string>, headers: seq<string>, fi: seq<real>, p: nat)
    requires |headers| <= |fi| && Distinct(headers)
    requires p < |headers| && headers[p] in original
    ensures IndexOf(original, headers[p]) < |ReconciledRow(original, headers, fi)|
    ensures ReconciledRow(original, headers, fi)[IndexOf(original, headers[p])] == fi[p]
  {
    IndexOfDistinct(headers, p);
  }

  /**
   * One algorithm's reconciliation state across folds: `folds` is FI_all (one
   * reconciled row per fold processed so far) and `sums` is FI_ave, which
   * holds column sums until `Average` divides it by the number of folds.
   */
  class AlgorithmImportances {
    const original: seq<string>
    var folds: seq<seq<real>>
    const sums: array<real>

    ghost predicate Valid()
      reads this, sums
    {
      && sums.Length == |original|
      && Wide(folds, |original|)
      && (forall k :: 0 <= k < |folds| ==> |folds[k]| == |original|)
      && sums[..] == ColumnSums(folds, |original|)
    }

    constructor (originalHeaders: seq<string>)
      ensures Valid() && fresh(sums)
      ensures original == originalHeaders && folds == []
      ensures sums[..] == seq(|originalHeaders|, _ => 0.0)
    {
      original := originalHeaders;
      folds := [];
      sums := new real[|originalHeaders|](_ => 0.0);
    }

    /**
     * Reconciles one fold (its header already stripped of the label columns)
     * and adds it to FI_all and to the running sums.
     */
    method AddFold(headers: seq<string>, fi: seq<real>)
      requires Valid() && |headers| <= |fi|
      modifies this, sums
      ensures Valid()
      ensures folds == old(folds) + [ReconciledRow(original, headers, fi)]
    {
      ghost var row := ReconciledRow(original, headers, fi);
      var tempList: seq<real> := [];
      var j := 0;
      while j < |original|
        invariant 0 <= j <= |original|
        invariant tempList == row[..j]
        invariant folds == old(folds)
        invariant Wide(folds, |original|) && forall k :: 0 <= k < |folds| ==> |folds[k]| == |original|
        invariant forall k :: 0 <= k < |original| ==>
          sums[k] == old(sums[k]) + (if k < j then row[k] else 0.0)
      {
        var each := original[j];
        if each in headers {
          var fIndex := IndexOf(headers, each);
          sums[j] := sums[j] + fi[fIndex];
          tempList := tempList + [fi[fIndex]];
        } else {
          tempList := tempList + [0.0];
        }
        j := j + 1;
      }
      ghost var before := folds;
      folds := folds + [tempList];
      assert tempList == row;
      assert folds[..|folds| - 1] == before;
      forall k | 0 <= k < |original|
        ensures sums[k] == ColumnSum(folds, k)
      {
        assert old(sums[k]) == ColumnSum(before, k);
      }
    }

    /** Turns the sums into averages over `cvPartitions` folds (a float division by zero raises). */
    method Average(cvPartitions: nat)
      requires sums.Length == |original|
      requires cvPartitions > 0 || sums.Length == 0
      modifies sums
      ensures forall i :: 0 <= i < sums.Length ==> sums[i] == old(sums[i]) / (cvPartitions as real)
      ensures old(Valid()) && |folds| > 0 && cvPartitions == |folds| ==> sums[..] == ColumnMean(folds, |original|)
    {
      var i := 0;
      while i < sums.Length
        invariant 0 <= i <= sums.Length
        invariant forall k :: 0 <= k < sums.Length ==>
          sums[k] == if k < i then old(sums[k]) / (cvPartitions as real) else old(sums[k])
      {
        sums[i] := sums[i] / (cvPartitions as real);
        i := i + 1;
      }
    }
  }

  /** Both results of reconciling all folds of one algorithm: FI_all and the averaged FI_ave. */
  datatype FoldImportances = FoldImportances(perFold: seq<seq<real>>, average: seq<real>)

  /**
   * The fold loop for one algorithm: strip every fold's header, reconcile its
   * vector, and average. A fold whose header lacks a label column raises: None.
   */
  method ReconcileFolds(original: seq<string>, foldHeaders: seq<seq<string>>, foldFI: seq<seq<real>>,
                        instanceLabel: string, classLabel: string)
    returns (r: Option<FoldImportances>)
    requires |foldHeaders| == |foldFI| > 0
    requires forall k :: 0 <= k < |foldHeaders| && StripLabels(foldHeaders[k], instanceLabel, classLabel).Some? ==>
      |StripLabels(foldHeaders[k], instanceLabel, classLabel).value| <= |foldFI[k]|
    ensures r.None? <==> exists k :: 0 <= k < |foldHeaders| && StripLabels(foldHeaders[k], instanceLabel, classLabel).None?
    ensures r.Some? ==> |r.value.perFold| == |foldHeaders|
    ensures r.Some? ==> forall k :: 0 <= k < |foldHeaders| ==>
      r.value.perFold[k] == ReconciledRow(original, StripLabels(foldHeaders[k], instanceLabel, classLabel).value, foldFI[k])
    ensures r.Some? ==> Wide(r.value.perFold, |original|) && r.value.average == ColumnMean(r.value.perFold, |original|)
  {
    var acc := new AlgorithmImportances(original);
    var cvCount := 0;
    while cvCount < |foldHeaders|
      invariant 0 <= cvCount <= |foldHeaders|
      invariant acc.Valid() && acc.original == original && |acc.folds| == cvCount
      invariant forall k :: 0 <= k < cvCount ==> StripLabels(foldHeaders[k], instanceLabel, classLabel).Some?
      invariant forall k :: 0 <= k < cvCount ==>
        acc.folds[k] == ReconciledRow(original, StripLabels(foldHeaders[k], instanceLabel, classLabel).value, foldFI[k])
      modifies acc, acc.sums
    {
      var headers := StripLabels(foldHeaders[cvCount], instanceLabel, classLabel);
      if headers.None? {
        return None;
      }
      acc.AddFold(headers.value, foldFI[cvCount]);
      cvCount := cvCount + 1;
    }
    acc.Average(|foldHeaders|);
    r := Some(FoldImportances(acc.folds, acc.sums[..]));
  }

  /**
   * A feature that no fold's header contains is 0 in every reconciled row, so
   * its average over the folds is 0.
   */
  lemma AbsentFeatureAveragesZero(original: seq<string>, headers: seq<seq<string>>, fis: seq<seq<real>>,
                                  rows: seq<seq<real>>, j: nat)
    requires |headers| == |fis| == |rows| > 0 && j < |original|
    requires forall k :: 0 <= k < |rows| ==> |headers[k]| <= |fis[k]| && rows[k] == ReconciledRow(original, headers[k], fis[k])
    requires forall k :: 0 <= k < |headers| ==> original[j] !in headers[k]
    ensures Wide(rows, |original|) && ColumnMean(rows, |original|)[j] == 0.0
  {
    ColumnSumOfZeros(rows, j);
  }

  /**
   * Three folds over the features f1, f2, f3 that keep different subsets:
   * the reconciled rows and their column mean.
   */
  lemma ThreeFoldExample()
    ensures var original := ["f1", "f2", "f3"];
      var rows := [ReconciledRow(original, ["f1", "f3"], [0.2, 0.4]),
                   ReconciledRow(original, ["f1", "f2", "f3"], [0.1, 0.0, 0.5]),
                   ReconciledRow(original, ["f1", "f2"], [0.3, 0.2])];
      && rows == [[0.2, 0.0, 0.4], [0.1, 0.0, 0.5], [0.3, 0.2, 0.0]]
      && ColumnMean(rows, 3) == [0.2, 0.2 / 3.0, 0.3]
  {
    var original := ["f1", "f2", "f3"];
    assert ReconciledRow(original, ["f1", "f3"], [0.2, 0.4]) == [0.2, 0.0, 0.4] by {
      assert "f2" !in ["f1", "f3"];
      assert IndexOf(["f1", "f3"], "f3") == 1;
    }
    assert ReconciledRow(original, ["f1", "f2", "f3"], [0.1, 0.0, 0.5]) == [0.1, 0.0, 0.5] by {
      assert IndexOf(["f1", "f2", "f3"], "f2") == 1;
      assert IndexOf(["f1", "f2", "f3"], "f3") == 2;
    }
    assert ReconciledRow(original, ["f1", "f2"], [0.3, 0.2]) == [0.3, 0.2, 0.0] by {
      assert "f3" !in ["f1", "f2"];
      assert IndexOf(["f1", "f2"], "f2") == 1;
    }
    ThreeFoldMean();
  }

  /** The mean over the three reconciled folds of the example above. */
  lemma ThreeFoldMean()
    ensures ColumnMean([[0.2, 0.0, 0.4], [0.1, 0.0, 0.5], [0.3, 0.2, 0.0]], 3) == [0.2, 0.2 / 3.0, 0.3]
  {
    var rows := [[0.2, 0.0, 0.4], [0.1, 0.0, 0.5], [0.3, 0.2, 0.0]];
    var one := [[0.2, 0.0, 0.4]];
    var two := [[0.2, 0.0, 0.4], [0.1, 0.0, 0.5]];
    assert one[..0] == [];
    assert two[..1] == one;
    assert rows[..2] == two;
    forall j | 0 <= j < 3
      ensures ColumnSum(rows, j) == rows[0][j] + rows[1][j] + rows[2][j]
    {
      assert ColumnSum(one, j) == rows[0][j];
      assert ColumnSum(two, j) == rows[0][j] + rows[1][j];
    }
  }
}
