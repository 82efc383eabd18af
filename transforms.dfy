/**
 * The three transformations of the shown importances that feed the
 * composite plots: fractionation (each algorithm's scores rescaled to sum
 * to one), performance weighting (each algorithm's scores multiplied by its
 * chance-corrected balanced accuracy) and the two combined.
 */
module Transforms {
  import opened Vectors
  import TopSelection

  /** One algorithm's scores as fractions of their total, or all zeros when the total is zero. */
  function FracRow(row: seq<real>): seq<real>
  {
    seq(|row|, i requires 0 <= i < |row| => if Sum(row) == 0.0 then 0.0 else row[i] / Sum(row))
  }

  /** `fracFI` over every algorithm. */
  function FracAll(rows: seq<seq<real>>): seq<seq<real>>
  {
    seq(|rows|, a requires 0 <= a < |rows| => FracRow(rows[a]))
  }

  /** `fracFI`: the two nested loops appending one fraction at a time. */
  method FracFI(rows: seq<seq<real>>) returns (fracs: seq<seq<real>>)
    ensures fracs == FracAll(rows)
  {
    fracs := [];
    for a := 0 to |rows|
      invariant |fracs| == a
      invariant forall k :: 0 <= k < a ==> fracs[k] == FracRow(rows[k])
    {
      var each := rows[a];
      var fracList := [];
      for i := 0 to |each|
        invariant fracList == FracRow(each)[..i]
      {
        if Sum(each) == 0.0 {
          fracList := fracList + [0.0];
        } else {
          fracList := fracList + [each[i] / Sum(each)];
        }
      }
      assert fracList == FracRow(each);
      fracs := fracs + [fracList];
    }
  }

  /** A row with a nonzero total is rescaled by the reciprocal of that total. */
  lemma FracRowIsScale(row: seq<real>)
    requires Sum(row) != 0.0
    ensures FracRow(row) == Scale(1.0 / Sum(row), row)
  {
    forall i | 0 <= i < |row|
      ensures FracRow(row)[i] == Scale(1.0 / Sum(row), row)[i]
    {
      DivIsReciprocal(row[i], Sum(row));
    }
  }

  lemma DivIsReciprocal(x: real, d: real)
    requires d != 0.0
    ensures x / d == (1.0 / d) * x
  {
  }

  /** Fractionation gives every algorithm the same total bar area: its fractions sum to one. */
  lemma FracRowSumsToOne(row: seq<real>)
    requires Sum(row) != 0.0
    ensures Sum(FracRow(row)) == 1.0
  {
    FracRowIsScale(row);
    SumScale(1.0 / Sum(row), row);
  }

  /** An algorithm whose scores total zero contributes only zero bars. */
  lemma FracRowOfZeroTotal(row: seq<real>)
    requires Sum(row) == 0.0
    ensures FracRow(row) == seq(|row|, i => 0.0)
  {
  }

  /** The sum of nonnegative scores bounds each of them. */
  lemma {:induction false} EntryAtMostSum(row: seq<real>, i: nat)
    requires forall k :: 0 <= k < |row| ==> 0.0 <= row[k]
    requires i < |row|
    ensures 0.0 <= row[i] <= Sum(row)
  {
    if i == 0 {
      assert forall k :: 0 <= k < |row[1..]| ==> 0.0 <= row[1..][k];
      SumNonNegative(row[1..]);
    } else {
      assert row[1..][i - 1] == row[i];
      EntryAtMostSum(row[1..], i - 1);
    }
  }

  lemma {:induction false} SumNonNegative(row: seq<real>)
    requires forall k :: 0 <= k < |row| ==> 0.0 <= row[k]
    ensures 0.0 <= Sum(row)
  {
    if |row| > 0 {
      assert forall k :: 0 <= k < |row[1..]| ==> 0.0 <= row[1..][k];
      SumNonNegative(row[1..]);
    }
  }

  lemma FractionInUnitRange(x: real, total: real)
    requires 0.0 <= x <= total && total != 0.0
    ensures 0.0 <= x / total <= 1.0
  {
  }

  /** Fractions of nonnegative (normalised) scores lie in [0, 1]. */
  lemma FracRowInUnitRange(row: seq<real>)
    requires forall k :: 0 <= k < |row| ==> 0.0 <= row[k]
    ensures forall i :: 0 <= i < |row| ==> 0.0 <= FracRow(row)[i] <= 1.0
  {
    forall i | 0 <= i < |row|
      ensures 0.0 <= FracRow(row)[i] <= 1.0
    {
      EntryAtMostSum(row, i);
      if Sum(row) != 0.0 {
        FractionInUnitRange(row[i], Sum(row));
      }
    }
  }

  /** Fractionation ignores a positive rescaling of an algorithm's scores. */
  lemma FracRowScaleInvariant(w: real, row: seq<real>)
    requires 0.0 < w
    ensures FracRow(Scale(w, row)) == FracRow(row)
  {
    forall i | 0 <= i < |row|
      ensures FracRow(Scale(w, row))[i] == FracRow(row)[i]
    {
      FracEntryScaleInvariant(w, row, i);
    }
  }

  lemma FracEntryScaleInvariant(w: real, row: seq<real>, i: nat)
    requires 0.0 < w && i < |row|
    ensures FracRow(Scale(w, row))[i] == FracRow(row)[i]
  {
    var scaled := Scale(w, row);
    SumScale(w, row);
    CancelFactor(w, row[i], Sum(row), scaled[i], Sum(scaled));
  }

  /** The fraction x / d, or 0 when d is 0, is unchanged when both are multiplied by w > 0. */
  lemma CancelFactor(w: real, x: real, d: real, wx: real, wd: real)
    requires 0.0 < w && wx == w * x && wd == w * d
    ensures (if wd == 0.0 then 0.0 else wx / wd) == (if d == 0.0 then 0.0 else x / d)
  {
  }

  /**
   * `weightFI`: every accuracy at or below chance is overwritten with 0 in
   * the caller's list, each algorithm gets the chance-corrected weight of
   * its accuracy, and its scores are multiplied by that weight.
   */
  method WeightFI(aveMetrics: array<real>, rows: seq<seq<real>>) returns (weighted: seq<seq<real>>, weights: seq<real>)
    requires |rows| <= aveMetrics.Length
    modifies aveMetrics
    ensures forall i :: 0 <= i < aveMetrics.Length ==>
      aveMetrics[i] == (if old(aveMetrics[i]) <= 0.5 then 0.0 else old(aveMetrics[i]))
    ensures |weights| == aveMetrics.Length
    ensures forall i :: 0 <= i < |weights| ==> weights[i] == TopSelection.Weight(old(aveMetrics[i]))
    ensures |weighted| == |rows|
    ensures forall a :: 0 <= a < |rows| ==> weighted[a] == Scale(weights[a], rows[a])
  {
    for i := 0 to aveMetrics.Length
      invariant forall k :: 0 <= k < i ==>
        aveMetrics[k] == (if old(aveMetrics[k]) <= 0.5 then 0.0 else old(aveMetrics[k]))
      invariant forall k :: i <= k < aveMetrics.Length ==> aveMetrics[k] == old(aveMetrics[k])
    {
      if aveMetrics[i] <= 0.5 {
        aveMetrics[i] := 0.0;
      }
    }
    weights := [];
    for i := 0 to aveMetrics.Length
      invariant |weights| == i
      invariant forall k :: 0 <= k < i ==> weights[k] == TopSelection.Weight(old(aveMetrics[k]))
    {
      if aveMetrics[i] == 0.0 {
        weights := weights + [0.0];
      } else {
        weights := weights + [(aveMetrics[i] - 0.5) / 0.5];
      }
    }
    weighted := [];
    for a := 0 to |rows|
      invariant |weighted| == a
      invariant forall k :: 0 <= k < a ==> weighted[k] == Scale(weights[k], rows[k])
    {
      weighted := weighted + [Scale(weights[a], rows[a])];
    }
  }

  /** `weightFracFI`: each algorithm's fractions multiplied by its weight. */
  method WeightFracFI(fracs: seq<seq<real>>, weights: seq<real>) returns (weighted: seq<seq<real>>)
    requires |fracs| <= |weights|
    ensures |weighted| == |fracs|
    ensures forall a :: 0 <= a < |fracs| ==> weighted[a] == Scale(weights[a], fracs[a])
  {
    weighted := [];
    for a := 0 to |fracs|
      invariant |weighted| == a
      invariant forall k :: 0 <= k < a ==> weighted[k] == Scale(weights[k], fracs[k])
    {
      weighted := weighted + [Scale(weights[a], fracs[a])];
    }
  }

  /** An algorithm no better than chance contributes nothing to the weighted plots. */
  lemma BelowChanceVanishes(metric: real, row: seq<real>)
    requires metric <= 0.5
    ensures Scale(TopSelection.Weight(metric), row) == seq(|row|, i => 0.0)
  {
  }

  /** A perfect algorithm's scores are shown unchanged. */
  lemma PerfectUnchanged(row: seq<real>)
    ensures Scale(TopSelection.Weight(1.0), row) == row
  {
  }

  /**
   * In the fractionated and weighted plot, an algorithm's total bar area is
   * its weight (or zero when its scores total zero).
   */
  lemma WeightedFracArea(metric: real, row: seq<real>)
    ensures Sum(Scale(TopSelection.Weight(metric), FracRow(row)))
      == (if Sum(row) == 0.0 then 0.0 else TopSelection.Weight(metric))
  {
    SumScale(TopSelection.Weight(metric), FracRow(row));
    if Sum(row) == 0.0 {
      FracRowOfZeroTotal(row);
      SumOfZeros(FracRow(row));
    } else {
      FracRowSumsToOne(row);
    }
  }

  /**
   * Two algorithms at 0.9 and 0.4 balanced accuracy: the second is reset to 0
   * in the caller's list, the weights are 0.8 and 0, and the first
   * algorithm's scores are scaled by 0.8.
   */
  method WeightsExample() returns (metrics: seq<real>, weights: seq<real>, weighted: seq<seq<real>>)
    ensures metrics == [0.9, 0.0] && weights == [0.8, 0.0]
    ensures weighted == [[0.8, 0.4], [0.0, 0.0]]
  {
    var aveMetrics := new real[2];
    aveMetrics[0], aveMetrics[1] := 0.9, 0.4;
    weighted, weights := WeightFI(aveMetrics, [[1.0, 0.5], [1.0, 0.25]]);
    metrics := aveMetrics[..];
    assert weighted[0] == Scale(0.8, [1.0, 0.5]) == [0.8, 0.4];
    assert weighted[1] == Scale(0.0, [1.0, 0.25]) == [0.0, 0.0];
  }
}
