/**
 * Normalisation of each algorithm's average feature importances: scores at
 * or below 0 count as uninformative and become 0, positive scores are divided
 * by the algorithm's largest average, so every score falls in [0, 1].
 */
module Normalization {
  import opened Vectors

  /** One algorithm's normalised list, built entry by entry in feature order. */
  function Normalize(avg: seq<real>): seq<real>
  {
    seq(|avg|, i requires 0 <= i < |avg| => if avg[i] <= 0.0 then 0.0 else avg[i] / Max(avg))
  }

  predicate HasPositive(s: seq<real>)
  {
    exists i :: 0 <= i < |s| && s[i] > 0.0
  }

  lemma RatioInUnitRange(x: real, m: real)
    requires 0.0 < x <= m
    ensures 0.0 < x / m <= 1.0
  {
    var q := x / m;
    assert q * m == x;
    assert (1.0 - q) * m == m - x;
  }

  /** One entry of the normalised list lies in [0, 1], and is 1 where the score is a positive maximum. */
  lemma NormalizeAt(avg: seq<real>, k: nat)
    requires k < |avg|
    ensures 0.0 <= Normalize(avg)[k] <= 1.0
    ensures avg[k] > 0.0 && avg[k] == Max(avg) ==> Normalize(avg)[k] == 1.0
  {
    if avg[k] > 0.0 {
      var m := Max(avg);
      assert Normalize(avg)[k] == avg[k] / m;
      RatioInUnitRange(avg[k], m);
    }
  }

  /**
   * Length is kept, non-positive scores become 0, positive scores become
   * their ratio to the largest score, and every result lies in [0, 1].
   */
  lemma NormalizeInUnitRange(avg: seq<real>)
    ensures |Normalize(avg)| == |avg|
    ensures forall i :: 0 <= i < |avg| ==> 0.0 <= Normalize(avg)[i] <= 1.0
    ensures forall i :: 0 <= i < |avg| && avg[i] <= 0.0 ==> Normalize(avg)[i] == 0.0
    ensures forall i :: 0 <= i < |avg| && avg[i] > 0.0 ==> Normalize(avg)[i] == avg[i] / Max(avg)
  {
    forall i | 0 <= i < |avg|
      ensures 0.0 <= Normalize(avg)[i] <= 1.0
    {
      NormalizeAt(avg, i);
    }
  }

  /** When some score is positive, the largest scores become exactly 1 and 1 is the new maximum. */
  lemma NormalizeMaxIsOne(avg: seq<real>)
    requires HasPositive(avg)
    ensures forall i :: 0 <= i < |avg| && avg[i] == Max(avg) ==> Normalize(avg)[i] == 1.0
    ensures Max(Normalize(avg)) == 1.0
  {
    var m := Max(avg);
    var n := Normalize(avg);
    var i :| 0 <= i < |avg| && avg[i] > 0.0;
    assert 0.0 < m;
    forall k | 0 <= k < |avg| && avg[k] == m
      ensures n[k] == 1.0
    {
      NormalizeAt(avg, k);
    }
    var top := IndexOf(avg, m);
    var mn := Max(n);
    assert n[top] <= mn;
    var j := IndexOf(n, mn);
    NormalizeAt(avg, j);
  }

  /** When no score is positive the result is all zeros. */
  lemma NormalizeNoPositive(avg: seq<real>)
    requires !HasPositive(avg)
    ensures forall i :: 0 <= i < |avg| ==> Normalize(avg)[i] == 0.0
  {
  }

  /** Normalising a normalised list changes nothing. */
  lemma NormalizeIdempotent(avg: seq<real>)
    ensures Normalize(Normalize(avg)) == Normalize(avg)
  {
    var n := Normalize(avg);
    NormalizeInUnitRange(avg);
    if HasPositive(avg) {
      NormalizeMaxIsOne(avg);
      forall i | 0 <= i < |n|
        ensures Normalize(n)[i] == n[i]
      {
        if n[i] > 0.0 {
          assert Normalize(n)[i] == n[i] / 1.0;
        }
      }
    } else {
      NormalizeNoPositive(avg);
      NormalizeNoPositive(n);
    }
  }
}
