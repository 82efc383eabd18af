/**
 * The union, over all algorithms, of the features with a positive average
 * importance, and each such feature's position in the full feature list. With
 * more than one algorithm the union goes through a Python set, whose
 * iteration order is not fixed; the model leaves that order open.
 */
module NonZeroUnion {
  import opened Vectors

  /** The names of one algorithm's features with a positive average, in feature order. */
  function PositiveNames(avg: seq<real>, names: seq<string>): (r: seq<string>)
    requires |avg| <= |names|
    ensures forall f :: f in r <==> exists i :: 0 <= i < |avg| && avg[i] > 0.0 && names[i] == f
  {
    if |avg| == 0 then []
    else
      var n := |avg| - 1;
      PositiveNames(avg[..n], names) + (if avg[n] > 0.0 then [names[n]] else [])
  }

  /** Over a list of distinct names, the positive names are distinct too. */
  lemma {:induction false} PositiveNamesDistinct(avg: seq<real>, names: seq<string>)
    requires |avg| <= |names| && Distinct(names)
    ensures Distinct(PositiveNames(avg, names))
  {
    if |avg| > 0 {
      var n := |avg| - 1;
      PositiveNamesDistinct(avg[..n], names);
      var prefix := PositiveNames(avg[..n], names);
      if avg[n] > 0.0 {
        forall f | f in prefix
          ensures f != names[n]
        {
          var i :| 0 <= i < n && avg[..n][i] > 0.0 && names[i] == f;
        }
        var r := prefix + [names[n]];
        assert PositiveNames(avg, names) == r;
        forall i, j | 0 <= i < j < |r|
          ensures r[i] != r[j]
        {
          assert r[i] == prefix[i] && prefix[i] in prefix;
          if j < |prefix| {
            assert r[j] == prefix[j];
          } else {
            assert r[j] == names[n];
          }
        }
      }
    }
  }

  /** The features that some algorithm rates above 0. */
  function NonZeroSet(aves: seq<seq<real>>, names: seq<string>): set<string>
  {
    set a, i | 0 <= a < |aves| && 0 <= i < |aves[a]| && i < |names| && aves[a][i] > 0.0 :: names[i]
  }

  lemma NonZeroSetExtend(aves: seq<seq<real>>, names: seq<string>, j: nat)
    requires j < |aves| && |aves[j]| <= |names|
    ensures NonZeroSet(aves[..j + 1], names) == NonZeroSet(aves[..j], names) + set f | f in PositiveNames(aves[j], names)
  {
    var left := NonZeroSet(aves[..j + 1], names);
    var right := NonZeroSet(aves[..j], names) + set f | f in PositiveNames(aves[j], names);
    forall f | f in left ensures f in right {
      var a, i :| 0 <= a < j + 1 && 0 <= i < |aves[..j + 1][a]| && i < |names| && aves[..j + 1][a][i] > 0.0 && names[i] == f;
      if a < j {
        assert aves[..j][a] == aves[a];
      }
    }
    forall f | f in right ensures f in left {
      if f in NonZeroSet(aves[..j], names) {
        var a, i :| 0 <= a < j && 0 <= i < |aves[..j][a]| && i < |names| && aves[..j][a][i] > 0.0 && names[i] == f;
        assert aves[..j + 1][a] == aves[a];
      } else {
        var i :| 0 <= i < |aves[j]| && aves[j][i] > 0.0 && names[i] == f;
        assert aves[..j + 1][j] == aves[j];
      }
    }
  }

  /** `list(some_set)`: the members of a set, once each, in an order the model does not fix. */
  method ListOfSet(s: set<string>) returns (xs: seq<string>)
    ensures Distinct(xs)
    ensures forall x :: x in xs <==> x in s
  {
    xs := [];
    var rest := s;
    while rest != {}
      invariant rest <= s
      invariant Distinct(xs)
      invariant forall x :: x in xs <==> x in s && x !in rest
      decreases rest
    {
      var x :| x in rest;
      xs := xs + [x];
      rest := rest - {x};
    }
  }

  /** `list(set(union) | set(next))`: every name of either list, once each. */
  method UnionStep(union: seq<string>, next: seq<string>) returns (r: seq<string>)
    ensures Distinct(r)
    ensures forall f :: f in r <==> f in union || f in next
  {
    r := ListOfSet((set f | f in union) + (set f | f in next));
  }

  /**
   * `non_zero_union_features` and `non_zero_union_indexes`: with one
   * algorithm, its positive names in feature order; with several, the set
   * union of all of them, listed without repetition. Each index is the first
   * position of its feature in the full list.
   */
  method UnionFeatures(aves: seq<seq<real>>, names: seq<string>) returns (features: seq<string>, indexes: seq<nat>)
    requires |aves| > 0
    requires forall a :: 0 <= a < |aves| ==> |aves[a]| <= |names|
    ensures forall f :: f in features <==> f in NonZeroSet(aves, names)
    ensures |aves| == 1 ==> features == PositiveNames(aves[0], names)
    ensures |aves| > 1 || Distinct(names) ==> Distinct(features)
    ensures |indexes| == |features|
    ensures forall i :: 0 <= i < |features| ==>
      indexes[i] < |names| && names[indexes[i]] == features[i] && forall k :: 0 <= k < indexes[i] ==> names[k] != features[i]
  {
    var nonZeroLists: seq<seq<string>> := [];
    for a := 0 to |aves|
      invariant |nonZeroLists| == a
      invariant forall b :: 0 <= b < a ==> nonZeroLists[b] == PositiveNames(aves[b], names)
    {
      nonZeroLists := nonZeroLists + [PositiveNames(aves[a], names)];
    }
    features := UnionLists(aves, names, nonZeroLists);
    NonZeroSetNames(aves, names);
    indexes := FirstPositions(features, names);
  }

  /** The loop folding the positive-name lists into one list through Python sets. */
  method UnionLists(aves: seq<seq<real>>, names: seq<string>, nonZeroLists: seq<seq<string>>) returns (features: seq<string>)
    requires |aves| > 0 && |nonZeroLists| == |aves|
    requires forall a :: 0 <= a < |aves| ==> |aves[a]| <= |names| && nonZeroLists[a] == PositiveNames(aves[a], names)
    ensures forall f :: f in features <==> f in NonZeroSet(aves, names)
    ensures |aves| == 1 ==> features == PositiveNames(aves[0], names)
    ensures |aves| > 1 || Distinct(names) ==> Distinct(features)
  {
    features := nonZeroLists[0];
    NonZeroSetExtend(aves, names, 0);
    assert aves[..0] == [];
    if Distinct(names) {
      PositiveNamesDistinct(aves[0], names);
    }
    for j := 1 to |aves|
      invariant forall f :: f in features <==> f in NonZeroSet(aves[..j], names)
      invariant j > 1 || Distinct(names) ==> Distinct(features)
      invariant j == 1 ==> features == PositiveNames(aves[0], names)
    {
      NonZeroSetExtend(aves, names, j);
      features := UnionStep(features, nonZeroLists[j]);
    }
    assert aves[..|aves|] == aves;
  }

  /** Every feature some algorithm rates above 0 is a feature name. */
  lemma NonZeroSetNames(aves: seq<seq<real>>, names: seq<string>)
    ensures forall f :: f in NonZeroSet(aves, names) ==> f in names
  {
    forall f | f in NonZeroSet(aves, names)
      ensures f in names
    {
      var a, i :| 0 <= a < |aves| && 0 <= i < |aves[a]| && i < |names| && aves[a][i] > 0.0 && names[i] == f;
    }
  }

  /** `all_feature_list.index(i)` for every union feature: the first position holding its name. */
  method FirstPositions(features: seq<string>, names: seq<string>) returns (indexes: seq<nat>)
    requires forall f :: f in features ==> f in names
    ensures |indexes| == |features|
    ensures forall i :: 0 <= i < |features| ==>
      indexes[i] < |names| && names[indexes[i]] == features[i] && forall k :: 0 <= k < indexes[i] ==> names[k] != features[i]
  {
    indexes := [];
    for i := 0 to |features|
      invariant |indexes| == i
      invariant forall p :: 0 <= p < i ==>
        indexes[p] < |names| && names[indexes[p]] == features[p] && forall k :: 0 <= k < indexes[p] ==> names[k] != features[p]
    {
      indexes := indexes + [IndexOf(names, features[i])];
    }
  }
}
