/**
 * The slices of the normalised importances that the composite plots show:
 * for each algorithm, the scores of the selected features, either in
 * selection order (the variant the job uses) or in the order of the full
 * feature list (the variant it leaves unused).
 */
module DisplaySlices {
  import opened Vectors

  /** Per algorithm, the scores of the shown features, and the names labelling the bars. */
  datatype VizTable = VizTable(rows: seq<seq<real>>, names: seq<string>)

  /** Every selected name is a feature of the full list, and every algorithm scores all of them. */
  predicate Sliceable(toViz: seq<string>, all: seq<string>, norms: seq<seq<real>>)
  {
    && (forall f :: f in toViz ==> f in all)
    && (forall i :: 0 <= i < |norms| ==> |all| <= |norms[i]|)
  }

  /** `getFI_To_Viz_Sorted`: the scores looked up by name, in selection order. */
  function SortedSlice(toViz: seq<string>, all: seq<string>, norms: seq<seq<real>>): VizTable
    requires Sliceable(toViz, all, norms)
  {
    var featureIndexes := seq(|toViz|, k requires 0 <= k < |toViz| => IndexOf(all, toViz[k]));
    VizTable(seq(|norms|, i requires 0 <= i < |norms| =>
               seq(|toViz|, k requires 0 <= k < |toViz| => norms[i][featureIndexes[k]])),
             toViz)
  }

  /**
   * The sorted slice shows every selected feature, in selection order, with
   * each algorithm's normalised score for exactly that feature.
   */
  lemma SortedSliceByName(toViz: seq<string>, all: seq<string>, norms: seq<seq<real>>)
    requires Sliceable(toViz, all, norms) && Distinct(all)
    ensures SortedSlice(toViz, all, norms).names == toViz
    ensures |SortedSlice(toViz, all, norms).rows| == |norms|
    ensures forall i, k, p :: 0 <= i < |norms| && 0 <= k < |toViz| && 0 <= p < |all| && all[p] == toViz[k] ==>
      |SortedSlice(toViz, all, norms).rows[i]| == |toViz| && SortedSlice(toViz, all, norms).rows[i][k] == norms[i][p]
  {
    forall p | 0 <= p < |all|
      ensures IndexOf(all, all[p]) == p
    {
      IndexOfDistinct(all, p);
    }
  }

  /** The positions below n that belong to `keep`, in increasing order. */
  function Kept(n: nat, keep: set<nat>): (r: seq<nat>)
    ensures forall x :: x in r <==> x in keep && x < n
    ensures forall t :: 0 <= t < |r| ==> r[t] < n && r[t] in keep
    ensures forall a, b :: 0 <= a < b < |r| ==> r[a] < r[b]
  {
    if n == 0 then []
    else
      var prefix := Kept(n - 1, keep);
      assert forall t :: 0 <= t < |prefix| ==> prefix[t] in prefix;
      prefix + (if n - 1 in keep then [n - 1] else [])
  }

  /** The positions of the selected names: the `j in feature_indexToViz` test. */
  function IndexSet(toViz: seq<string>, all: seq<string>): set<nat>
    requires forall f :: f in toViz ==> f in all
  {
    set k | 0 <= k < |toViz| :: IndexOf(all, toViz[k])
  }

  /** The positions whose name was selected: the `j in featuresToViz` test. */
  function NameSet(toViz: seq<string>, all: seq<string>): set<nat>
  {
    set p | 0 <= p < |all| && all[p] in toViz
  }

  /** `getFI_To_Viz`: the same scores and names, kept in the order of the full feature list. */
  function OriginalOrderSlice(toViz: seq<string>, all: seq<string>, norms: seq<seq<real>>): VizTable
    requires Sliceable(toViz, all, norms)
  {
    var indexes := IndexSet(toViz, all);
    var names := Kept(|all|, NameSet(toViz, all));
    VizTable(seq(|norms|, i requires 0 <= i < |norms| =>
               var kept := Kept(|norms[i]|, indexes);
               seq(|kept|, t requires 0 <= t < |kept| => norms[i][kept[t]])),
             seq(|names|, t requires 0 <= t < |names| => all[names[t]]))
  }

  /** With distinct names, the position of a selected name is exactly the position holding it. */
  lemma IndexSetIsNameSet(toViz: seq<string>, all: seq<string>)
    requires (forall f :: f in toViz ==> f in all) && Distinct(all)
    ensures IndexSet(toViz, all) == NameSet(toViz, all)
  {
    forall p | p in NameSet(toViz, all)
      ensures p in IndexSet(toViz, all)
    {
      var k := IndexOf(toViz, all[p]);
      IndexOfDistinct(all, p);
      assert IndexOf(all, toViz[k]) == p;
    }
  }

  /** The names of the original-order slice: the selected ones, once each, in full-list order. */
  lemma OriginalOrderNames(toViz: seq<string>, all: seq<string>, norms: seq<seq<real>>)
    requires Sliceable(toViz, all, norms) && Distinct(all)
    ensures forall f :: f in OriginalOrderSlice(toViz, all, norms).names <==> f in toViz
    ensures Distinct(OriginalOrderSlice(toViz, all, norms).names)
    ensures forall a, b :: 0 <= a < b < |OriginalOrderSlice(toViz, all, norms).names| ==>
      IndexOf(all, OriginalOrderSlice(toViz, all, norms).names[a]) < IndexOf(all, OriginalOrderSlice(toViz, all, norms).names[b])
  {
    var shown := OriginalOrderSlice(toViz, all, norms).names;
    var names := Kept(|all|, NameSet(toViz, all));
    assert |shown| == |names|;
    forall p | 0 <= p < |all|
      ensures IndexOf(all, all[p]) == p
    {
      IndexOfDistinct(all, p);
    }
    forall s | 0 <= s < |shown|
      ensures shown[s] in toViz && IndexOf(all, shown[s]) == names[s]
    {
      assert shown[s] == all[names[s]];
      assert names[s] in NameSet(toViz, all);
    }
    forall f | f in toViz
      ensures f in shown
    {
      var p := IndexOf(all, f);
      assert p in names;
      var s :| 0 <= s < |names| && names[s] == p;
      assert shown[s] == f;
    }
  }

  /** The rows of the original-order slice pair every shown name with that feature's score. */
  lemma OriginalOrderRows(toViz: seq<string>, all: seq<string>, norms: seq<seq<real>>)
    requires Sliceable(toViz, all, norms) && Distinct(all)
    requires forall i :: 0 <= i < |norms| ==> |norms[i]| == |all|
    ensures |OriginalOrderSlice(toViz, all, norms).rows| == |norms|
    ensures forall i, k :: 0 <= i < |norms| && 0 <= k < |OriginalOrderSlice(toViz, all, norms).names| ==>
      && |OriginalOrderSlice(toViz, all, norms).rows[i]| == |OriginalOrderSlice(toViz, all, norms).names|
      && OriginalOrderSlice(toViz, all, norms).rows[i][k]
         == norms[i][IndexOf(all, OriginalOrderSlice(toViz, all, norms).names[k])]
  {
    var t := OriginalOrderSlice(toViz, all, norms);
    var names := Kept(|all|, NameSet(toViz, all));
    IndexSetIsNameSet(toViz, all);
    forall i, k | 0 <= i < |norms| && 0 <= k < |t.names|
      ensures |t.rows[i]| == |t.names| && t.rows[i][k] == norms[i][IndexOf(all, t.names[k])]
    {
      assert Kept(|norms[i]|, IndexSet(toViz, all)) == names;
      IndexOfDistinct(all, names[k]);
    }
  }

  /** The two slices agree feature by feature: a name shown by both gets the same score from each algorithm. */
  lemma SlicesAgree(toViz: seq<string>, all: seq<string>, norms: seq<seq<real>>, i: nat, k: nat, s: nat)
    requires Sliceable(toViz, all, norms) && Distinct(all)
    requires forall j :: 0 <= j < |norms| ==> |norms[j]| == |all|
    requires i < |norms| && k < |toViz| && s < |OriginalOrderSlice(toViz, all, norms).names|
    requires OriginalOrderSlice(toViz, all, norms).names[s] == toViz[k]
    ensures s < |OriginalOrderSlice(toViz, all, norms).rows[i]|
      && SortedSlice(toViz, all, norms).rows[i][k] == OriginalOrderSlice(toViz, all, norms).rows[i][s]
  {
    OriginalOrderRows(toViz, all, norms);
    SortedSliceByName(toViz, all, norms);
    var f := toViz[k];
    IndexOfDistinct(all, IndexOf(all, f));
  }
}
