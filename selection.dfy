/**
 * Choice of the features shown in the composite plots. When the non-zero
 * union is larger than `top_results`, every union feature gets a score: the
 * sum over algorithms of its normalised importance times the algorithm's
 * performance weight. Features are then sorted by decreasing score with
 * Python's stable sort, and the first `top_results` are kept.
 */
module TopSelection {
  import opened Vectors

  /**
   * The performance weight of an algorithm with mean balanced accuracy
   * `metric`: 0 at or below chance (0.5), otherwise the accuracy above chance
   * rescaled by 0.5.
   */
  function Weight(metric: real): (w: real)
    ensures 0.0 <= w
    ensures metric <= 0.5 ==> w == 0.0
    ensures metric <= 1.0 ==> w <= 1.0
    ensures metric == 1.0 ==> w == 1.0
  {
    if metric <= 0.5 then 0.0 else (metric - 0.5) / 0.5
  }

  /** A better accuracy never earns a smaller weight. */
  lemma WeightMonotonic(m1: real, m2: real)
    requires m1 <= m2
    ensures Weight(m1) <= Weight(m2)
  {
  }

  /** Every algorithm's list reaches the column `col`. */
  predicate Reaches(norms: seq<seq<real>>, col: nat)
  {
    forall j :: 0 <= j < |norms| ==> col < |norms[j]|
  }

  /** Performance-weighted importance of column `col`, summed over the first n algorithms. */
  function Score(norms: seq<seq<real>>, metrics: seq<real>, col: nat, n: nat): real
    requires n <= |norms| && n <= |metrics| && Reaches(norms, col)
  {
    if n == 0 then 0.0 else Score(norms, metrics, col, n - 1) + norms[n - 1][col] * Weight(metrics[n - 1])
  }

  /** Features whose normalised importance is 0 for every algorithm score 0. */
  lemma {:induction false} ScoreOfUnimportant(norms: seq<seq<real>>, metrics: seq<real>, col: nat, n: nat)
    requires n <= |norms| && n <= |metrics| && Reaches(norms, col)
    requires forall j :: 0 <= j < n ==> norms[j][col] == 0.0
    ensures Score(norms, metrics, col, n) == 0.0
  {
    if n > 0 {
      ScoreOfUnimportant(norms, metrics, col, n - 1);
    }
  }

  /** With importances in [0, 1] and accuracies at most 1, a score is between 0 and the number of algorithms. */
  lemma {:induction false} ScoreBounds(norms: seq<seq<real>>, metrics: seq<real>, col: nat, n: nat)
    requires n <= |norms| && n <= |metrics| && Reaches(norms, col)
    requires forall j :: 0 <= j < n ==> 0.0 <= norms[j][col] <= 1.0 && metrics[j] <= 1.0
    ensures 0.0 <= Score(norms, metrics, col, n) <= n as real
  {
    if n > 0 {
      ScoreBounds(norms, metrics, col, n - 1);
      var x, w := norms[n - 1][col], Weight(metrics[n - 1]);
      assert 0.0 <= x * w <= 1.0 by {
        assert x * w <= 1.0 * w;
      }
    }
  }

  // Ranking. Python's `sorted(..., reverse=True)` is stable, so among equal
  // scores the earlier union position comes first: positions are ordered by
  // decreasing score, then by increasing position.

  /** Position p is ranked ahead of position q. */
  predicate Precedes(sc: seq<real>, p: nat, q: nat)
    requires p < |sc| && q < |sc|
  {
    sc[p] > sc[q] || (sc[p] == sc[q] && p < q)
  }

  predicate Ranked(sc: seq<real>, order: seq<nat>)
  {
    && (forall k :: 0 <= k < |order| ==> order[k] < |sc|)
    && (forall a, b :: 0 <= a < b < |order| ==> Precedes(sc, order[a], order[b]))
  }

  /** Inserts position p, smaller than every position already ranked, in front of the first one it does not trail. */
  function Insert(sc: seq<real>, p: nat, ranked: seq<nat>): (r: seq<nat>)
    requires p < |sc| && forall k :: 0 <= k < |ranked| ==> ranked[k] < |sc|
    ensures |r| == |ranked| + 1
    ensures forall k :: 0 <= k < |r| ==> r[k] == p || r[k] in ranked
    ensures forall k :: 0 <= k < |r| ==> r[k] < |sc|
    ensures forall x :: x in r <==> x == p || x in ranked
  {
    if |ranked| == 0 then [p]
    else if sc[ranked[0]] > sc[p] then [ranked[0]] + Insert(sc, p, ranked[1..])
    else [p] + ranked
  }

  /** Insertion sort of the positions i, i+1, ..., |sc|-1. */
  function RankFrom(sc: seq<real>, i: nat): (r: seq<nat>)
    requires i <= |sc|
    ensures |r| == |sc| - i
    ensures forall k :: 0 <= k < |r| ==> i <= r[k] < |sc|
    ensures forall x :: x in r <==> i <= x < |sc|
    decreases |sc| - i
  {
    if i == |sc| then [] else Insert(sc, i, RankFrom(sc, i + 1))
  }

  /** Putting a position ahead of a ranked list keeps it ranked when it precedes every member. */
  lemma RankedCons(sc: seq<real>, p: nat, ranked: seq<nat>)
    requires p < |sc| && Ranked(sc, ranked)
    requires forall k :: 0 <= k < |ranked| ==> Precedes(sc, p, ranked[k])
    ensures Ranked(sc, [p] + ranked)
  {
    var r := [p] + ranked;
    forall a, b | 0 <= a < b < |r|
      ensures Precedes(sc, r[a], r[b])
    {
      assert r[b] == ranked[b - 1];
      if a > 0 {
        assert r[a] == ranked[a - 1];
      }
    }
  }

  lemma {:induction false} InsertRanked(sc: seq<real>, p: nat, ranked: seq<nat>)
    requires p < |sc| && Ranked(sc, ranked)
    requires forall k :: 0 <= k < |ranked| ==> p < ranked[k]
    ensures Ranked(sc, Insert(sc, p, ranked))
  {
    if |ranked| > 0 {
      var head := ranked[0];
      if sc[head] > sc[p] {
        var tail := ranked[1..];
        assert Ranked(sc, tail) by {
          forall a, b | 0 <= a < b < |tail|
            ensures Precedes(sc, tail[a], tail[b])
          {
            assert tail[a] == ranked[a + 1] && tail[b] == ranked[b + 1];
          }
        }
        InsertRanked(sc, p, tail);
        var rest := Insert(sc, p, tail);
        forall k | 0 <= k < |rest|
          ensures Precedes(sc, head, rest[k])
        {
          if rest[k] != p {
            var t :| 0 <= t < |tail| && tail[t] == rest[k];
            assert ranked[t + 1] == rest[k];
          }
        }
        RankedCons(sc, head, rest);
      } else {
        forall k | 0 <= k < |ranked|
          ensures Precedes(sc, p, ranked[k])
        {
          if k > 0 {
            assert Precedes(sc, head, ranked[k]);
          }
        }
        RankedCons(sc, p, ranked);
      }
    }
  }

  /** The ranking of positions i.. holds each of them once, in rank order. */
  lemma {:induction false} RankFromRanked(sc: seq<real>, i: nat)
    requires i <= |sc|
    ensures Ranked(sc, RankFrom(sc, i))
    decreases |sc| - i
  {
    if i < |sc| {
      RankFromRanked(sc, i + 1);
      var rest := RankFrom(sc, i + 1);
      forall k | 0 <= k < |rest|
        ensures i < rest[k]
      {
        assert rest[k] in rest;
      }
      InsertRanked(sc, i, rest);
    }
  }

  /** The union's scores in union order: the values of the job's score dictionary. */
  function Scores(indexes: seq<nat>, metrics: seq<real>, norms: seq<seq<real>>): seq<real>
    requires |norms| <= |metrics| && forall i :: 0 <= i < |indexes| ==> Reaches(norms, indexes[i])
  {
    seq(|indexes|, i requires 0 <= i < |indexes| => Score(norms, metrics, indexes[i], |norms|))
  }

  /**
   * `toViz` is the top k of the distinct `features` under the stable ranking
   * by `sc`: k distinct union members, each ranked ahead of the next, and
   * ahead of every union member left out.
   */
  predicate TopK(features: seq<string>, sc: seq<real>, k: nat, toViz: seq<string>)
    requires |sc| == |features|
  {
    && |toViz| == k
    && Distinct(toViz)
    && (forall f :: f in toViz ==> f in features)
    && (forall a, b :: 0 <= a < b < |toViz| ==>
          Precedes(sc, IndexOf(features, toViz[a]), IndexOf(features, toViz[b])))
    && (forall f, g :: f in toViz && g in features && g !in toViz ==>
          Precedes(sc, IndexOf(features, f), IndexOf(features, g)))
  }

  /**
   * The score dictionary of `selectForViz`: for each union feature, its
   * weighted normalised scores added up over the algorithms. A feature gets
   * its key at the first algorithm, so with no algorithms it stays empty.
   */
  method ScoreSums(features: seq<string>, indexes: seq<nat>, metrics: seq<real>, norms: seq<seq<real>>)
    returns (scoreSumDict: map<string, real>)
    requires Distinct(features) && |indexes| == |features|
    requires |norms| <= |metrics| && forall i :: 0 <= i < |indexes| ==> Reaches(norms, indexes[i])
    ensures forall f :: f in scoreSumDict <==> f in features && |norms| > 0
    ensures |norms| > 0 ==>
      forall p :: 0 <= p < |features| ==> scoreSumDict[features[p]] == Score(norms, metrics, indexes[p], |norms|)
  {
    scoreSumDict := map[];
    var i := 0;
    while i < |features|
      invariant 0 <= i <= |features|
      invariant forall f :: f in scoreSumDict <==> f in features[..i] && |norms| > 0
      invariant |norms| > 0 ==>
        forall p :: 0 <= p < i ==> scoreSumDict[features[p]] == Score(norms, metrics, indexes[p], |norms|)
    {
      var each := features[i];
      assert each !in features[..i];
      var j := 0;
      while j < |norms|
        invariant 0 <= j <= |norms|
        invariant forall f :: f in scoreSumDict <==> (f in features[..i] && |norms| > 0) || (j > 0 && f == each)
        invariant |norms| > 0 ==>
          forall p :: 0 <= p < i ==> scoreSumDict[features[p]] == Score(norms, metrics, indexes[p], |norms|)
        invariant j > 0 ==> scoreSumDict[each] == Score(norms, metrics, indexes[i], j)
      {
        var score := norms[j][indexes[i]] * Weight(metrics[j]);
        if each !in scoreSumDict {
          scoreSumDict := scoreSumDict[each := score];
        } else {
          scoreSumDict := scoreSumDict[each := scoreSumDict[each] + score];
        }
        j := j + 1;
      }
      assert features[..i + 1] == features[..i] + [each];
      i := i + 1;
    }
    assert features[..i] == features;
  }

  /**
   * `selectForViz`: the union unchanged when it has at most `topResults`
   * features; otherwise the `topResults` best by performance-weighted score.
   * With no algorithms the score dictionary is empty and so is the selection.
   */
  method SelectForViz(topResults: nat, features: seq<string>, indexes: seq<nat>,
                      metrics: seq<real>, norms: seq<seq<real>>)
    returns (toViz: seq<string>)
    requires Distinct(features) && |indexes| == |features|
    requires |features| > topResults ==>
      |norms| <= |metrics| && forall i :: 0 <= i < |indexes| ==> Reaches(norms, indexes[i])
    ensures |features| <= topResults ==> toViz == features
    ensures |features| > topResults && |norms| == 0 ==> toViz == []
    ensures |features| > topResults && |norms| > 0 ==> TopK(features, Scores(indexes, metrics, norms), topResults, toViz)
  {
    if |features| <= topResults {
      return features;
    }
    var scoreSumDict := ScoreSums(features, indexes, metrics, norms);
    if |norms| == 0 {
      return [];
    }
    var sc := seq(|features|, p requires 0 <= p < |features| => scoreSumDict[features[p]]);
    assert sc == Scores(indexes, metrics, norms);
    var order := RankFrom(sc, 0);
    RankFromRanked(sc, 0);
    toViz := seq(topResults, t requires 0 <= t < topResults => features[order[t]]);
    TopKOfRanking(features, sc, order, topResults, toViz);
  }

  lemma TopKOfRanking(features: seq<string>, sc: seq<real>, order: seq<nat>, k: nat, toViz: seq<string>)
    requires Distinct(features) && |sc| == |features| && k <= |features|
    requires |order| == |sc| && Ranked(sc, order)
    requires forall x :: x in order <==> 0 <= x < |sc|
    requires |toViz| == k && forall t :: 0 <= t < k ==> toViz[t] == features[order[t]]
    ensures TopK(features, sc, k, toViz)
  {
    forall t | 0 <= t < k
      ensures toViz[t] in features && IndexOf(features, toViz[t]) == order[t]
    {
      IndexOfDistinct(features, order[t]);
    }
    forall f, g | f in toViz && g in features && g !in toViz
      ensures Precedes(sc, IndexOf(features, f), IndexOf(features, g))
    {
      var a :| 0 <= a < k && toViz[a] == f;
      var q := IndexOf(features, g);
      assert q in order;
      var t :| 0 <= t < |order| && order[t] == q;
      if t < k {
        assert false;
      }
    }
  }
}
