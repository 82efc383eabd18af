/**
 * The pairwise comparison tables of the Wilcoxon signed-rank and Mann-Whitney
 * U reports: for every metric that the Kruskal-Wallis test found
 * significant, every unordered pair of distinct algorithms is compared once.
 * The two reports share this loop and differ only in the statistical test,
 * which is a parameter here.
 */
module Pairwise {
  import opened Vectors

  /** The statistic column: a number, or 'NA' when the test was not run. */
  datatype Statistic = NA | Value(value: real)

  /** One output row: the two algorithms, the statistic, the p-value and the '*' flag. */
  datatype PairRow = PairRow(algorithm1: string, algorithm2: string, statistic: Statistic, pValue: real, significant: bool)

  /** A two-sample test returning (statistic, p-value), such as `stats.wilcoxon` or `stats.mannwhitneyu`. */
  type Test = (seq<real>, seq<real>) -> (real, real)

  /** `all(x == combined[0] for x in combined)`; true of the empty list. */
  predicate AllEqual(s: seq<real>)
  {
    forall k :: 0 <= k < |s| ==> s[k] == s[0]
  }

  /** The row for one pair: the sentinel ('NA', 1) when all scores are equal, the test otherwise. */
  function MakeRow(algorithm1: string, algorithm2: string, set1: seq<real>, set2: seq<real>, test: Test, sigCutoff: real): PairRow
  {
    var report := if AllEqual(set1 + set2) then (NA, 1.0) else (Value(test(set1, set2).0), test(set1, set2).1);
    PairRow(algorithm1, algorithm2, report.0, report.1, report.1 < sigCutoff)
  }

  /**
   * A row is starred exactly when its p-value is below the cutoff, and a pair
   * whose scores are all equal gets the sentinel, is starred only under a
   * cutoff above 1, and does not depend on the test, which is not run.
   */
  lemma MakeRowFlags(algorithm1: string, algorithm2: string, set1: seq<real>, set2: seq<real>, test: Test, sigCutoff: real)
    ensures var r := MakeRow(algorithm1, algorithm2, set1, set2, test, sigCutoff);
      && r.algorithm1 == algorithm1 && r.algorithm2 == algorithm2
      && (r.significant <==> r.pValue < sigCutoff)
      && (AllEqual(set1 + set2) <==> r.statistic == NA)
      && (AllEqual(set1 + set2) ==> r.pValue == 1.0 && (r.significant <==> 1.0 < sigCutoff))
      && (!AllEqual(set1 + set2) ==> r.statistic == Value(test(set1, set2).0) && r.pValue == test(set1, set2).1)
    ensures forall other: Test :: AllEqual(set1 + set2) ==>
      MakeRow(algorithm1, algorithm2, set1, set2, other, sigCutoff) == MakeRow(algorithm1, algorithm2, set1, set2, test, sigCutoff)
  {
  }

  /** The pairs (i, q) with i < q < j, in the order the inner loop meets them. */
  function OneRow(i: nat, j: nat): (r: seq<(nat, nat)>)
    ensures forall k :: 0 <= k < |r| ==> r[k].0 == i && i < r[k].1 < j
  {
    if j == 0 then [] else OneRow(i, j - 1) + (if i < j - 1 then [(i, j - 1)] else [])
  }

  /** The index pairs visited once the outer loop has finished its first i algorithms. */
  function Pairs(n: nat, i: nat): (r: seq<(nat, nat)>)
    ensures forall k :: 0 <= k < |r| ==> r[k].0 < i && r[k].0 < r[k].1 < n
  {
    if i == 0 then [] else Pairs(n, i - 1) + OneRow(i - 1, n)
  }

  /** Lexicographic order on index pairs: the order of the two nested loops. */
  predicate Before(x: (nat, nat), y: (nat, nat))
  {
    x.0 < y.0 || (x.0 == y.0 && x.1 < y.1)
  }

  /** Row i holds every later column below j. */
  lemma {:induction false} OneRowMembers(i: nat, j: nat)
    ensures forall q: nat :: (i, q) in OneRow(i, j) <==> i < q < j
  {
    if j > 0 {
      OneRowMembers(i, j - 1);
    }
  }

  /** Row i lists its columns in increasing order. */
  lemma {:induction false} OneRowOrdered(i: nat, j: nat)
    ensures forall a, b :: 0 <= a < b < |OneRow(i, j)| ==> OneRow(i, j)[a].1 < OneRow(i, j)[b].1
  {
    if j > 0 {
      OneRowOrdered(i, j - 1);
    }
  }

  /** After i rows, exactly the pairs p < q < n with p < i have been visited. */
  lemma {:induction false} PairsMembers(n: nat, i: nat)
    ensures forall p: nat, q: nat :: (p, q) in Pairs(n, i) <==> p < i && p < q < n
  {
    if i > 0 {
      PairsMembers(n, i - 1);
      OneRowMembers(i - 1, n);
    }
  }

  /** Pairs are visited in lexicographic order. */
  lemma {:induction false} PairsOrdered(n: nat, i: nat)
    ensures forall a, b :: 0 <= a < b < |Pairs(n, i)| ==> Before(Pairs(n, i)[a], Pairs(n, i)[b])
  {
    if i > 0 {
      PairsOrdered(n, i - 1);
      OneRowOrdered(i - 1, n);
    }
  }

  /** Row i contributes one pair for every later algorithm. */
  lemma {:induction false} OneRowLength(i: nat, j: nat)
    ensures |OneRow(i, j)| == if i < j then j - 1 - i else 0
  {
    if j > 0 {
      OneRowLength(i, j - 1);
    }
  }

  lemma {:induction false} PairsLength(n: nat, i: nat)
    requires i <= n
    ensures 2 * |Pairs(n, i)| == i * (2 * n - 1 - i)
  {
    if i > 0 {
      PairsLength(n, i - 1);
      OneRowLength(i - 1, n);
      PairsLengthStep(n, i, |Pairs(n, i - 1)|, |OneRow(i - 1, n)|);
    }
  }

  lemma PairsLengthStep(n: int, i: int, before: int, added: int)
    requires 0 < i <= n
    requires 2 * before == (i - 1) * (2 * n - 1 - (i - 1)) && added == n - i
    ensures 2 * (before + added) == i * (2 * n - 1 - i)
  {
  }

  /**
   * The comparison covers every unordered pair of distinct algorithms exactly
   * once, the earlier one first, in loop order: n(n-1)/2 pairs.
   */
  lemma AllPairsOnce(n: nat)
    ensures forall p: nat, q: nat :: (p, q) in Pairs(n, n) <==> p < q < n
    ensures forall a, b :: 0 <= a < b < |Pairs(n, n)| ==> Pairs(n, n)[a] != Pairs(n, n)[b]
    ensures 2 * |Pairs(n, n)| == n * (n - 1)
  {
    PairsMembers(n, n);
    PairsOrdered(n, n);
    PairsLength(n, n);
  }

  /** Both positions of every pair index the algorithm list. */
  predicate InRange(pairs: seq<(nat, nat)>, n: nat)
  {
    forall k :: 0 <= k < |pairs| ==> pairs[k].0 < n && pairs[k].1 < n
  }

  /** The name pairs of the `done` list. */
  function Names(algorithms: seq<string>, pairs: seq<(nat, nat)>): seq<(string, string)>
    requires InRange(pairs, |algorithms|)
  {
    seq(|pairs|, k requires 0 <= k < |pairs| => (algorithms[pairs[k].0], algorithms[pairs[k].1]))
  }

  /** With distinct algorithm names, a name pair is in `done` exactly when its index pair was visited. */
  lemma NamesMember(algorithms: seq<string>, pairs: seq<(nat, nat)>, p: nat, q: nat)
    requires Distinct(algorithms) && p < |algorithms| && q < |algorithms|
    requires InRange(pairs, |algorithms|)
    ensures (algorithms[p], algorithms[q]) in Names(algorithms, pairs) <==> (p, q) in pairs
  {
    var names := Names(algorithms, pairs);
    if (algorithms[p], algorithms[q]) in names {
      var k :| 0 <= k < |names| && names[k] == (algorithms[p], algorithms[q]);
      IndexOfDistinct(algorithms, p);
      IndexOfDistinct(algorithms, q);
      IndexOfDistinct(algorithms, pairs[k].0);
      IndexOfDistinct(algorithms, pairs[k].1);
      assert pairs[k] == (p, q);
    }
    if (p, q) in pairs {
      var k :| 0 <= k < |pairs| && pairs[k] == (p, q);
      assert names[k] == (algorithms[p], algorithms[q]);
    }
  }

  /** The scores of every algorithm for one metric. */
  predicate Sampled(algorithms: seq<string>, samples: map<string, seq<real>>)
  {
    forall a :: a in algorithms ==> a in samples
  }

  /** The rows written for the visited pairs, in visiting order. */
  function Table(algorithms: seq<string>, samples: map<string, seq<real>>, test: Test, sigCutoff: real, pairs: seq<(nat, nat)>): seq<PairRow>
    requires Sampled(algorithms, samples)
    requires InRange(pairs, |algorithms|)
  {
    seq(|pairs|, k requires 0 <= k < |pairs| =>
      MakeRow(algorithms[pairs[k].0], algorithms[pairs[k].1],
              samples[algorithms[pairs[k].0]], samples[algorithms[pairs[k].1]], test, sigCutoff))
  }

  /**
   * The pair loop of `wilcoxonRank` and `mannWhitneyU` for one metric: the
   * `done` list of name pairs skips a pair already compared in either order
   * and a comparison of an algorithm with itself.
   */
  method PairwiseTable(algorithms: seq<string>, samples: map<string, seq<real>>, test: Test, sigCutoff: real)
    returns (stats: seq<PairRow>)
    requires Distinct(algorithms) && Sampled(algorithms, samples)
    ensures stats == Table(algorithms, samples, test, sigCutoff, Pairs(|algorithms|, |algorithms|))
  {
    var n := |algorithms|;
    stats := [];
    var done: seq<(string, string)> := [];
    for i := 0 to n
      invariant InRange(Pairs(n, i), n)
      invariant done == Names(algorithms, Pairs(n, i))
      invariant stats == Table(algorithms, samples, test, sigCutoff, Pairs(n, i))
    {
      done, stats := ScanRow(algorithms, samples, test, sigCutoff, i, done, stats);
    }
  }

  /** The inner loop over the second algorithm, for row i of the outer loop. */
  method ScanRow(algorithms: seq<string>, samples: map<string, seq<real>>, test: Test, sigCutoff: real,
                 i: nat, done0: seq<(string, string)>, stats0: seq<PairRow>)
    returns (done: seq<(string, string)>, stats: seq<PairRow>)
    requires Distinct(algorithms) && Sampled(algorithms, samples) && i < |algorithms|
    requires InRange(Pairs(|algorithms|, i), |algorithms|)
    requires done0 == Names(algorithms, Pairs(|algorithms|, i))
    requires stats0 == Table(algorithms, samples, test, sigCutoff, Pairs(|algorithms|, i))
    ensures InRange(Pairs(|algorithms|, i + 1), |algorithms|)
    ensures done == Names(algorithms, Pairs(|algorithms|, i + 1))
    ensures stats == Table(algorithms, samples, test, sigCutoff, Pairs(|algorithms|, i + 1))
  {
    var n := |algorithms|;
    done, stats := done0, stats0;
    ghost var visited: seq<(nat, nat)> := Pairs(n, i);
    assert visited == Pairs(n, i) + OneRow(i, 0);
    for j := 0 to n
      invariant visited == Pairs(n, i) + OneRow(i, j)
      invariant InRange(visited, n)
      invariant done == Names(algorithms, visited)
      invariant stats == Table(algorithms, samples, test, sigCutoff, visited)
    {
      var algorithm1, algorithm2 := algorithms[i], algorithms[j];
      GuardIsOrder(algorithms, visited, i, j);
      VisitStep(n, i, j);
      if (algorithm1, algorithm2) !in done && (algorithm2, algorithm1) !in done && algorithm1 != algorithm2 {
        var tempstats := ComparePair(algorithm1, algorithm2, samples[algorithm1], samples[algorithm2], test, sigCutoff);
        AppendPair(algorithms, samples, test, sigCutoff, visited, i, j);
        stats := stats + [tempstats];
        done := done + [(algorithm1, algorithm2)];
        visited := visited + [(i, j)];
      }
      VisitedInRange(n, i, j + 1);
    }
    VisitStep(n, i, n);
  }

  /** The body of the pair loop: the sentinel or the test, then the '*' flag. */
  method ComparePair(algorithm1: string, algorithm2: string, set1: seq<real>, set2: seq<real>, test: Test, sigCutoff: real)
    returns (tempstats: PairRow)
    ensures tempstats == MakeRow(algorithm1, algorithm2, set1, set2, test, sigCutoff)
  {
    var combined := set1 + set2;
    var report: (Statistic, real);
    if AllEqual(combined) {
      report := (NA, 1.0);
    } else {
      var result := test(set1, set2);
      report := (Value(result.0), result.1);
    }
    tempstats := PairRow(algorithm1, algorithm2, report.0, report.1, false);
    if report.1 < sigCutoff {
      tempstats := tempstats.(significant := true);
    }
  }

  /**
   * While row i is being scanned at column j, the `done` test lets a pair
   * through exactly when i < j: a later pair is not yet done, an earlier one
   * was done in the other order, and an algorithm is never paired with itself.
   */
  lemma GuardIsOrder(algorithms: seq<string>, visited: seq<(nat, nat)>, i: nat, j: nat)
    requires Distinct(algorithms) && i < |algorithms| && j < |algorithms|
    requires visited == Pairs(|algorithms|, i) + OneRow(i, j)
    ensures InRange(visited, |algorithms|)
    ensures ((algorithms[i], algorithms[j]) !in Names(algorithms, visited)
             && (algorithms[j], algorithms[i]) !in Names(algorithms, visited)
             && algorithms[i] != algorithms[j])
            <==> i < j
  {
    var n := |algorithms|;
    VisitedInRange(n, i, j);
    PairsMembers(n, i);
    OneRowMembers(i, j);
    assert (i, j) !in visited;
    assert (j, i) in visited <==> j < i;
    NamesMember(algorithms, visited, i, j);
    NamesMember(algorithms, visited, j, i);
    assert algorithms[i] == algorithms[j] <==> i == j;
  }

  /** Every pair visited before column j of row i indexes the list. */
  lemma VisitedInRange(n: nat, i: nat, j: nat)
    requires i < n && j <= n
    ensures InRange(Pairs(n, i) + OneRow(i, j), n)
  {
    var visited := Pairs(n, i) + OneRow(i, j);
    forall k | 0 <= k < |visited|
      ensures visited[k].0 < n && visited[k].1 < n
    {
      if k < |Pairs(n, i)| {
        assert visited[k] == Pairs(n, i)[k];
      } else {
        assert visited[k] == OneRow(i, j)[k - |Pairs(n, i)|];
      }
    }
  }

  /** Column j of row i is visited exactly when i < j. */
  lemma VisitStep(n: nat, i: nat, j: nat)
    ensures Pairs(n, i) + OneRow(i, j + 1) == Pairs(n, i) + OneRow(i, j) + (if i < j then [(i, j)] else [])
    ensures Pairs(n, i + 1) == Pairs(n, i) + OneRow(i, n)
  {
  }

  /** Visiting one more pair appends its name pair to `done` and its row to the table. */
  lemma AppendPair(algorithms: seq<string>, samples: map<string, seq<real>>, test: Test, sigCutoff: real,
                   visited: seq<(nat, nat)>, i: nat, j: nat)
    requires Sampled(algorithms, samples) && i < |algorithms| && j < |algorithms|
    requires InRange(visited, |algorithms|)
    ensures Names(algorithms, visited + [(i, j)]) == Names(algorithms, visited) + [(algorithms[i], algorithms[j])]
    ensures Table(algorithms, samples, test, sigCutoff, visited + [(i, j)])
      == Table(algorithms, samples, test, sigCutoff, visited)
         + [MakeRow(algorithms[i], algorithms[j], samples[algorithms[i]], samples[algorithms[j]], test, sigCutoff)]
  {
  }

  /** The table of n algorithms has n(n-1)/2 rows. */
  lemma TableLength(algorithms: seq<string>, samples: map<string, seq<real>>, test: Test, sigCutoff: real)
    requires Sampled(algorithms, samples)
    ensures 2 * |Table(algorithms, samples, test, sigCutoff, Pairs(|algorithms|, |algorithms|))|
      == |algorithms| * (|algorithms| - 1)
  {
    AllPairsOnce(|algorithms|);
  }

  /** Some row compares algorithm1 with algorithm2, in that order. */
  predicate HasRow(t: seq<PairRow>, algorithm1: string, algorithm2: string)
  {
    exists k :: 0 <= k < |t| && t[k].algorithm1 == algorithm1 && t[k].algorithm2 == algorithm2
  }

  /** Every pair of distinct algorithms has a row, the one listed earlier first. */
  lemma TableHasPair(algorithms: seq<string>, samples: map<string, seq<real>>, test: Test, sigCutoff: real, p: nat, q: nat)
    requires Sampled(algorithms, samples) && p < q < |algorithms|
    ensures HasRow(Table(algorithms, samples, test, sigCutoff, Pairs(|algorithms|, |algorithms|)), algorithms[p], algorithms[q])
  {
    var pairs := Pairs(|algorithms|, |algorithms|);
    var t := Table(algorithms, samples, test, sigCutoff, pairs);
    PairsMembers(|algorithms|, |algorithms|);
    assert (p, q) in pairs;
    var k :| 0 <= k < |pairs| && pairs[k] == (p, q);
    assert t[k].algorithm1 == algorithms[p] && t[k].algorithm2 == algorithms[q];
  }

  /** Every row compares two algorithms of the list, the earlier one first. */
  lemma TableRowOrder(algorithms: seq<string>, samples: map<string, seq<real>>, test: Test, sigCutoff: real, k: nat)
    requires Distinct(algorithms) && Sampled(algorithms, samples)
    requires k < |Table(algorithms, samples, test, sigCutoff, Pairs(|algorithms|, |algorithms|))|
    ensures Table(algorithms, samples, test, sigCutoff, Pairs(|algorithms|, |algorithms|))[k].algorithm1 in algorithms
    ensures Table(algorithms, samples, test, sigCutoff, Pairs(|algorithms|, |algorithms|))[k].algorithm2 in algorithms
    ensures IndexOf(algorithms, Table(algorithms, samples, test, sigCutoff, Pairs(|algorithms|, |algorithms|))[k].algorithm1) < IndexOf(algorithms, Table(algorithms, samples, test, sigCutoff, Pairs(|algorithms|, |algorithms|))[k].algorithm2)
  {
    var pairs := Pairs(|algorithms|, |algorithms|);
    IndexOfDistinct(algorithms, pairs[k].0);
    IndexOfDistinct(algorithms, pairs[k].1);
  }

  /** No pair of algorithms is compared twice. */
  lemma TableRowsDistinct(algorithms: seq<string>, samples: map<string, seq<real>>, test: Test, sigCutoff: real, a: nat, b: nat)
    requires Distinct(algorithms) && Sampled(algorithms, samples)
    requires a < b < |Table(algorithms, samples, test, sigCutoff, Pairs(|algorithms|, |algorithms|))|
    ensures (Table(algorithms, samples, test, sigCutoff, Pairs(|algorithms|, |algorithms|))[a].algorithm1, Table(algorithms, samples, test, sigCutoff, Pairs(|algorithms|, |algorithms|))[a].algorithm2)
         != (Table(algorithms, samples, test, sigCutoff, Pairs(|algorithms|, |algorithms|))[b].algorithm1, Table(algorithms, samples, test, sigCutoff, Pairs(|algorithms|, |algorithms|))[b].algorithm2)
  {
    var pairs := Pairs(|algorithms|, |algorithms|);
    AllPairsOnce(|algorithms|);
    assert pairs[a] != pairs[b];
    IndexOfDistinct(algorithms, pairs[a].0);
    IndexOfDistinct(algorithms, pairs[a].1);
    IndexOfDistinct(algorithms, pairs[b].0);
    IndexOfDistinct(algorithms, pairs[b].1);
  }

  /** `metric_dict[algorithm][metric]` for every algorithm. */
  function SamplesFor(algorithms: seq<string>, metricDict: map<string, map<string, seq<real>>>, metric: string): (r: map<string, seq<real>>)
    requires Recorded(algorithms, metricDict, metric)
    ensures Sampled(algorithms, r)
  {
    map a | a in algorithms :: metricDict[a][metric]
  }

  /** Every algorithm has a score list for the metric. */
  predicate Recorded(algorithms: seq<string>, metricDict: map<string, map<string, seq<real>>>, metric: string)
  {
    forall a :: a in algorithms ==> a in metricDict && metric in metricDict[a]
  }

  /** The table `wilcoxonRank` or `mannWhitneyU` writes for one metric. */
  function MetricTable(algorithms: seq<string>, metricDict: map<string, map<string, seq<real>>>, test: Test, sigCutoff: real, metric: string): seq<PairRow>
    requires Recorded(algorithms, metricDict, metric)
  {
    Table(algorithms, SamplesFor(algorithms, metricDict, metric), test, sigCutoff, Pairs(|algorithms|, |algorithms|))
  }

  /**
   * The per-metric loop: a table is produced exactly for the metrics the
   * Kruskal-Wallis summary starred.
   */
  method PairwiseReports(metrics: seq<string>, kruskalStarred: set<string>, algorithms: seq<string>,
                         metricDict: map<string, map<string, seq<real>>>, test: Test, sigCutoff: real)
    returns (tables: map<string, seq<PairRow>>)
    requires Distinct(algorithms)
    requires forall m :: m in metrics && m in kruskalStarred ==> Recorded(algorithms, metricDict, m)
    ensures forall m :: m in tables <==> m in metrics && m in kruskalStarred
    ensures forall m :: m in tables ==>
      (Recorded(algorithms, metricDict, m) && tables[m] == MetricTable(algorithms, metricDict, test, sigCutoff, m))
  {
    tables := map[];
    for t := 0 to |metrics|
      invariant forall m :: m in tables <==> m in metrics[..t] && m in kruskalStarred
      invariant forall m :: m in tables ==>
        (Recorded(algorithms, metricDict, m) && tables[m] == MetricTable(algorithms, metricDict, test, sigCutoff, m))
    {
      var metric := metrics[t];
      if metric in kruskalStarred {
        var stats := PairwiseTable(algorithms, SamplesFor(algorithms, metricDict, metric), test, sigCutoff);
        tables := tables[metric := stats];
      }
      assert metrics[..t + 1] == metrics[..t] + [metric];
    }
    assert metrics[..|metrics|] == metrics;
  }
}
