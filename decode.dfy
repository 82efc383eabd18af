/**
 * Which of the seven modelling algorithms a run used: a string of '0'/'1'
 * characters, one per algorithm in a fixed order, is decoded into the list of
 * algorithm names that every later stage iterates over.
 */
module AlgorithmDecode {
  import opened Wrappers
  import opened Vectors

  /** The algorithms the mask can select, in the order the mask encodes them. */
  const PossibleAlgos: seq<string> :=
    ["Naive Bayes", "Decision Tree", "Random Forest", "XGB", "SVM", "ANN", "K Neighbors"]

  /** One decoding step: the algorithm at `index` is appended when its mask character is '1'. */
  function Decode(algorithms: seq<string>, encoded: string, possibleAlgos: seq<string>, index: nat): seq<string>
    requires index < |encoded| && index < |possibleAlgos|
  {
    if encoded[index] == '1' then algorithms + [possibleAlgos[index]] else algorithms
  }

  /** The first n decoding steps, starting from the empty list. */
  function DecodeUpTo(encoded: string, possibleAlgos: seq<string>, n: nat): seq<string>
    requires n <= |encoded| && n <= |possibleAlgos|
  {
    if n == 0 then [] else Decode(DecodeUpTo(encoded, possibleAlgos, n - 1), encoded, possibleAlgos, n - 1)
  }

  /**
   * The seven steps the job runs in sequence. A mask shorter than seven
   * characters makes one of them index past its end, which raises: None.
   */
  function DecodeAlgorithms(encoded: string): Option<seq<string>>
  {
    if |encoded| < |PossibleAlgos| then None else Some(DecodeUpTo(encoded, PossibleAlgos, |PossibleAlgos|))
  }

  /** Number of '1' characters among the first n of the mask. */
  function CountOnes(encoded: string, n: nat): nat
    requires n <= |encoded|
  {
    if n == 0 then 0 else CountOnes(encoded, n - 1) + (if encoded[n - 1] == '1' then 1 else 0)
  }

  lemma PossibleAlgosDistinct()
    ensures Distinct(PossibleAlgos)
  {
  }

  /** After n steps the list has one entry per '1' among the first n mask characters. */
  lemma {:induction false} DecodeUpToLength(encoded: string, possibleAlgos: seq<string>, n: nat)
    requires n <= |encoded| && n <= |possibleAlgos|
    ensures |DecodeUpTo(encoded, possibleAlgos, n)| == CountOnes(encoded, n)
  {
    if n > 0 {
      DecodeUpToLength(encoded, possibleAlgos, n - 1);
    }
  }

  /** After n steps an algorithm is listed exactly when its character among the first n is '1'. */
  lemma {:induction false} DecodeUpToMembers(encoded: string, possibleAlgos: seq<string>, n: nat)
    requires n <= |encoded| && n <= |possibleAlgos|
    ensures forall name :: name in DecodeUpTo(encoded, possibleAlgos, n) <==>
      exists i :: 0 <= i < n && encoded[i] == '1' && possibleAlgos[i] == name
  {
    if n > 0 {
      DecodeUpToMembers(encoded, possibleAlgos, n - 1);
      var r := DecodeUpTo(encoded, possibleAlgos, n);
      if encoded[n - 1] == '1' {
        forall name
          ensures name in r <==> exists i :: 0 <= i < n && encoded[i] == '1' && possibleAlgos[i] == name
        {
          if name == possibleAlgos[n - 1] {
            assert r[|r| - 1] == name;
          }
        }
      }
    }
  }

  /** After n steps over distinct names, the list holds names among the first n, in the fixed order. */
  lemma {:induction false} DecodeUpToOrdered(encoded: string, possibleAlgos: seq<string>, n: nat)
    requires n <= |encoded| && n <= |possibleAlgos| && Distinct(possibleAlgos)
    ensures forall k :: 0 <= k < |DecodeUpTo(encoded, possibleAlgos, n)| ==>
      DecodeUpTo(encoded, possibleAlgos, n)[k] in possibleAlgos
      && IndexOf(possibleAlgos, DecodeUpTo(encoded, possibleAlgos, n)[k]) < n
    ensures forall k, l :: 0 <= k < l < |DecodeUpTo(encoded, possibleAlgos, n)| ==>
      IndexOf(possibleAlgos, DecodeUpTo(encoded, possibleAlgos, n)[k])
      < IndexOf(possibleAlgos, DecodeUpTo(encoded, possibleAlgos, n)[l])
  {
    if n > 0 {
      DecodeUpToOrdered(encoded, possibleAlgos, n - 1);
      var prev := DecodeUpTo(encoded, possibleAlgos, n - 1);
      var r := DecodeUpTo(encoded, possibleAlgos, n);
      if encoded[n - 1] == '1' {
        IndexOfDistinct(possibleAlgos, n - 1);
        assert r == prev + [possibleAlgos[n - 1]];
        forall k | 0 <= k < |r|
          ensures r[k] in possibleAlgos && IndexOf(possibleAlgos, r[k]) < n
        {
          if k < |prev| {
            assert r[k] == prev[k];
          }
        }
        forall k, l | 0 <= k < l < |r|
          ensures IndexOf(possibleAlgos, r[k]) < IndexOf(possibleAlgos, r[l])
        {
          assert r[k] == prev[k];
          if l < |prev| {
            assert r[l] == prev[l];
          }
        }
      }
    }
  }

  /**
   * After n steps over distinct names, the list holds exactly the selected
   * names among the first n, once each, in the mask's order.
   */
  lemma DecodeUpToSelects(encoded: string, possibleAlgos: seq<string>, n: nat)
    requires n <= |encoded| && n <= |possibleAlgos| && Distinct(possibleAlgos)
    ensures var r := DecodeUpTo(encoded, possibleAlgos, n);
      && |r| == CountOnes(encoded, n)
      && (forall name :: name in r <==> exists i :: 0 <= i < n && encoded[i] == '1' && possibleAlgos[i] == name)
      && (forall k :: 0 <= k < |r| ==> r[k] in possibleAlgos && IndexOf(possibleAlgos, r[k]) < n)
      && (forall k, l :: 0 <= k < l < |r| ==> IndexOf(possibleAlgos, r[k]) < IndexOf(possibleAlgos, r[l]))
  {
    DecodeUpToLength(encoded, possibleAlgos, n);
    DecodeUpToMembers(encoded, possibleAlgos, n);
    DecodeUpToOrdered(encoded, possibleAlgos, n);
  }

  /**
   * A mask of at least seven characters selects, in the fixed order and
   * without repetition, exactly the algorithms whose character is '1'; a
   * shorter mask fails.
   */
  lemma DecodeAlgorithmsSelects(encoded: string)
    ensures DecodeAlgorithms(encoded).None? <==> |encoded| < 7
    ensures DecodeAlgorithms(encoded).Some? ==>
      var r := DecodeAlgorithms(encoded).value;
      && Distinct(r)
      && |r| == CountOnes(encoded, 7)
      && (forall k :: 0 <= k < |r| ==> r[k] in PossibleAlgos)
      && (forall name :: name in r <==> exists i :: 0 <= i < 7 && encoded[i] == '1' && PossibleAlgos[i] == name)
      && (forall k, l :: 0 <= k < l < |r| ==> IndexOf(PossibleAlgos, r[k]) < IndexOf(PossibleAlgos, r[l]))
  {
    if |encoded| >= 7 {
      PossibleAlgosDistinct();
      DecodeUpToSelects(encoded, PossibleAlgos, 7);
    }
  }

  /** The mask "1010000" selects Naive Bayes and Random Forest. */
  lemma DecodeExample()
    ensures DecodeAlgorithms("1010000") == Some(["Naive Bayes", "Random Forest"])
  {
    var e := "1010000";
    assert DecodeUpTo(e, PossibleAlgos, 1) == ["Naive Bayes"];
    assert DecodeUpTo(e, PossibleAlgos, 2) == ["Naive Bayes"];
    assert DecodeUpTo(e, PossibleAlgos, 3) == ["Naive Bayes", "Random Forest"];
    assert DecodeUpTo(e, PossibleAlgos, 4) == ["Naive Bayes", "Random Forest"];
    assert DecodeUpTo(e, PossibleAlgos, 5) == ["Naive Bayes", "Random Forest"];
    assert DecodeUpTo(e, PossibleAlgos, 6) == ["Naive Bayes", "Random Forest"];
  }
}
