/**
 * GraphSimilarity: the Jaccard similarity of two graphs, from the kernels
 * `getGraphsWLKernels` computes for the pair.
 */
module GraphSimilarity {
  import opened Graphs
  import opened Refinement
  import opened Kernels
  import opened Similarity

  /** A kernel whose positions are exactly `0 .. n - 1`, read as the dense
      array it is in the source. */
  function Dense(kernel: Kernel, n: nat): (r: seq<int>)
    requires forall j: nat :: j in kernel <==> j < n
    ensures |r| == n
    ensures forall j :: 0 <= j < n ==> r[j] == kernel[j]
    ensures NonNegative(r)
  {
    seq(n, j requires 0 <= j < n => kernel[j] as int)
  }

  /** The kernel of graph `k` after the rounds of `passes`, one entry per
      word of `words`: that word's entry over all rounds, with line 156 of
      `updateKernels` read as `grouping` says. */
  function KernelVector(grouping: Grouping, passes: seq<seq<Labelling>>, k: nat, words: seq<string>): (r: seq<int>)
    ensures |r| == |words|
    ensures forall j :: 0 <= j < |words| ==> r[j] == KernelValue(grouping, passes, k, words[j])
    ensures NonNegative(r)
  {
    seq(|words|, j requires 0 <= j < |words| => KernelValue(grouping, passes, k, words[j]) as int)
  }

  /** Read as intended, the kernel vector holds each word's counts added up
      over all rounds; read as written, no entry exceeds that sum. */
  lemma KernelVectorSums(graphs: seq<Graph>, passes: seq<seq<Labelling>>, k: nat, words: seq<string>)
    requires Consistent(graphs, passes) && k < |graphs|
    ensures forall j :: 0 <= j < |words| ==> KernelVector(Intended, passes, k, words)[j] == KernelSum(passes, k, words[j])
    ensures forall j :: 0 <= j < |words| ==> KernelVector(AsWritten, passes, k, words)[j] <= KernelSum(passes, k, words[j])
  {
    forall j | 0 <= j < |words|
      ensures KernelVector(Intended, passes, k, words)[j] == KernelSum(passes, k, words[j])
      ensures KernelVector(AsWritten, passes, k, words)[j] <= KernelSum(passes, k, words[j])
    {
      KernelValueIntended(graphs, passes, k, words[j]);
      KernelValueAsWrittenBelow(passes, k, words[j]);
    }
  }

  /** A set holding exactly the numbers below `n` has `n` elements. */
  lemma {:induction false} RangeSize(s: set<nat>, n: nat)
    requires forall j: nat :: j in s <==> j < n
    ensures |s| == n
    decreases n
  {
    if n > 0 {
      var s' := s - {n - 1};
      RangeSize(s', n - 1);
      assert s == s' + {n - 1};
    }
  }

  /** `getGraphWLJaccardSimilarity(a, b, iterations)`, with line 156 of
      `updateKernels` read as `grouping` says (the source is `AsWritten`):
      the kernels of the pair, the array length of the first standing for
      the loop bound. The result is the Jaccard similarity of the two kernel
      vectors, so it is never infinite and, unless both vectors are zero
      (`NaN`), lies between 0 and 1. */
  method GetGraphWLJaccardSimilarity(a: Graph, b: Graph, iterations: nat, grouping: Grouping) returns (r: Number)
    requires AllValid([a, b])
    ensures var h := Iterate([a, b], iterations);
      var words := NewWords({}, WordStream(h.passes));
      r == Jaccard(KernelVector(grouping, h.passes, 0, words), KernelVector(grouping, h.passes, 1, words))
    ensures !r.Infinity?
    ensures r.Finite? ==> 0.0 <= r.value <= 1.0
  {
    var ws, words := GetGraphsWLKernels([a, b], iterations, grouping);
    ghost var passes := Iterate([a, b], iterations).passes;
    RangeSize(ws[0].kernel.Keys, |words|);
    var n := |ws[0].kernel|;
    var ka, kb := Dense(ws[0].kernel, n), Dense(ws[1].kernel, n);
    assert ka == KernelVector(grouping, passes, 0, words);
    assert kb == KernelVector(grouping, passes, 1, words);
    r := JaccardSimilarity(ka, kb);
    JaccardRange(ka, kb);
  }
}
