/**
 * Isomorphism: the Weisfeiler-Lehman rejection test `maybeIsomorphic`.
 *
 * Two graphs with different node or link counts are rejected at once. Then
 * both graphs are refined round by round, at most once per node; a round in
 * which the two word counts differ rejects the pair, and a round in which no
 * node of either graph changed its label ends the test with "maybe".
 *
 * As written, every `computeLabels` call gets no dictionary and so works
 * against a fresh private one: the codes of the two graphs are numbered
 * independently, in the order each graph's nodes are visited, and can name
 * different signatures. `MaybeIsomorphic` models that; `MaybeIsomorphicShared`
 * refines both graphs of a round against one dictionary, and only that
 * version is sound.
 */
module Isomorphism {
  import opened Wrappers
  import opened Labels
  import opened Graphs
  import opened Interning
  import opened Refinement

  /** Both graphs have previous labels, or neither has. */
  predicate Paired(a: Graph, b: Graph, prevA: Option<seq<string>>, prevB: Option<seq<string>>)
  {
    && (prevA.Some? <==> prevB.Some?)
    && (prevA.Some? ==> |prevA.value| == a.nodeCount && |prevB.value| == b.nodeCount)
  }

  /** One round of both graphs: with `shared`, `b` is refined against the
      dictionary `a` left behind; otherwise each against a fresh one. */
  function RoundPair(a: Graph, b: Graph, prevA: Option<seq<string>>, prevB: Option<seq<string>>, shared: bool)
    : (r: (Labelling, Labelling))
    requires ValidGraph(a) && ValidGraph(b) && Paired(a, b, prevA, prevB)
    ensures |r.0.labels| == a.nodeCount && |r.1.labels| == b.nodeCount
  {
    var ra := Refine(a, prevA, map[]);
    var rb := Refine(b, prevB, if shared then ra.dict else map[]);
    (ra.result, rb.result)
  }

  /** What one round does to the previous labels of both graphs. */
  type RoundFn = (Option<seq<string>>, Option<seq<string>>) -> (Labelling, Labelling)

  const NoLabels := Labelling([], [], [], map[])

  /** The rounds of the test on `a` and `b` as a function of the previous
      labels (previous labels that do not fit the graphs never occur). */
  function PairStep(a: Graph, b: Graph, shared: bool): RoundFn
  {
    (pa: Option<seq<string>>, pb: Option<seq<string>>) =>
      if ValidGraph(a) && ValidGraph(b) && Paired(a, b, pa, pb) then RoundPair(a, b, pa, pb, shared)
      else (NoLabels, NoLabels)
  }

  /** The outcome of the rounds still allowed (`remaining`), from the given
      previous labels, when every round is `step`. */
  function Rounds(step: RoundFn, prevA: Option<seq<string>>, prevB: Option<seq<string>>, remaining: nat): bool
    decreases remaining, 0
  {
    if remaining == 0 then true else After(step, prevA, prevB, step(prevA, prevB), remaining - 1)
  }

  /** The outcome once a round has given the labellings `pair`: a difference
      in word counts rejects, a round in which no label of either graph
      changed accepts, and otherwise the next round decides. */
  function After(
    step: RoundFn, prevA: Option<seq<string>>, prevB: Option<seq<string>>, pair: (Labelling, Labelling), remaining: nat)
    : bool
    decreases remaining, 1
  {
    var (la, lb) := pair;
    if la.wordCount != lb.wordCount then false
    else if prevA.Some? && prevB.Some? && la.labels == prevA.value && lb.labels == prevB.value then true
    else Rounds(step, Some(la.labels), Some(lb.labels), remaining)
  }

  /** The verdict of the test: `false` means "not isomorphic". */
  function Verdict(a: Graph, b: Graph, shared: bool): (r: bool)
    ensures a.nodeCount != b.nodeCount ==> !r
    ensures LinkCount(a) != LinkCount(b) ==> !r
  {
    if a.nodeCount != b.nodeCount then false
    else if LinkCount(a) != LinkCount(b) then false
    else Rounds(PairStep(a, b, shared), None, None, a.nodeCount)
  }

  // ---------------------------------------------------------------------
  // The imperative test
  // ---------------------------------------------------------------------

  /** The word-count comparison of one round: the sizes, then every word of
      `A` against `B` (`allBLabels.get(word) !== count`). */
  method SameWordCount(A: map<string, nat>, B: map<string, nat>) returns (same: bool)
    ensures same <==> A == B
  {
    if |B| != |A| {
      return false;
    }
    same := true;
    var rest := A.Keys;
    while rest != {}
      invariant rest <= A.Keys
      invariant same <==> forall w :: w in A && w !in rest ==> w in B && B[w] == A[w]
      decreases |rest|
    {
      var w :| w in rest;
      if w !in B || B[w] != A[w] {
        same := false;
      }
      rest := rest - {w};
    }
    if same {
      assert A.Keys <= B.Keys;
      assert |B.Keys - A.Keys| == |B.Keys| - |A.Keys| == 0;
      assert A.Keys == B.Keys;
    }
  }

  /** Whether some node's label differs from its previous one, looking at
      the nodes in order and stopping at the first change. */
  method AnyChanged(prev: seq<string>, labels: seq<string>, changedBefore: bool) returns (changed: bool)
    requires |prev| == |labels|
    ensures changed <==> changedBefore || prev != labels
  {
    changed := changedBefore;
    var v := 0;
    while v < |labels|
      invariant 0 <= v <= |labels|
      invariant changed <==> changedBefore || exists u :: 0 <= u < v && prev[u] != labels[u]
    {
      if !changed && prev[v] != labels[v] {
        changed := true;
      }
      v := v + 1;
    }
    if prev != labels {
      assert exists u :: 0 <= u < |labels| && prev[u] != labels[u];
    }
  }

  /** The rounds of the test: `shared` chooses whether both graphs of a round
      are refined against one dictionary (`true`) or each against a fresh
      private one, as `computeLabels(graph, prevLabels)` does (`false`). */
  method CompareRounds(a: Graph, b: Graph, shared: bool) returns (result: bool)
    requires ValidGraph(a) && ValidGraph(b)
    ensures result == Verdict(a, b, shared)
  {
    if a.nodeCount != b.nodeCount {
      return false;
    }
    if LinkCount(a) != LinkCount(b) {
      return false;
    }
    ghost var step := PairStep(a, b, shared);
    var prevA: Option<seq<string>> := None;
    var prevB: Option<seq<string>> := None;
    var i := 0;
    while i < a.nodeCount
      invariant 0 <= i <= a.nodeCount
      invariant Paired(a, b, prevA, prevB)
      invariant Verdict(a, b, shared) == Rounds(step, prevA, prevB, a.nodeCount - i)
    {
      var dict := new Dictionary();
      var la := ComputeLabels(a, prevA, if shared then dict else null);
      var lb := ComputeLabels(b, prevB, if shared then dict else null);
      assert (la, lb) == step(prevA, prevB);
      var same := SameWordCount(la.wordCount, lb.wordCount);
      if !same {
        return false;
      }
      if prevA.Some? {
        var changed := AnyChanged(prevA.value, la.labels, false);
        changed := AnyChanged(prevB.value, lb.labels, changed);
        if !changed {
          break;
        }
      }
      prevA := Some(la.labels);
      prevB := Some(lb.labels);
      i := i + 1;
    }
    return true;
  }

  /** `maybeIsomorphic(graphA, graphB)` as written: each graph refined
      against its own fresh dictionary every round. */
  method MaybeIsomorphic(a: Graph, b: Graph) returns (result: bool)
    requires ValidGraph(a) && ValidGraph(b)
    ensures result == Verdict(a, b, false)
    ensures a.nodeCount != b.nodeCount || LinkCount(a) != LinkCount(b) ==> !result
  {
    result := CompareRounds(a, b, false);
  }

  /** The test with one dictionary shared by both graphs in every round. */
  method MaybeIsomorphicShared(a: Graph, b: Graph) returns (result: bool)
    requires ValidGraph(a) && ValidGraph(b)
    ensures result == Verdict(a, b, true)
    ensures a.nodeCount != b.nodeCount || LinkCount(a) != LinkCount(b) ==> !result
  {
    result := CompareRounds(a, b, true);
  }

  // ---------------------------------------------------------------------
  // Properties
  // ---------------------------------------------------------------------

  /** Rounds that treat both sides alike never reject. */
  lemma {:induction false} RoundsReflexive(step: RoundFn, prev: Option<seq<string>>, remaining: nat)
    requires forall p :: step(p, p).0 == step(p, p).1
    ensures Rounds(step, prev, prev, remaining)
    decreases remaining
  {
    if remaining > 0 {
      RoundsReflexive(step, Some(step(prev, prev).0.labels), remaining - 1);
    }
  }

  /** Both graphs of a round refined the same way give the same labelling. */
  lemma RoundPairSelf(g: Graph, prev: Option<seq<string>>, shared: bool)
    requires ValidGraph(g) && Paired(g, g, prev, prev)
    ensures RoundPair(g, g, prev, prev, shared).0 == RoundPair(g, g, prev, prev, shared).1
  {
    if shared {
      RefineAgain(g, prev, map[]);
    }
  }

  /** Refining a graph again against the dictionary its own refinement left
      behind gives the same labelling. */
  lemma RefineAgain(g: Graph, prev: Option<seq<string>>, d0: map<string, string>)
    requires ValidGraph(g) && (prev.Some? ==> |prev.value| == g.nodeCount)
    ensures var r := Refine(g, prev, d0); Refine(g, prev, r.dict) == r
  {
    IsomorphismReflexive(g);
    var p := Identity(g.nodeCount);
    RefineIsomorphicShared(g, g, p, p, prev, prev, d0);
    var ra := Refine(g, prev, d0);
    var rb := Refine(g, prev, ra.dict);
    assert rb.result.labels == ra.result.labels;
  }

  /** A graph is always "maybe isomorphic" to itself, in either version. */
  lemma MaybeIsomorphicReflexive(g: Graph, shared: bool)
    requires ValidGraph(g)
    ensures Verdict(g, g, shared)
  {
    var step := PairStep(g, g, shared);
    forall p ensures step(p, p).0 == step(p, p).1 {
      if Paired(g, g, p, p) {
        RoundPairSelf(g, p, shared);
      }
    }
    RoundsReflexive(step, None, g.nodeCount);
  }

  /** The previous labels of `b` are those of `a` renamed by `p` (or neither
      graph has any yet). */
  predicate Renamed(p: seq<Node>, prevA: Option<seq<string>>, prevB: Option<seq<string>>)
  {
    || (prevA.None? && prevB.None?)
    || (&& prevA.Some? && prevB.Some?
        && |prevA.value| == |p| && |prevB.value| == |p|
        && forall u :: 0 <= u < |p| ==> p[u] < |p| && prevB.value[p[u]] == prevA.value[u])
  }

  /** A round's labellings agree in their word counts and are related by the
      renaming `p`. */
  predicate Agree(p: seq<Node>, pair: (Labelling, Labelling))
  {
    pair.0.wordCount == pair.1.wordCount && Renamed(p, Some(pair.0.labels), Some(pair.1.labels))
  }

  /** Rounds that keep the labels of the two sides related by a renaming,
      with equal word counts, never reject. */
  lemma {:induction false} RoundsRenamed(
    step: RoundFn, p: seq<Node>, prevA: Option<seq<string>>, prevB: Option<seq<string>>, remaining: nat)
    requires forall pa, pb {:trigger step(pa, pb)} :: Renamed(p, pa, pb) ==> Agree(p, step(pa, pb))
    requires Renamed(p, prevA, prevB)
    ensures Rounds(step, prevA, prevB, remaining)
    decreases remaining
  {
    if remaining > 0 {
      var (la, lb) := step(prevA, prevB);
      RoundsRenamed(step, p, Some(la.labels), Some(lb.labels), remaining - 1);
    }
  }

  /** The shared-dictionary test never rejects isomorphic graphs: a `false`
      verdict proves that the graphs are not isomorphic. */
  lemma MaybeIsomorphicSharedSound(a: Graph, b: Graph, p: seq<Node>, q: seq<Node>)
    requires Isomorphism(a, b, p, q)
    ensures Verdict(a, b, true)
  {
    IsomorphismCounts(a, b, p, q);
    var step := PairStep(a, b, true);
    forall pa, pb | Renamed(p, pa, pb) ensures Agree(p, step(pa, pb)) {
      assert Paired(a, b, pa, pb);
      RefineIsomorphicShared(a, b, p, q, pa, pb, map[]);
    }
    RoundsRenamed(step, p, None, None, a.nodeCount);
  }

  // ---------------------------------------------------------------------
  // The version with private dictionaries rejects isomorphic graphs
  // ---------------------------------------------------------------------

  /** The path 0 - 1 - 2. */
  function PathA(): Graph
  {
    Graph(3, [Link(0, 1), Link(1, 2)])
  }

  /** The same path with nodes 0 and 1 swapped: 1 - 0 - 2. */
  function PathB(): Graph
  {
    Graph(3, [Link(1, 0), Link(0, 2)])
  }

  lemma PathsValid()
    ensures ValidGraph(PathA()) && PathA().nodeCount == 3
    ensures ValidGraph(PathB()) && PathB().nodeCount == 3
  {
  }

  /** The neighbour labels of a node in a graph with two links. */
  lemma TwoLinks(l0: Link, l1: Link, prev: seq<string>, v: Node)
    requires l0.from < |prev| && l0.to < |prev| && l1.from < |prev| && l1.to < |prev|
    ensures Within([l0, l1], |prev|)
    ensures NeighbourLabels([l0, l1], prev, v) == LinkLabel(l0, prev, v) + LinkLabel(l1, prev, v)
  {
    var links := [l0, l1];
    assert links[..1] == [l0];
    assert [l0][..0] == [];
    assert NeighbourLabels([l0], prev, v) == LinkLabel(l0, prev, v);
  }

  /** Sorting one or two copies of the initial label changes nothing. */
  lemma SortInitial()
    ensures SortLabels(["1"]) == ["1"]
    ensures SortLabels(["1", "1"]) == ["1", "1"]
    ensures Join(["1"]) == "1" && Join(["1", "1"]) == "11"
  {
    assert ["1", "1"][..1] == ["1"];
    assert LexLe("1", "1");
  }

  /** A list of three labels is determined by its elements. */
  lemma ThreeLabels(r: seq<string>, x: string, y: string, z: string)
    requires |r| == 3 && r[0] == x && r[1] == y && r[2] == z
    ensures r == [x, y, z]
  {
  }

  /** The first round from the initial labelling, with a fresh dictionary,
      counts the codes its signatures intern to. */
  lemma FirstRoundCounts(g: Graph, sigs: seq<string>, codes: seq<string>)
    requires ValidGraph(g)
    requires Signatures(g, InitialLabels(g.nodeCount)) == sigs
    requires InternAll(sigs, map[]).codes == codes
    ensures Refine(g, None, map[]).result.wordCount == WordCount(codes)
  {
  }

  /** Node `v`'s signature from the initial labelling when its two
      potential neighbours contribute `k0` and `k1` labels. */
  lemma InitialSignature(g: Graph, v: Node, sig: string)
    requires ValidGraph(g) && g.nodeCount == 3 && |g.links| == 2 && v < 3
    requires var init := ["1", "1", "1"];
      sig == "1" + Join(SortLabels(LinkLabel(g.links[0], init, v) + LinkLabel(g.links[1], init, v)))
    ensures Signature(g, InitialLabels(3), v) == sig
  {
    var init := InitialLabels(3);
    assert init == ["1", "1", "1"];
    assert g.links == [g.links[0], g.links[1]];
    TwoLinks(g.links[0], g.links[1], init, v);
    var around := LinkLabel(g.links[0], init, v) + LinkLabel(g.links[1], init, v);
    assert NeighbourLabels(g.links, init, v) == around;
    assert Signature(g, init, v) == init[v] + Join(SortLabels(around));
  }

  lemma PathSignaturesA()
    ensures Signatures(PathA(), InitialLabels(3)) == ["11", "111", "11"]
  {
    PathsValid();
    SortInitial();
    InitialSignature(PathA(), 0, "11");
    InitialSignature(PathA(), 1, "111");
    InitialSignature(PathA(), 2, "11");
    ThreeLabels(Signatures(PathA(), InitialLabels(3)), "11", "111", "11");
  }

  lemma PathSignaturesB()
    ensures Signatures(PathB(), InitialLabels(3)) == ["111", "11", "11"]
  {
    PathsValid();
    SortInitial();
    InitialSignature(PathB(), 0, "111");
    InitialSignature(PathB(), 1, "11");
    InitialSignature(PathB(), 2, "11");
    ThreeLabels(Signatures(PathB(), InitialLabels(3)), "111", "11", "11");
  }

  /** Resolving "11", "111", "11" in a fresh dictionary. */
  lemma PathCodesA()
    ensures InternAll(["11", "111", "11"], map[]).codes == ["1", "2", "1"]
  {
    assert Code(1) == "1" && Code(2) == "2";
    InternThree("11", "111", "11");
  }

  /** Resolving "111", "11", "11" in a fresh dictionary. */
  lemma PathCodesB()
    ensures InternAll(["111", "11", "11"], map[]).codes == ["1", "2", "2"]
  {
    assert Code(1) == "1" && Code(2) == "2";
    InternThree("111", "11", "11");
  }

  /** The first round of the first path against a fresh dictionary. */
  lemma PathRoundA()
    ensures Refine(PathA(), None, map[]).result.wordCount == WordCount(["1", "2", "1"])
  {
    PathsValid();
    PathSignaturesA();
    PathCodesA();
    FirstRoundCounts(PathA(), ["11", "111", "11"], ["1", "2", "1"]);
  }

  /** The first round of the second path against a fresh dictionary. */
  lemma PathRoundB()
    ensures Refine(PathB(), None, map[]).result.wordCount == WordCount(["1", "2", "2"])
  {
    PathsValid();
    PathSignaturesB();
    PathCodesB();
    FirstRoundCounts(PathB(), ["111", "11", "11"], ["1", "2", "2"]);
  }

  /** The two first rounds count the code "1" differently. */
  lemma PathCountsDiffer()
    ensures WordCount(["1", "2", "1"]) != WordCount(["1", "2", "2"])
  {
    var ca, cb := ["1", "2", "1"], ["1", "2", "2"];
    assert multiset(ca)["1"] == 2 && multiset(cb)["1"] == 1;
    assert "1" in ca && "1" in cb;
    assert WordCount(ca)["1"] != WordCount(cb)["1"];
  }

  /** When the first rounds against private dictionaries already count
      differently, the test as written answers "not isomorphic". */
  lemma FirstRoundRejects(a: Graph, b: Graph)
    requires ValidGraph(a) && ValidGraph(b)
    requires a.nodeCount == b.nodeCount && LinkCount(a) == LinkCount(b) && a.nodeCount > 0
    requires Refine(a, None, map[]).result.wordCount != Refine(b, None, map[]).result.wordCount
    ensures !Verdict(a, b, false)
  {
    var step := PairStep(a, b, false);
    var pair := step(None, None);
    assert pair == RoundPair(a, b, None, None, false);
    assert pair.0.wordCount != pair.1.wordCount;
    assert !After(step, None, None, pair, a.nodeCount - 1);
    assert Verdict(a, b, false) == Rounds(step, None, None, a.nodeCount);
  }

  /** The two paths are isomorphic by swapping nodes 0 and 1. */
  lemma PathsIsomorphic()
    ensures Isomorphism(PathA(), PathB(), [1, 0, 2], [1, 0, 2])
  {
    assert RenameLinks(PathA().links, [1, 0, 2]) == PathB().links;
  }

  /** Swapping nodes 0 and 1 maps the first path onto the second, yet the
      test as written answers "not isomorphic": in the first round the path
      visited from its end numbers the end signature "11" as "1" and the
      middle "111" as "2", giving counts {"1": 2, "2": 1}, while the path
      visited from its middle numbers "111" as "1" and gives {"1": 1, "2": 2}.
      The shared-dictionary version accepts the pair. */
  lemma PrivateDictionariesRejectIsomorphicPaths()
    ensures Isomorphism(PathA(), PathB(), [1, 0, 2], [1, 0, 2])
    ensures !Verdict(PathA(), PathB(), false)
    ensures Verdict(PathA(), PathB(), true)
  {
    PathsValid();
    PathsIsomorphic();
    PathRoundA();
    PathRoundB();
    PathCountsDiffer();
    FirstRoundRejects(PathA(), PathB());
    MaybeIsomorphicSharedSound(PathA(), PathB(), [1, 0, 2], [1, 0, 2]);
  }
}
