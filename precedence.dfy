/**
 * KernelPrecedence: two graphs on which `updateKernels`, with line 156 as
 * written, loses a kernel entry.
 *
 * The graphs are the single edge 0 - 1 and the path 0 - 1 - 2, refined
 * twice against one dictionary. In the first round both nodes of the edge
 * and both ends of the path have the signature "11" and get the code "1";
 * the middle of the path gets "2", so the path's kernel entry for "1" is 2.
 * In the second round the edge's nodes have the signature "11" again and
 * keep the code "1", while no node of the path has it. So "1" is among the
 * words of the second round, the path does not count it, and
 * `(2 + undefined) || 0` overwrites the path's entry with 0.
 */
module KernelPrecedence {
  import opened Wrappers
  import opened Labels
  import opened Graphs
  import opened Interning
  import opened Refinement
  import opened Kernels
  import opened Isomorphism

  /** The single edge 0 - 1. */
  function Edge(): Graph
  {
    Graph(2, [Link(0, 1)])
  }

  /** `g` is the single edge 0 - 1, described link by link. */
  predicate IsEdge(g: Graph)
  {
    g.nodeCount == 2 && |g.links| == 1 && g.links[0] == Link(0, 1)
  }

  /** `g` is the path 0 - 1 - 2, described link by link. */
  predicate IsPath(g: Graph)
  {
    g.nodeCount == 3 && |g.links| == 2 && g.links[0] == Link(0, 1) && g.links[1] == Link(1, 2)
  }

  /** One label sorts and joins to itself. */
  lemma {:induction false} SortOne(x: string)
    ensures SortLabels([x]) == [x] && Join([x]) == x
  {
    assert [x][..0] == [];
    assert [x][1..] == [];
  }

  /** Two equal labels sort to themselves and join to their concatenation. */
  lemma {:induction false} SortTwins(x: string)
    ensures SortLabels([x, x]) == [x, x] && Join([x, x]) == x + x
  {
    SortOne(x);
    LexLeReflexive(x);
    assert [x, x][..1] == [x];
    assert [x, x][1..] == [x];
  }

  /** The edge from labels `[x, x]`: both signatures are `x + x`. */
  lemma {:induction false} EdgeSignatures(g: Graph, x: string)
    requires IsEdge(g)
    ensures ValidGraph(g)
    ensures Signatures(g, [x, x]) == [x + x, x + x]
  {
    var p := [x, x];
    assert g.links == [g.links[0]];
    NeighbourLabelsSingle(g.links[0], p, 0);
    NeighbourLabelsSingle(g.links[0], p, 1);
    SortOne(x);
    var s := Signatures(g, p);
    assert s[0] == x + x && s[1] == x + x;
  }

  /** The path from labels `[x, y, x]`: the ends have the signature `x + y`,
      the middle `y + x + x`. */
  lemma {:induction false} PathSignatures(g: Graph, x: string, y: string)
    requires IsPath(g)
    ensures ValidGraph(g)
    ensures Signatures(g, [x, y, x]) == [x + y, y + (x + x), x + y]
  {
    var p := [x, y, x];
    assert g.links == [g.links[0], g.links[1]];
    TwoLinks(g.links[0], g.links[1], p, 0);
    TwoLinks(g.links[0], g.links[1], p, 1);
    TwoLinks(g.links[0], g.links[1], p, 2);
    SortOne(y);
    SortTwins(x);
    var s := Signatures(g, p);
    ThreeLabels(s, x + y, y + (x + x), x + y);
  }

  /** Interning the same signature twice into a fresh dictionary. */
  lemma {:induction false} InternTwice(s: string)
    ensures InternAll([s, s], map[]) == Interned([Code(1), Code(1)], map[s := Code(1)])
  {
    InternAllSnoc([], s, map[]);
    Snoc([], s);
    assert InternAll([s], map[]) == Interned([Code(1)], map[s := Code(1)]);
    InternAllSnoc([s], s, map[]);
    Snoc([s], s);
    Snoc([Code(1)], Code(1));
  }

  /** Interning `s, t, s` when only `s` is known: `t` gets the second code. */
  lemma {:induction false} InternAround(s: string, t: string)
    requires s != t
    ensures InternAll([s, t, s], map[s := Code(1)]) ==
      Interned([Code(1), Code(2), Code(1)], map[s := Code(1), t := Code(2)])
  {
    var d1 := map[s := Code(1)];
    assert d1.Keys == {s};
    InternAllSnoc([], s, d1);
    Snoc([], s);
    assert InternAll([s], d1) == Interned([Code(1)], d1);
    InternAllSnoc([s], t, d1);
    Snoc([s], t);
    Snoc([Code(1)], Code(2));
    var d2 := map[s := Code(1), t := Code(2)];
    assert InternAll([s, t], d1) == Interned([Code(1), Code(2)], d2);
    InternAllSnoc([s, t], s, d1);
    Snoc([s, t], s);
    Snoc([Code(1), Code(2)], Code(1));
  }

  /** Signatures that avoid a known signature `s` never receive its code. */
  lemma {:induction false} AvoidsCode(sigs: seq<string>, d: map<string, string>, s: string)
    requires WellNumbered(d) && s in d && s !in sigs
    ensures d[s] !in InternAll(sigs, d).codes
  {
  }

  /** The dictionary after the first round. */
  function FirstDictionary(): map<string, string>
  {
    map["11" := "1", "111" := "2"]
  }

  /** The texts of the first two codes and of the first round's
      signatures. */
  lemma {:induction false} LiteralCodes()
    ensures Code(1) == "1" && Code(2) == "2"
    ensures InitialLabel + InitialLabel == "11"
    ensures InitialLabel + (InitialLabel + InitialLabel) == "111"
    ensures "11" != "111"
  {
    assert "11"[2..] != "111"[2..];
  }

  /** The edge refined from the initial labelling against a fresh
      dictionary: both nodes get the code "1" of the signature "11". */
  lemma {:induction false} EdgeFreshRound(g: Graph, d: map<string, string>)
    requires IsEdge(g) && d == map[]
    ensures ValidGraph(g)
    ensures var R := Refine(g, None, d);
      R.result.labels == ["1", "1"] && R.dict == map["11" := "1"]
  {
    var x := InitialLabel;
    LiteralCodes();
    assert InitialLabels(2) == [x, x];
    EdgeSignatures(g, x);
    InternTwice(x + x);
  }

  /** The path refined from the initial labelling when only "11" is known:
      the ends get its code "1", the middle the new code "2" of "111". */
  lemma {:induction false} PathFreshRound(g: Graph, d: map<string, string>)
    requires IsPath(g) && d == map["11" := "1"]
    ensures ValidGraph(g)
    ensures var R := Refine(g, None, d);
      R.result.labels == ["1", "2", "1"] && R.dict == FirstDictionary()
  {
    var x := InitialLabel;
    LiteralCodes();
    assert InitialLabels(3) == [x, x, x];
    PathSignatures(g, x, x);
    InternAround(x + x, x + (x + x));
  }

  /** The edge refined from `[x, x]` when `x + x` is known keeps the code of
      `x + x` on both nodes and adds nothing. */
  lemma {:induction false} EdgeKnownRound(g: Graph, x: string, d: map<string, string>)
    requires IsEdge(g) && x + x in d
    ensures ValidGraph(g)
    ensures var R := Refine(g, Some([x, x]), d);
      R.result.labels == [d[x + x], d[x + x]] && R.dict == d
  {
    EdgeSignatures(g, x);
    var sigs := [x + x, x + x];
    InternAllKnown(sigs, d);
    var r := InternAll(sigs, d);
    assert r.codes == [d[x + x], d[x + x]];
    assert PreviousLabels(g, Some([x, x])) == [x, x];
    assert Refine(g, Some([x, x]), d).dict == r.dict;
  }

  /** The path refined from `[x, y, x]` gives no node the code of a known
      signature `s` that none of its signatures equals. */
  lemma {:induction false} PathAvoidingRound(g: Graph, x: string, y: string, d: map<string, string>, s: string)
    requires IsPath(g) && WellNumbered(d) && s in d
    requires x + y != s && y + (x + x) != s
    ensures ValidGraph(g)
    ensures var R := Refine(g, Some([x, y, x]), d);
      d[s] !in R.result.labels && |R.result.labels| == 3
  {
    PathSignatures(g, x, y);
    AvoidsCode([x + y, y + (x + x), x + y], d, s);
  }

  /** The first dictionary numbers its two signatures 1 and 2. */
  lemma {:induction false} FirstDictionaryNumbered()
    ensures WellNumbered(FirstDictionary())
  {
    var d := FirstDictionary();
    assert Code(1) == "1" && Code(2) == "2";
    DecodeCode(1);
    DecodeCode(2);
    assert d.Keys == {"11", "111"};
    assert "11"[2..] != "111"[2..];
  }

  /** The first dictionary holds "11" with the code "1", and the signatures
      of the path's second round, "12" and "211", differ from "11". */
  lemma {:induction false} SecondRoundSignatures()
    ensures "11" in FirstDictionary() && FirstDictionary()["11"] == "1" && "1" + "1" == "11"
    ensures "1" + "2" != "11" && "2" + ("1" + "1") != "11"
  {
    assert ("1" + "2")[1] != "11"[1];
    assert |"2" + ("1" + "1")| != |"11"|;
  }

  /** One round over two graphs refines the first, then the second against
      the dictionary the first left behind. */
  lemma {:induction false} SweepTwo(
    graphs: seq<Graph>, prevs: seq<Option<seq<string>>>, d: map<string, string>,
    r0: Round, r1: Round)
    requires AllValid(graphs) && Fits(graphs, prevs) && |graphs| == 2
    requires Refine(graphs[0], prevs[0], d) == r0
    requires Refine(graphs[1], prevs[1], r0.dict) == r1
    ensures Sweep(graphs, prevs, d, 2) == Pass([r0.result, r1.result], r1.dict)
  {
    SweepNext(graphs, prevs, d, 0, [], d, r0.result, r0.dict);
    Snoc([], r0.result);
    SweepNext(graphs, prevs, d, 1, [r0.result], r0.dict, r1.result, r1.dict);
    Snoc([r0.result], r1.result);
  }

  /** One more iteration over two graphs: the first is refined against the
      dictionary so far, the second against what the first left behind. */
  lemma {:induction false} IterateTwoGraphs(
    graphs: seq<Graph>, t: nat, passes: seq<seq<Labelling>>, d: map<string, string>,
    e: Round, p: Round)
    requires AllValid(graphs) && |graphs| == 2
    requires Iterate(graphs, t) == History(passes, d)
    requires Refine(graphs[0], PrevsAfter(graphs, passes)[0], d) == e
    requires Refine(graphs[1], PrevsAfter(graphs, passes)[1], e.dict) == p
    ensures Iterate(graphs, t + 1) == History(passes + [[e.result, p.result]], p.dict)
  {
    SweepTwo(graphs, PrevsAfter(graphs, passes), d, e, p);
    IterateNext(graphs, t, passes, d, [e.result, p.result], p.dict);
  }

  /** The first round over the edge and then the path, from a fresh
      dictionary. */
  lemma {:induction false} FirstRounds(edge: Graph, path: Graph) returns (e: Round, p: Round)
    requires IsEdge(edge) && IsPath(path)
    ensures ValidGraph(edge) && ValidGraph(path)
    ensures e == Refine(edge, None, map[]) && p == Refine(path, None, e.dict)
    ensures e.result.labels == ["1", "1"] && p.result.labels == ["1", "2", "1"]
    ensures p.dict == FirstDictionary()
  {
    EdgeFreshRound(edge, map[]);
    e := Refine(edge, None, map[]);
    PathFreshRound(path, e.dict);
    p := Refine(path, None, e.dict);
  }

  /** The second round, against a dictionary that numbers its signatures and
      gives "11" the code "1": the edge keeps "1", the path loses it. */
  lemma {:induction false} SecondRounds(edge: Graph, path: Graph, d: map<string, string>) returns (e: Round, p: Round)
    requires IsEdge(edge) && IsPath(path)
    requires WellNumbered(d) && "11" in d && d["11"] == "1"
    ensures ValidGraph(edge) && ValidGraph(path)
    ensures e == Refine(edge, Some(["1", "1"]), d) && p == Refine(path, Some(["1", "2", "1"]), e.dict)
    ensures "1" in e.result.labels && "1" !in p.result.labels
  {
    var x, y, s := "1", "2", "11";
    SecondRoundSignatures();
    EdgeKnownRound(edge, x, d);
    e := Refine(edge, Some([x, x]), d);
    PathAvoidingRound(path, x, y, d, s);
    p := Refine(path, Some([x, y, x]), e.dict);
  }

  /** A kernel sum over one or two rounds. */
  lemma {:induction false} KernelSumTwo(r1: seq<Labelling>, r2: seq<Labelling>, k: nat, w: string)
    ensures KernelSum([r1], k, w) == CountIn(r1, k, w)
    ensures KernelSum([r1, r2], k, w) == CountIn(r1, k, w) + CountIn(r2, k, w)
  {
    assert [r1][..0] == [];
    assert [r1, r2][..1] == [r1];
  }

  /** Two valid graphs make a valid list. */
  lemma {:induction false} BothValid(graphs: seq<Graph>)
    requires |graphs| == 2 && ValidGraph(graphs[0]) && ValidGraph(graphs[1])
    ensures AllValid(graphs)
  {
    forall k | 0 <= k < 2 ensures ValidGraph(graphs[k]) {
      if k == 1 { assert graphs[k] == graphs[1]; }
    }
  }

  /** A round's word counts count its labels. */
  lemma {:induction false} RefineCounts(g: Graph, prev: Option<seq<string>>, d: map<string, string>)
    requires ValidGraph(g)
    requires prev.Some? ==> |prev.value| == g.nodeCount
    ensures var r := Refine(g, prev, d).result; r.wordCount == WordCount(r.labels)
  {
  }

  /** After two rounds, the word "1" is counted by the first graph in the
      second round (so it is one of that round's words) but not by the
      second graph, whose summed count for it is 2 after either round; the
      kernel entry read as intended is that 2, and read as written it is 0. */
  predicate UpdateLosesCount(passes: seq<seq<Labelling>>)
  {
    && |passes| == 2 && |passes[1]| == 2
    && "1" in passes[1][0].wordCount
    && "1" in PassStream(passes[1])
    && "1" !in passes[1][1].wordCount
    && KernelSum(passes[..1], 1, "1") == 2
    && KernelSum(passes, 1, "1") == 2
    && KernelValue(Intended, passes, 1, "1") == 2
    && KernelValue(AsWritten, passes, 1, "1") == 0
  }

  /** Over two rounds in which the second graph counts "1" twice and then not
      at all while the first graph has it in the second round, "1" is a word
      of that round, the second graph's kernel entry for "1" is 2 read as
      intended, and the update as written turns that 2 into 0. */
  lemma {:induction false} LostCount(round1: seq<Labelling>, round2: seq<Labelling>)
    requires |round1| == 2 && |round2| == 2
    requires round1[1].labels == ["1", "2", "1"]
    requires round1[1].wordCount == WordCount(round1[1].labels)
    requires "1" in round2[0].labels && round2[0].wordCount == WordCount(round2[0].labels)
    requires "1" !in round2[1].labels && round2[1].wordCount == WordCount(round2[1].labels)
    ensures UpdateLosesCount([round1, round2])
  {
    var x := "1";
    assert multiset(round1[1].labels)[x] == 2;
    KernelSumTwo(round1, round2, 1, x);
    assert [round1, round2][..1] == [round1];
    LostValue(round1, round2, x);
  }

  /** The kernel entry of the second graph for `x` over the two rounds: the
      first round sets it to the count, and the second round, in which only
      the first graph counts `x`, keeps it (as intended) or resets it (as
      written). */
  lemma {:induction false} LostValue(round1: seq<Labelling>, round2: seq<Labelling>, x: string)
    requires |round1| == 2 && |round2| == 2
    requires x in round1[1].labels && x in round1[1].wordCount
    requires x in round2[0].labels && x !in round2[1].wordCount
    ensures KernelValue(Intended, [round1, round2], 1, x) == round1[1].wordCount[x]
    ensures KernelValue(AsWritten, [round1, round2], 1, x) == 0
  {
    assert x in PassStream(round1);
    KernelValueNext(Intended, [], round1, 1, x);
    assert [] + [round1] == [round1] && [round1] + [round2] == [round1, round2];
    KernelValueAsWrittenReset([round1], round2, 1, x);
  }

  /** Two iterations over any two graphs whose four refinements have the
      shape of the edge and the path: the first then loses a count. */
  lemma {:induction false} LosesCountAfterTwo(graphs: seq<Graph>, e1: Round, p1: Round, e2: Round, p2: Round)
    requires AllValid(graphs) && |graphs| == 2
    requires Refine(graphs[0], None, map[]) == e1
    requires Refine(graphs[1], None, e1.dict) == p1
    requires Refine(graphs[0], Some(e1.result.labels), p1.dict) == e2
    requires Refine(graphs[1], Some(p1.result.labels), e2.dict) == p2
    requires p1.result.labels == ["1", "2", "1"]
    requires "1" in e2.result.labels && "1" !in p2.result.labels
    ensures UpdateLosesCount(Iterate(graphs, 2).passes)
  {
    RefineCounts(graphs[1], None, e1.dict);
    RefineCounts(graphs[0], Some(e1.result.labels), p1.dict);
    RefineCounts(graphs[1], Some(p1.result.labels), e2.dict);
    TwoIterations(graphs, e1, p1, e2, p2);
    LostCount([e1.result, p1.result], [e2.result, p2.result]);
  }

  /** Two iterations over two graphs, from their four refinements. */
  lemma {:induction false} TwoIterations(graphs: seq<Graph>, e1: Round, p1: Round, e2: Round, p2: Round)
    requires AllValid(graphs) && |graphs| == 2
    requires Refine(graphs[0], None, map[]) == e1
    requires Refine(graphs[1], None, e1.dict) == p1
    requires Refine(graphs[0], Some(e1.result.labels), p1.dict) == e2
    requires Refine(graphs[1], Some(p1.result.labels), e2.dict) == p2
    ensures Iterate(graphs, 2).passes == [[e1.result, p1.result], [e2.result, p2.result]]
  {
    var round1, round2 := [e1.result, p1.result], [e2.result, p2.result];
    assert Iterate(graphs, 0) == History([], map[]);
    IterateTwoGraphs(graphs, 0, [], map[], e1, p1);
    Snoc([], round1);
    IterateTwoGraphs(graphs, 1, [round1], p1.dict, e2, p2);
    Snoc([round1], round2);
  }

  /** Two rounds of `getGraphsWLKernels([edge, path], 2)`: the path counts
      the word "1" twice in the first round and not at all in the second,
      while the edge counts it in the second round, so "1" is a word of that
      round. Its kernel entry should stay 2; the update as written sets it
      to 0. */
  lemma {:induction false} PrecedenceLosesCount(graphs: seq<Graph>)
    requires |graphs| == 2 && graphs[0] == Edge() && graphs[1] == PathA()
    ensures AllValid(graphs)
    ensures UpdateLosesCount(Iterate(graphs, 2).passes)
  {
    assert IsEdge(graphs[0]) && IsPath(graphs[1]);
    var e1, p1 := FirstRounds(graphs[0], graphs[1]);
    BothValid(graphs);
    FirstDictionaryNumbered();
    SecondRoundSignatures();
    var e2, p2 := SecondRounds(graphs[0], graphs[1], p1.dict);
    LosesCountAfterTwo(graphs, e1, p1, e2, p2);
  }
}
