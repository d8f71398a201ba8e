/**
 * PrecedenceSimilarity: what the precedence of line 156 of `updateKernels`
 * does to `getGraphWLJaccardSimilarity` for the single edge and the path on
 * three nodes, over two iterations.
 *
 * The first round gives the edge the labels "1", "1" and the path "1", "2",
 * "1"; the second gives the edge "1", "1" again and the path the new codes
 * "3", "4", "3". The words are "1", "2", "3", "4" in that order. Read as
 * intended, the kernels are [4, 0, 0, 0] and [2, 1, 2, 1] and their Jaccard
 * similarity is 2 / 8. Read as written, the path's entry for "1" is reset in
 * the second round, its kernel is [0, 1, 2, 1], and the similarity is 0.
 */
module PrecedenceSimilarity {
  import opened Wrappers
  import opened Labels
  import opened Graphs
  import opened Interning
  import opened Refinement
  import opened Kernels
  import opened Similarity
  import opened GraphSimilarity
  import opened Isomorphism
  import opened KernelPrecedence

  /** Interning one unknown signature against a dictionary of two entries
      gives it the code "3". */
  lemma {:induction false} InternFirstNew(s: string, d: map<string, string>)
    requires s !in d && |d| == 2
    ensures InternAll([s], d) == Interned(["3"], d[s := "3"])
  {
    var w0: seq<string> := [];
    var w1 := w0 + [s];
    assert w1 == [s];
    InternAllSnoc(w0, s, d);
    assert Code(3) == "3";
  }

  /** Interning `s, t` when neither is known to a dictionary of two
      entries: `s` gets "3" and `t` gets "4". */
  lemma {:induction false} InternPairNew(s: string, t: string, d: map<string, string>)
    requires s !in d && t !in d && s != t && |d| == 2
    ensures InternAll([s, t], d).codes == ["3", "4"]
  {
    var w1 := [s];
    var w2 := w1 + [t];
    assert w2 == [s, t];
    InternFirstNew(s, d);
    InternAllSnoc(w1, t, d);
    var d1 := d[s := "3"];
    assert t !in d1 && |d1| == 3;
    assert Code(4) == "4";
  }

  /** Interning `s, t, s` when neither is known to a dictionary of two
      entries: `s` gets "3", `t` gets "4", and `s` keeps its "3". */
  lemma {:induction false} InternTwoNew(s: string, t: string, d: map<string, string>)
    requires s !in d && t !in d && s != t && |d| == 2
    ensures InternAll([s, t, s], d).codes == ["3", "4", "3"]
  {
    var w2 := [s, t];
    var w3 := w2 + [s];
    assert w3 == [s, t, s];
    InternPairNew(s, t, d);
    InternAllSnoc(w2, s, d);
  }

  /** The path refined from `[x, y, x]` against a dictionary of two entries
      that knows neither of its signatures `x + y` and `y + (x + x)`: they
      get the codes "3" and "4". */
  lemma {:induction false} PathFreshCodes(g: Graph, x: string, y: string, d: map<string, string>)
    requires IsPath(g) && x + y !in d && y + (x + x) !in d && x + y != y + (x + x) && |d| == 2
    ensures ValidGraph(g)
    ensures Refine(g, Some([x, y, x]), d).result.labels == ["3", "4", "3"]
  {
    PathSignatures(g, x, y);
    InternTwoNew(x + y, y + (x + x), d);
    assert PreviousLabels(g, Some([x, y, x])) == [x, y, x];
  }

  /** The path's second-round signatures "12" and "211" are new to the
      first dictionary, which holds two entries. */
  lemma {:induction false} SecondSignaturesNew()
    ensures "1" + "2" !in FirstDictionary() && "2" + ("1" + "1") !in FirstDictionary()
    ensures "1" + "2" != "2" + ("1" + "1")
    ensures |FirstDictionary()| == 2
  {
    var d := FirstDictionary();
    var s, t := "1" + "2", "2" + ("1" + "1");
    assert d.Keys == {"11", "111"};
    assert s[1] != "11"[1] && |s| != |"111"|;
    assert |t| != |"11"| && t[0] != "111"[0];
    assert |s| != |t|;
  }

  /** The path refined from `["1", "2", "1"]` against the first dictionary:
      its signatures "12", "211", "12" are new and get the codes "3", "4",
      "3". */
  lemma {:induction false} PathNewRound(g: Graph, d: map<string, string>)
    requires IsPath(g) && d == FirstDictionary()
    ensures ValidGraph(g)
    ensures Refine(g, Some(["1", "2", "1"]), d).result.labels == ["3", "4", "3"]
  {
    SecondSignaturesNew();
    PathFreshCodes(g, "1", "2", d);
  }

  /** The second round over the edge and the path, against the first
      dictionary: the edge keeps "1", "1" and the path gets "3", "4", "3". */
  lemma {:induction false} SecondRoundsExact(edge: Graph, path: Graph, d: map<string, string>)
    returns (e: Round, p: Round)
    requires IsEdge(edge) && IsPath(path) && d == FirstDictionary()
    ensures ValidGraph(edge) && ValidGraph(path)
    ensures e == Refine(edge, Some(["1", "1"]), d) && p == Refine(path, Some(["1", "2", "1"]), e.dict)
    ensures e.result.labels == ["1", "1"] && p.result.labels == ["3", "4", "3"]
  {
    SecondRoundSignatures();
    EdgeKnownRound(edge, "1", d);
    e := Refine(edge, Some(["1", "1"]), d);
    PathNewRound(path, e.dict);
    p := Refine(path, Some(["1", "2", "1"]), e.dict);
  }

  /** One more label in the order of the word counts. */
  lemma WordOrderStep(labels: seq<string>, c: string)
    ensures WordOrder(labels + [c]) == WordOrder(labels) + (if c in labels then [] else [c])
  {
    assert (labels + [c])[..|labels|] == labels;
  }

  /** One label is listed once. */
  lemma {:induction false} WordOrderOne(x: string)
    ensures WordOrder([x]) == [x]
  {
    var w0: seq<string> := [];
    var w1 := w0 + [x];
    assert w1 == [x];
    WordOrderStep(w0, x);
  }

  /** A label repeated twice is listed once. */
  lemma {:induction false} WordOrderTwins(x: string)
    ensures WordOrder([x, x]) == [x]
  {
    var w1 := [x];
    var w2 := w1 + [x];
    assert w2 == [x, x];
    WordOrderOne(x);
    WordOrderStep(w1, x);
    assert x in w1;
  }

  /** Two different labels are listed in order. */
  lemma {:induction false} WordOrderPair(x: string, y: string)
    requires x != y
    ensures WordOrder([x, y]) == [x, y]
  {
    var w1 := [x];
    var w2 := w1 + [y];
    assert w2 == [x, y];
    WordOrderOne(x);
    WordOrderStep(w1, y);
    assert y !in w1;
  }

  /** `x, y, x` lists `x`, then `y`. */
  lemma {:induction false} WordOrderAround(x: string, y: string)
    requires x != y
    ensures WordOrder([x, y, x]) == [x, y]
  {
    var w2 := [x, y];
    var w3 := w2 + [x];
    assert w3 == [x, y, x];
    WordOrderPair(x, y);
    WordOrderStep(w2, x);
    assert x in w2;
  }

  /** The words of a round over one graph. */
  lemma {:induction false} PassStreamOne(a: Labelling)
    ensures PassStream([a]) == WordOrder(a.labels)
  {
    var e: seq<Labelling> := [];
    PassStreamSnoc(e, a);
    assert e + [a] == [a];
  }

  /** The words of a round over two graphs: the first graph's, then the
      second's. */
  lemma {:induction false} PassStreamTwo(r: seq<Labelling>)
    requires |r| == 2
    ensures PassStream(r) == WordOrder(r[0].labels) + WordOrder(r[1].labels)
  {
    PassStreamOne(r[0]);
    PassStreamSnoc([r[0]], r[1]);
    assert [r[0]] + [r[1]] == r;
  }

  /** The word stream of one round. */
  lemma {:induction false} WordStreamOne(r1: seq<Labelling>)
    ensures WordStream([r1]) == PassStream(r1)
  {
    var e: seq<seq<Labelling>> := [];
    WordStreamSnoc(e, r1);
    assert e + [r1] == [r1];
  }

  /** The word stream of two rounds. */
  lemma {:induction false} WordStreamTwo(r1: seq<Labelling>, r2: seq<Labelling>)
    ensures WordStream([r1, r2]) == PassStream(r1) + PassStream(r2)
  {
    WordStreamOne(r1);
    WordStreamSnoc([r1], r2);
    assert [r1] + [r2] == [r1, r2];
  }

  /** One word is new to an empty index. */
  lemma {:induction false} NewWordsOne(x: string)
    ensures NewWords({}, [x]) == [x]
  {
    var w0: seq<string> := [];
    var w1 := w0 + [x];
    assert w1 == [x];
    NewWordsSnoc({}, w0, x);
  }

  /** A word seen twice is indexed once. */
  lemma {:induction false} NewWordsTwins(x: string)
    ensures NewWords({}, [x, x]) == [x]
  {
    var w1 := [x];
    var w2 := w1 + [x];
    assert w2 == [x, x];
    NewWordsOne(x);
    NewWordsSnoc({}, w1, x);
    assert x in w1;
  }

  /** `x, x, y` brings the new words `x` and `y`. */
  lemma {:induction false} FirstWords(x: string, y: string)
    requires x != y
    ensures NewWords({}, [x, x, y]) == [x, y]
  {
    var w2 := [x, x];
    var w3 := w2 + [y];
    assert w3 == [x, x, y];
    NewWordsTwins(x);
    NewWordsSnoc({}, w2, y);
    assert y !in w2;
  }

  /** `x, x, y, x` brings nothing after `x` and `y`. */
  lemma {:induction false} StreamFour(x: string, y: string)
    requires x != y
    ensures NewWords({}, [x, x, y, x]) == [x, y]
  {
    var w3 := [x, x, y];
    var w4 := w3 + [x];
    assert w4 == [x, x, y, x];
    FirstWords(x, y);
    NewWordsSnoc({}, w3, x);
    assert x in w3;
  }

  /** `x, x, y, x, s` brings `s` third. */
  lemma {:induction false} StreamFive(x: string, y: string, s: string)
    requires x != y && x != s && y != s
    ensures NewWords({}, [x, x, y, x, s]) == [x, y, s]
  {
    var w4 := [x, x, y, x];
    var w5 := w4 + [s];
    assert w5 == [x, x, y, x, s];
    StreamFour(x, y);
    NewWordsSnoc({}, w4, s);
    assert s !in w4;
  }

  /** The words the index numbers, from the stream `x, x, y, x, s, t`. */
  lemma {:induction false} IndexOrder(x: string, y: string, s: string, t: string)
    requires x != y && x != s && x != t && y != s && y != t && s != t
    ensures NewWords({}, [x, x, y, x, s, t]) == [x, y, s, t]
  {
    var w5 := [x, x, y, x, s];
    var w6 := w5 + [t];
    assert w6 == [x, x, y, x, s, t];
    StreamFive(x, y, s);
    NewWordsSnoc({}, w5, t);
    assert t !in w5;
  }

  /** A kernel entry over two rounds, spelled out. */
  lemma {:induction false} TwoRoundValue(grouping: Grouping, r1: seq<Labelling>, r2: seq<Labelling>, k: nat, w: string)
    ensures var v1 := if w in PassStream(r1) then Grow(grouping, 0, WordCountIn(r1, k), w) else 0;
      KernelValue(grouping, [r1, r2], k, w) ==
        if w in PassStream(r2) then Grow(grouping, v1, WordCountIn(r2, k), w) else v1
  {
    KernelValueNext(grouping, [], r1, k, w);
    KernelValueNext(grouping, [r1], r2, k, w);
    assert [] + [r1] == [r1];
    assert [r1] + [r2] == [r1, r2];
  }

  /** The counts of one label. */
  lemma {:induction false} CountOne(x: string)
    ensures WordCount([x]) == map[x := 1]
  {
    var w0: seq<string> := [];
    var w1 := w0 + [x];
    assert w1 == [x];
    WordCountSnoc(w0, x);
  }

  /** The counts of a label repeated twice. */
  lemma {:induction false} CountTwins(x: string)
    ensures WordCount([x, x]) == map[x := 2]
  {
    var w1 := [x];
    var w2 := w1 + [x];
    assert w2 == [x, x];
    CountOne(x);
    WordCountSnoc(w1, x);
  }

  /** The counts of two different labels. */
  lemma {:induction false} CountPair(x: string, y: string)
    requires x != y
    ensures WordCount([x, y]) == map[x := 1, y := 1]
  {
    var w1 := [x];
    var w2 := w1 + [y];
    assert w2 == [x, y];
    CountOne(x);
    WordCountSnoc(w1, y);
  }

  /** The counts of `x, y, x`. */
  lemma {:induction false} CountAround(x: string, y: string)
    requires x != y
    ensures WordCount([x, y, x]) == map[x := 2, y := 1]
  {
    var w2 := [x, y];
    var w3 := w2 + [x];
    assert w3 == [x, y, x];
    CountPair(x, y);
    WordCountSnoc(w2, x);
  }

  /** The words of the first round, edge then path. */
  lemma {:induction false} FirstStreams(r1: seq<Labelling>, x: string, y: string)
    requires x != y
    requires |r1| == 2 && r1[0].labels == [x, x] && r1[1].labels == [x, y, x]
    ensures PassStream(r1) == [x, x, y]
  {
    WordOrderTwins(x);
    WordOrderAround(x, y);
    PassStreamTwo(r1);
    assert [x] + [x, y] == [x, x, y];
  }

  /** The words of the second round, edge then path. */
  lemma {:induction false} SecondStreams(r2: seq<Labelling>, x: string, s: string, t: string)
    requires s != t
    requires |r2| == 2 && r2[0].labels == [x, x] && r2[1].labels == [s, t, s]
    ensures PassStream(r2) == [x, s, t]
  {
    WordOrderTwins(x);
    WordOrderAround(s, t);
    PassStreamTwo(r2);
    assert [x] + [s, t] == [x, s, t];
  }

  /** The words the index numbers over both rounds. */
  lemma {:induction false} StreamWords(r1: seq<Labelling>, r2: seq<Labelling>, x: string, y: string, s: string, t: string)
    requires x != y && x != s && x != t && y != s && y != t && s != t
    requires PassStream(r1) == [x, x, y] && PassStream(r2) == [x, s, t]
    ensures NewWords({}, WordStream([r1, r2])) == [x, y, s, t]
  {
    WordStreamTwo(r1, r2);
    assert [x, x, y] + [x, s, t] == [x, x, y, x, s, t];
    IndexOrder(x, y, s, t);
  }

  /** The word streams and counts of two rounds of the shape of the edge and
      the path. */
  lemma {:induction false} EdgePathStreams(
    r1: seq<Labelling>, r2: seq<Labelling>, x: string, y: string, s: string, t: string)
    requires x != y && x != s && x != t && y != s && y != t && s != t
    requires |r1| == 2 && |r2| == 2
    requires r1[0].labels == [x, x] && r1[1].labels == [x, y, x]
    requires r2[0].labels == [x, x] && r2[1].labels == [s, t, s]
    requires r1[0].wordCount == WordCount(r1[0].labels) && r1[1].wordCount == WordCount(r1[1].labels)
    requires r2[0].wordCount == WordCount(r2[0].labels) && r2[1].wordCount == WordCount(r2[1].labels)
    ensures PassStream(r1) == [x, x, y] && PassStream(r2) == [x, s, t]
    ensures NewWords({}, WordStream([r1, r2])) == [x, y, s, t]
    ensures r1[0].wordCount == map[x := 2] && r2[0].wordCount == map[x := 2]
    ensures r1[1].wordCount == map[x := 2, y := 1] && r2[1].wordCount == map[s := 2, t := 1]
  {
    FirstStreams(r1, x, y);
    SecondStreams(r2, x, s, t);
    StreamWords(r1, r2, x, y, s, t);
    CountTwins(x);
    CountAround(x, y);
    CountAround(s, t);
  }

  /** Two rounds of the shape of the edge and the path: the words and both
      readings of both kernels. */
  lemma {:induction false} EdgePathKernels(
    r1: seq<Labelling>, r2: seq<Labelling>, x: string, y: string, s: string, t: string)
    requires x != y && x != s && x != t && y != s && y != t && s != t
    requires |r1| == 2 && |r2| == 2
    requires r1[0].labels == [x, x] && r1[1].labels == [x, y, x]
    requires r2[0].labels == [x, x] && r2[1].labels == [s, t, s]
    requires r1[0].wordCount == WordCount(r1[0].labels) && r1[1].wordCount == WordCount(r1[1].labels)
    requires r2[0].wordCount == WordCount(r2[0].labels) && r2[1].wordCount == WordCount(r2[1].labels)
    ensures NewWords({}, WordStream([r1, r2])) == [x, y, s, t]
    ensures KernelVector(AsWritten, [r1, r2], 0, [x, y, s, t]) == [4, 0, 0, 0]
    ensures KernelVector(AsWritten, [r1, r2], 1, [x, y, s, t]) == [0, 1, 2, 1]
    ensures KernelVector(Intended, [r1, r2], 0, [x, y, s, t]) == [4, 0, 0, 0]
    ensures KernelVector(Intended, [r1, r2], 1, [x, y, s, t]) == [2, 1, 2, 1]
  {
    EdgePathStreams(r1, r2, x, y, s, t);
    var P := [r1, r2];
    EdgeEntries(AsWritten, r1, r2, x, y, s, t);
    EdgeEntries(Intended, r1, r2, x, y, s, t);
    PathEntryReset(AsWritten, r1, r2, x, y, s, t);
    PathEntryReset(Intended, r1, r2, x, y, s, t);
    PathEntries(AsWritten, r1, r2, x, y, s, t);
    PathEntries(Intended, r1, r2, x, y, s, t);
    VectorOfFour(AsWritten, P, 0, x, y, s, t);
    VectorOfFour(Intended, P, 0, x, y, s, t);
    VectorOfFour(AsWritten, P, 1, x, y, s, t);
    VectorOfFour(Intended, P, 1, x, y, s, t);
  }

  /** A kernel vector over four words, entry by entry. */
  lemma {:induction false} VectorOfFour(
    grouping: Grouping, passes: seq<seq<Labelling>>, k: nat, x: string, y: string, s: string, t: string)
    ensures KernelVector(grouping, passes, k, [x, y, s, t]) ==
      [KernelValue(grouping, passes, k, x), KernelValue(grouping, passes, k, y),
       KernelValue(grouping, passes, k, s), KernelValue(grouping, passes, k, t)]
  {
  }

  /** The edge's entries: it counts `x` twice in each round and nothing
      else, so both readings give 4 for `x` and 0 for the rest. */
  lemma {:induction false} EdgeEntries(
    grouping: Grouping, r1: seq<Labelling>, r2: seq<Labelling>, x: string, y: string, s: string, t: string)
    requires x != y && x != s && x != t && y != s && y != t && s != t
    requires |r1| == 2 && |r2| == 2
    requires PassStream(r1) == [x, x, y] && PassStream(r2) == [x, s, t]
    requires r1[0].wordCount == map[x := 2] && r2[0].wordCount == map[x := 2]
    ensures KernelValue(grouping, [r1, r2], 0, x) == 4
    ensures KernelValue(grouping, [r1, r2], 0, y) == 0
    ensures KernelValue(grouping, [r1, r2], 0, s) == 0
    ensures KernelValue(grouping, [r1, r2], 0, t) == 0
  {
    TwoRoundValue(grouping, r1, r2, 0, x);
    TwoRoundValue(grouping, r1, r2, 0, y);
    TwoRoundValue(grouping, r1, r2, 0, s);
    TwoRoundValue(grouping, r1, r2, 0, t);
  }

  /** The path's entry for `x`: the path counts it twice in the first
      round. In the second round the edge counts `x` but the path does not,
      so read as intended the entry stays 2, and read as written it becomes
      0. */
  lemma {:induction false} PathEntryReset(
    grouping: Grouping, r1: seq<Labelling>, r2: seq<Labelling>, x: string, y: string, s: string, t: string)
    requires x != y && x != s && x != t
    requires |r1| == 2 && |r2| == 2
    requires PassStream(r1) == [x, x, y] && PassStream(r2) == [x, s, t]
    requires r1[1].wordCount == map[x := 2, y := 1] && r2[1].wordCount == map[s := 2, t := 1]
    ensures KernelValue(grouping, [r1, r2], 1, x) == if grouping == Intended then 2 else 0
  {
    TwoRoundValue(grouping, r1, r2, 1, x);
  }

  /** The path's other entries: `y` once in the first round, `s` twice and
      `t` once in the second. */
  lemma {:induction false} PathEntries(
    grouping: Grouping, r1: seq<Labelling>, r2: seq<Labelling>, x: string, y: string, s: string, t: string)
    requires x != y && x != s && x != t && y != s && y != t && s != t
    requires |r1| == 2 && |r2| == 2
    requires PassStream(r1) == [x, x, y] && PassStream(r2) == [x, s, t]
    requires r1[1].wordCount == map[x := 2, y := 1] && r2[1].wordCount == map[s := 2, t := 1]
    ensures KernelValue(grouping, [r1, r2], 1, y) == 1
    ensures KernelValue(grouping, [r1, r2], 1, s) == 2
    ensures KernelValue(grouping, [r1, r2], 1, t) == 1
  {
    TwoRoundValue(grouping, r1, r2, 1, y);
    TwoRoundValue(grouping, r1, r2, 1, s);
    TwoRoundValue(grouping, r1, r2, 1, t);
  }

  /** The Jaccard similarity of the two readings of the kernels. */
  lemma JaccardValues()
    ensures Jaccard([4, 0, 0, 0], [0, 1, 2, 1]) == Finite(0.0)
    ensures Jaccard([4, 0, 0, 0], [2, 1, 2, 1]) == Finite(0.25)
  {
  }

  /** The word counts of the four refinements count their labels. */
  lemma {:induction false} FourCounts(graphs: seq<Graph>, e1: Round, p1: Round, e2: Round, p2: Round)
    requires AllValid(graphs) && |graphs| == 2
    requires graphs[0].nodeCount == 2 && graphs[1].nodeCount == 3
    requires Refine(graphs[0], None, map[]) == e1
    requires Refine(graphs[1], None, e1.dict) == p1
    requires Refine(graphs[0], Some(["1", "1"]), p1.dict) == e2
    requires Refine(graphs[1], Some(["1", "2", "1"]), e2.dict) == p2
    ensures e1.result.wordCount == WordCount(e1.result.labels) && p1.result.wordCount == WordCount(p1.result.labels)
    ensures e2.result.wordCount == WordCount(e2.result.labels) && p2.result.wordCount == WordCount(p2.result.labels)
  {
    assert ValidGraph(graphs[0]) && ValidGraph(graphs[1]);
    RefineCounts(graphs[0], None, map[]);
    RefineCounts(graphs[1], None, e1.dict);
    RefineCounts(graphs[0], Some(["1", "1"]), p1.dict);
    RefineCounts(graphs[1], Some(["1", "2", "1"]), e2.dict);
  }

  /** The four refinements of two iterations over the edge and the path,
      and the two rounds they make. */
  lemma {:induction false} EdgePathRounds(graphs: seq<Graph>) returns (r1: seq<Labelling>, r2: seq<Labelling>)
    requires |graphs| == 2 && graphs[0] == Edge() && graphs[1] == PathA()
    ensures AllValid(graphs)
    ensures Iterate(graphs, 2).passes == [r1, r2]
    ensures |r1| == 2 && |r2| == 2
    ensures r1[0].labels == ["1", "1"] && r1[1].labels == ["1", "2", "1"]
    ensures r2[0].labels == ["1", "1"] && r2[1].labels == ["3", "4", "3"]
    ensures r1[0].wordCount == WordCount(r1[0].labels) && r1[1].wordCount == WordCount(r1[1].labels)
    ensures r2[0].wordCount == WordCount(r2[0].labels) && r2[1].wordCount == WordCount(r2[1].labels)
  {
    assert IsEdge(graphs[0]) && IsPath(graphs[1]);
    var e1, p1 := FirstRounds(graphs[0], graphs[1]);
    BothValid(graphs);
    var e2, p2 := SecondRoundsExact(graphs[0], graphs[1], p1.dict);
    FourCounts(graphs, e1, p1, e2, p2);
    TwoIterations(graphs, e1, p1, e2, p2);
    r1, r2 := [e1.result, p1.result], [e2.result, p2.result];
  }

  /** `getGraphWLJaccardSimilarity(edge, path, 2)`: as written, the path's
      kernel loses its count of "1" and the similarity is 0; read as
      intended, it is 2 / 8. */
  lemma {:induction false} PrecedenceChangesSimilarity(graphs: seq<Graph>)
    requires |graphs| == 2 && graphs[0] == Edge() && graphs[1] == PathA()
    ensures AllValid(graphs)
    ensures var h := Iterate(graphs, 2);
      var words := NewWords({}, WordStream(h.passes));
      && Jaccard(KernelVector(AsWritten, h.passes, 0, words), KernelVector(AsWritten, h.passes, 1, words)) == Finite(0.0)
      && Jaccard(KernelVector(Intended, h.passes, 0, words), KernelVector(Intended, h.passes, 1, words)) == Finite(0.25)
  {
    var r1, r2 := EdgePathRounds(graphs);
    EdgePathKernels(r1, r2, "1", "2", "3", "4");
    JaccardValues();
  }
}
