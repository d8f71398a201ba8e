/**
 * Refinement: one round of Weisfeiler-Lehman colour refinement on one graph.
 *
 * Every node's new label is the dictionary code of its signature: its own
 * previous label followed by its neighbours' previous labels in sorted order,
 * joined without a delimiter. The round also counts how many nodes carry each
 * new code.
 */
module Refinement {
  import opened Wrappers
  import opened Labels
  import opened Graphs
  import opened Interning

  /** The labelling the engine starts from: every node carries "1". */
  function InitialLabels(n: nat): (r: seq<string>)
    ensures |r| == n
    ensures forall v :: 0 <= v < n ==> r[v] == InitialLabel
  {
    seq(n, v => InitialLabel)
  }

  /** The previous labels the round works from: the caller's, or the initial
      labelling when the caller gives none. */
  function PreviousLabels(g: Graph, prev: Option<seq<string>>): (r: seq<string>)
    requires prev.Some? ==> |prev.value| == g.nodeCount
    ensures |r| == g.nodeCount
  {
    if prev.None? then InitialLabels(g.nodeCount) else prev.value
  }

  /** A labelling of `g`: one label per node. */
  predicate Labelled(g: Graph, prev: seq<string>)
  {
    ValidGraph(g) && |prev| == g.nodeCount
  }

  /** The neighbours' previous labels of `v`, sorted (`uncompressedLabels`). */
  function SortedNeighbourLabels(g: Graph, prev: seq<string>, v: Node): seq<string>
    requires Labelled(g, prev)
  {
    SortLabels(NeighbourLabels(g.links, prev, v))
  }

  /** The text a node's new label compresses: its previous label followed by
      its sorted neighbour labels, with no delimiter. */
  function Signature(g: Graph, prev: seq<string>, v: Node): string
    requires Labelled(g, prev) && v < g.nodeCount
  {
    prev[v] + Join(SortedNeighbourLabels(g, prev, v))
  }

  function UncompressedLabels(g: Graph, prev: seq<string>): (r: seq<seq<string>>)
    requires Labelled(g, prev)
    ensures |r| == g.nodeCount
    ensures forall v :: 0 <= v < g.nodeCount ==> r[v] == SortedNeighbourLabels(g, prev, v)
  {
    seq(g.nodeCount, v requires 0 <= v < g.nodeCount => SortedNeighbourLabels(g, prev, v))
  }

  function Signatures(g: Graph, prev: seq<string>): (r: seq<string>)
    requires Labelled(g, prev)
    ensures |r| == g.nodeCount
    ensures forall v :: 0 <= v < g.nodeCount ==> r[v] == Signature(g, prev, v)
  {
    seq(g.nodeCount, v requires 0 <= v < g.nodeCount => Signature(g, prev, v))
  }

  // ---------------------------------------------------------------------
  // Word counts
  // ---------------------------------------------------------------------

  /** `wordCount`: how many nodes carry each label, built node by node. A
      label is a key exactly when some node carries it, and its count is the
      number of nodes carrying it. */
  function WordCount(labels: seq<string>): (wc: map<string, nat>)
    ensures forall c :: c in wc <==> c in labels
    ensures forall c :: c in wc ==> wc[c] == multiset(labels)[c]
    decreases |labels|
  {
    if |labels| == 0 then map[]
    else
      var init, c := labels[..|labels| - 1], labels[|labels| - 1];
      assert labels == init + [c];
      AddWord(WordCount(init), c)
  }

  /** `wordCount.set(c, (wordCount.get(c) || 0) + 1)`. */
  function AddWord(wc: map<string, nat>, c: string): map<string, nat>
  {
    wc[c := (if c in wc then wc[c] else 0) + 1]
  }

  /** The order in which `wordCount` holds its words (a `Map` iterates in
      insertion order): every label once, where it first occurs. */
  function WordOrder(labels: seq<string>): (r: seq<string>)
    ensures forall c :: c in r <==> c in labels
    ensures forall i, j :: 0 <= i < j < |r| ==> r[i] != r[j]
    decreases |labels|
  {
    if |labels| == 0 then []
    else
      var init, c := labels[..|labels| - 1], labels[|labels| - 1];
      assert labels == init + [c];
      WordOrder(init) + (if c in init then [] else [c])
  }

  /** The word counts depend only on the multiset of labels. */
  lemma WordCountOfMultiset(s: seq<string>, t: seq<string>)
    requires multiset(s) == multiset(t)
    ensures WordCount(s) == WordCount(t)
  {
    var ws, wt := WordCount(s), WordCount(t);
    forall c ensures c in ws <==> c in wt {
      assert c in s <==> c in multiset(s);
      assert c in t <==> c in multiset(t);
    }
    assert ws.Keys == wt.Keys;
  }

  /** Some key of a non-empty map. */
  ghost function Pick(m: map<string, nat>): (k: string)
    requires m != map[]
    ensures k in m
  {
    var k :| k in m; k
  }

  /** The sum of all counts of a word count map. */
  ghost function Total(m: map<string, nat>): nat
    decreases |m|
  {
    if m == map[] then 0 else m[Pick(m)] + Total(m - {Pick(m)})
  }

  /** A map that records the multiplicities of a multiset sums to its size. */
  lemma {:induction false} TotalOfMultiplicities(m: map<string, nat>, ms: multiset<string>)
    requires forall c :: c in m <==> c in ms
    requires forall c :: c in m ==> m[c] == ms[c]
    ensures Total(m) == |ms|
    decreases |m|
  {
    if m != map[] {
      var k := Pick(m);
      var ms' := ms[k := 0];
      assert |ms'| + ms[k] == |ms|;
      TotalOfMultiplicities(m - {k}, ms');
    }
  }

  /** Every count is at least one and the counts add up to the node count. */
  lemma WordCountTotals(labels: seq<string>)
    ensures forall c :: c in WordCount(labels) ==> WordCount(labels)[c] >= 1
    ensures Total(WordCount(labels)) == |labels|
  {
    TotalOfMultiplicities(WordCount(labels), multiset(labels));
  }

  // ---------------------------------------------------------------------
  // One round
  // ---------------------------------------------------------------------

  /** What a round returns. */
  datatype Labelling = Labelling(
    labels: seq<string>,
    prevLabels: seq<string>,
    uncompressedLabels: seq<seq<string>>,
    wordCount: map<string, nat>)

  /** A round's result together with the dictionary it leaves behind. */
  datatype Round = Round(result: Labelling, dict: map<string, string>)

  /** One refinement round of `g` from `prev` (or from the initial labelling)
      against the dictionary `d`: nodes are visited in order 0..n-1, so codes
      for new signatures are issued in that order. */
  function Refine(g: Graph, prev: Option<seq<string>>, d: map<string, string>): (r: Round)
    requires ValidGraph(g)
    requires prev.Some? ==> |prev.value| == g.nodeCount
  {
    var p := PreviousLabels(g, prev);
    var interned := InternAll(Signatures(g, p), d);
    Round(Labelling(interned.codes, p, UncompressedLabels(g, p), WordCount(interned.codes)), interned.dict)
  }

  /** Without previous labels every node starts from "1"; either way the
      round keeps one previous label per node. */
  lemma RefinePrevLabels(g: Graph, prev: Option<seq<string>>, d: map<string, string>)
    requires ValidGraph(g)
    requires prev.Some? ==> |prev.value| == g.nodeCount
    ensures var r := Refine(g, prev, d).result;
      && |r.prevLabels| == g.nodeCount
      && (prev.None? ==> forall v :: 0 <= v < g.nodeCount ==> r.prevLabels[v] == InitialLabel)
      && (prev.Some? ==> r.prevLabels == prev.value)
  {
  }

  /** Each node's uncompressed label is its neighbours' previous labels in
      sorted order: sorted, and a permutation of them. */
  lemma RefineUncompressed(g: Graph, prev: Option<seq<string>>, d: map<string, string>, v: Node)
    requires ValidGraph(g)
    requires prev.Some? ==> |prev.value| == g.nodeCount
    requires v < g.nodeCount
    ensures var r := Refine(g, prev, d).result;
      && |r.uncompressedLabels| == g.nodeCount
      && Sorted(r.uncompressedLabels[v])
      && multiset(r.uncompressedLabels[v]) == multiset(NeighbourLabels(g.links, r.prevLabels, v))
  {
  }

  /** Against a well-numbered dictionary, two nodes get the same new label
      exactly when they have the same signature; the dictionary only gains
      entries and stays well numbered. */
  lemma RefineCodes(g: Graph, prev: Option<seq<string>>, d: map<string, string>, u: Node, v: Node)
    requires ValidGraph(g)
    requires prev.Some? ==> |prev.value| == g.nodeCount
    requires WellNumbered(d)
    requires u < g.nodeCount && v < g.nodeCount
    ensures var R := Refine(g, prev, d); var r := R.result;
      && |r.labels| == g.nodeCount
      && (r.labels[u] == r.labels[v] <==> Signature(g, r.prevLabels, u) == Signature(g, r.prevLabels, v))
      && Extends(R.dict, d) && WellNumbered(R.dict)
  {
    var p := PreviousLabels(g, prev);
    CodesDistinguishSignatures(Signatures(g, p), d, u, v);
  }

  /** The word counts count the new labels: a code is counted exactly when a
      node carries it, each count is the number of such nodes (so at least
      one), and the counts add up to the node count. */
  lemma RefineWordCount(g: Graph, prev: Option<seq<string>>, d: map<string, string>)
    requires ValidGraph(g)
    requires prev.Some? ==> |prev.value| == g.nodeCount
    ensures var r := Refine(g, prev, d).result;
      && (forall c :: c in r.wordCount <==> c in r.labels)
      && (forall c :: c in r.wordCount ==> r.wordCount[c] == multiset(r.labels)[c] >= 1)
      && Total(r.wordCount) == g.nodeCount
  {
    var r := Refine(g, prev, d).result;
    WordCountTotals(r.labels);
  }

  /** A node's sorted neighbour labels do not depend on the order in which
      the graph lists its links. */
  lemma SortedNeighbourLabelsLinkOrder(g: Graph, h: Graph, p: seq<string>, v: Node)
    requires Labelled(g, p) && Labelled(h, p)
    requires multiset(g.links) == multiset(h.links)
    ensures SortedNeighbourLabels(g, p, v) == SortedNeighbourLabels(h, p, v)
  {
    NeighbourLabelsPermutation(g.links, h.links, p, v);
    SortLabelsOrderIndependent(NeighbourLabels(g.links, p, v), NeighbourLabels(h.links, p, v));
  }

  /** A round does not depend on the order in which the graph lists its
      links. */
  lemma RefineLinkOrderIndependent(g: Graph, h: Graph, prev: Option<seq<string>>, d: map<string, string>)
    requires ValidGraph(g) && ValidGraph(h)
    requires g.nodeCount == h.nodeCount && multiset(g.links) == multiset(h.links)
    requires prev.Some? ==> |prev.value| == g.nodeCount
    ensures Refine(g, prev, d) == Refine(h, prev, d)
  {
    var p := PreviousLabels(g, prev);
    assert p == PreviousLabels(h, prev);
    var n := g.nodeCount;
    forall v | 0 <= v < n ensures SortedNeighbourLabels(g, p, v) == SortedNeighbourLabels(h, p, v) {
      SortedNeighbourLabelsLinkOrder(g, h, p, v);
    }
    assert UncompressedLabels(g, p) == UncompressedLabels(h, p);
    assert Signatures(g, p) == Signatures(h, p);
  }

  /** The renamed node `p[u]` of an isomorphic graph has the signature of `u`
      when the previous labels were renamed alike. */
  lemma IsomorphicSignature(
    a: Graph, b: Graph, p: seq<Node>, q: seq<Node>, pa: seq<string>, pb: seq<string>, u: Node)
    requires Isomorphism(a, b, p, q)
    requires |pa| == a.nodeCount && |pb| == b.nodeCount && u < a.nodeCount
    requires forall w :: 0 <= w < a.nodeCount ==> pb[p[w]] == pa[w]
    ensures Labelled(b, pb) && p[u] < b.nodeCount
    ensures Signature(b, pb, p[u]) == Signature(a, pa, u)
  {
    IsomorphicNeighbourLabels(a, b, p, q, pa, pb, u);
    SortLabelsOrderIndependent(NeighbourLabels(b.links, pb, p[u]), NeighbourLabels(a.links, pa, u));
  }

  /** Resolving a renamed list of signatures right after the original one:
      nothing is added, and every renamed position gets the original's code. */
  lemma InternRenamed(sa: seq<string>, sb: seq<string>, p: seq<Node>, q: seq<Node>, d: map<string, string>)
    requires IsPermutation(p, q, |sa|) && |sb| == |sa|
    requires forall u :: 0 <= u < |sa| ==> sb[p[u]] == sa[u]
    ensures var ia := InternAll(sa, d); var ib := InternAll(sb, ia.dict);
      && ib.dict == ia.dict
      && (forall u :: 0 <= u < |sa| ==> ib.codes[p[u]] == ia.codes[u])
      && WordCount(ib.codes) == WordCount(ia.codes)
  {
    var ia := InternAll(sa, d);
    RenamedKnown(sa, sb, p, q, ia.dict);
    InternAllKnown(sb, ia.dict);
    var ib := InternAll(sb, ia.dict);
    RenamedCodes(sa, sb, p, q, ia, ib);
    PermutedMultiset(ia.codes, ib.codes, p, q);
    WordCountOfMultiset(ia.codes, ib.codes);
  }

  /** Every renamed signature is one the dictionary already knows. */
  lemma RenamedKnown(sa: seq<string>, sb: seq<string>, p: seq<Node>, q: seq<Node>, d: map<string, string>)
    requires IsPermutation(p, q, |sa|) && |sb| == |sa|
    requires forall u :: 0 <= u < |sa| ==> sb[p[u]] == sa[u]
    requires forall u :: 0 <= u < |sa| ==> sa[u] in d
    ensures forall v :: 0 <= v < |sb| ==> sb[v] in d
  {
    forall v | 0 <= v < |sb| ensures sb[v] in d {
      assert sb[v] == sb[p[q[v]]] == sa[q[v]];
    }
  }

  /** Codes looked up in one dictionary follow the renaming. */
  lemma RenamedCodes(sa: seq<string>, sb: seq<string>, p: seq<Node>, q: seq<Node>, ia: Interned, ib: Interned)
    requires IsPermutation(p, q, |sa|) && |sb| == |sa|
    requires forall u :: 0 <= u < |sa| ==> sb[p[u]] == sa[u]
    requires |ia.codes| == |sa| && |ib.codes| == |sb|
    requires forall u :: 0 <= u < |sa| ==> sa[u] in ia.dict && ia.codes[u] == ia.dict[sa[u]]
    requires forall v :: 0 <= v < |sb| ==> sb[v] in ia.dict && ib.codes[v] == ia.dict[sb[v]]
    ensures forall u :: 0 <= u < |sa| ==> ib.codes[p[u]] == ia.codes[u]
  {
  }

  /** Two isomorphic graphs refined one after the other against one shared
      dictionary: the second adds nothing to the dictionary, each renamed node
      gets the label of its original, and the word counts agree. */
  lemma RefineIsomorphicShared(
    a: Graph, b: Graph, p: seq<Node>, q: seq<Node>,
    prevA: Option<seq<string>>, prevB: Option<seq<string>>, d: map<string, string>)
    requires Isomorphism(a, b, p, q)
    requires prevA.Some? <==> prevB.Some?
    requires prevA.Some? ==> |prevA.value| == a.nodeCount && |prevB.value| == b.nodeCount
    requires prevA.Some? ==> forall u :: 0 <= u < a.nodeCount ==> prevB.value[p[u]] == prevA.value[u]
    ensures ValidGraph(b)
    ensures var ra := Refine(a, prevA, d); var rb := Refine(b, prevB, ra.dict);
      && rb.dict == ra.dict
      && (forall u :: 0 <= u < a.nodeCount ==> rb.result.labels[p[u]] == ra.result.labels[u])
      && rb.result.wordCount == ra.result.wordCount
  {
    IsomorphismCounts(a, b, p, q);
    var n := a.nodeCount;
    var pa, pb := PreviousLabels(a, prevA), PreviousLabels(b, prevB);
    assert forall u :: 0 <= u < n ==> pb[p[u]] == pa[u];
    var sa, sb := Signatures(a, pa), Signatures(b, pb);
    forall u | 0 <= u < n ensures sb[p[u]] == sa[u] {
      IsomorphicSignature(a, b, p, q, pa, pb, u);
    }
    InternRenamed(sa, sb, p, q, d);
  }

  // ---------------------------------------------------------------------
  // The imperative round
  // ---------------------------------------------------------------------

  /** `hash` of every node: its previous label followed by its sorted
      neighbour labels. */
  function Hashes(prev: seq<string>, uncompressed: seq<seq<string>>): (r: seq<string>)
    requires |uncompressed| == |prev|
    ensures |r| == |prev|
    ensures forall v :: 0 <= v < |prev| ==> r[v] == prev[v] + Join(uncompressed[v])
  {
    seq(|prev|, v requires 0 <= v < |prev| => prev[v] + Join(uncompressed[v]))
  }

  /** Counting one more label adds one to its count. */
  lemma WordCountSnoc(labels: seq<string>, c: string)
    ensures WordCount(labels + [c]) == AddWord(WordCount(labels), c)
  {
    assert (labels + [c])[..|labels|] == labels;
  }

  /** `graph.forEachLinkedNode(v, ...)`: the previous labels of `v`'s
      neighbours, in link order. */
  method CollectNeighbours(g: Graph, prev: seq<string>, v: Node) returns (neighbors: seq<string>)
    requires Labelled(g, prev)
    ensures neighbors == NeighbourLabels(g.links, prev, v)
  {
    var n := g.nodeCount;
    neighbors := [];
    var j := 0;
    while j < |g.links|
      invariant 0 <= j <= |g.links|
      invariant Within(g.links[..j], n)
      invariant neighbors == NeighbourLabels(g.links[..j], prev, v)
    {
      WithinPrefix(g.links, n, j + 1);
      assert g.links[..j + 1][..j] == g.links[..j];
      var link := g.links[j];
      if link.from == v {
        neighbors := neighbors + [prev[link.to]];
      } else if link.to == v {
        neighbors := neighbors + [prev[link.from]];
      }
      j := j + 1;
    }
    assert g.links[..j] == g.links;
  }

  /** Extending a prefix by one element. */
  lemma PrefixSnoc<T>(s: seq<T>, v: nat)
    requires v < |s|
    ensures s[..v + 1] == s[..v] + [s[v]]
  {
  }

  /** The first pass of a round: every node's neighbour labels, sorted. */
  method SortAllNeighbours(g: Graph, prev: seq<string>) returns (uncompressed: seq<seq<string>>)
    requires Labelled(g, prev)
    ensures uncompressed == UncompressedLabels(g, prev)
  {
    var n := g.nodeCount;
    ghost var all := UncompressedLabels(g, prev);
    uncompressed := [];
    var v := 0;
    while v < n
      invariant 0 <= v <= n
      invariant uncompressed == all[..v]
    {
      var neighbors := CollectNeighbours(g, prev, v);
      PrefixSnoc(all, v);
      uncompressed := uncompressed + [SortLabels(neighbors)];
      v := v + 1;
    }
    assert all[..n] == all;
  }

  /** One more lookup extends the resolved prefix of a list of signatures. */
  lemma CompressStep(
    sigs: seq<string>, v: nat, d0: map<string, string>,
    labels: seq<string>, entries: map<string, string>, code: string, entries': map<string, string>)
    requires v < |sigs|
    requires InternAll(sigs[..v], d0) == Interned(labels, entries)
    requires Lookup(code, entries') == Resolve(entries, sigs[v])
    ensures InternAll(sigs[..v + 1], d0) == Interned(labels + [code], entries')
  {
    PrefixSnoc(sigs, v);
    InternAllSnoc(sigs[..v], sigs[v], d0);
  }

  /** The second pass of a round: every node's hash looked up (or added) in
      the dictionary, node by node, counting the codes as they are issued. */
  method CompressAll(prev: seq<string>, uncompressed: seq<seq<string>>, dict: Dictionary)
    returns (labels: seq<string>, wordCount: map<string, nat>)
    requires |uncompressed| == |prev|
    modifies dict
    ensures Interned(labels, dict.entries) == InternAll(Hashes(prev, uncompressed), old(dict.entries))
    ensures wordCount == WordCount(labels)
  {
    ghost var d0 := dict.entries;
    ghost var sigs := Hashes(prev, uncompressed);
    assert sigs[..0] == [];
    labels := [];
    wordCount := map[];
    var v := 0;
    while v < |prev|
      invariant 0 <= v <= |prev|
      invariant InternAll(sigs[..v], d0) == Interned(labels, dict.entries)
      invariant wordCount == WordCount(labels)
    {
      var hash := prev[v] + Join(uncompressed[v]);
      ghost var entries := dict.entries;
      var code := dict.LookupOrInsert(hash);
      CompressStep(sigs, v, d0, labels, entries, code, dict.entries);
      WordCountSnoc(labels, code);
      labels := labels + [code];
      wordCount := AddWord(wordCount, code);
      v := v + 1;
    }
    assert sigs[..|prev|] == sigs;
  }

  /** `computeLabels(graph, prevLabels, dictionary)`. Without a dictionary it
      works against a fresh, private one. */
  method ComputeLabels(g: Graph, prevLabels: Option<seq<string>>, dictionary: Dictionary?)
    returns (r: Labelling)
    requires ValidGraph(g)
    requires prevLabels.Some? ==> |prevLabels.value| == g.nodeCount
    modifies dictionary
    ensures var d0 := if dictionary == null then map[] else old(dictionary.entries);
      && r == Refine(g, prevLabels, d0).result
      && (dictionary != null ==> dictionary.entries == Refine(g, prevLabels, d0).dict)
  {
    var n := g.nodeCount;
    var prev: seq<string>;
    if prevLabels.None? {
      prev := [];
      var v := 0;
      while v < n
        invariant 0 <= v <= n
        invariant prev == InitialLabels(v)
      {
        prev := prev + [InitialLabel];
        v := v + 1;
      }
    } else {
      prev := prevLabels.value;
    }
    assert prev == PreviousLabels(g, prevLabels);

    var uncompressed := SortAllNeighbours(g, prev);

    var dict: Dictionary;
    if dictionary == null {
      dict := new Dictionary();
    } else {
      dict := dictionary;
    }
    assert Hashes(prev, uncompressed) == Signatures(g, prev);
    var labels, wordCount := CompressAll(prev, uncompressed, dict);
    r := Labelling(labels, prev, uncompressed, wordCount);
  }
}
