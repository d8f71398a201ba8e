/**
 * Kernels: Weisfeiler-Lehman kernel vectors for a list of graphs that share
 * one label dictionary.
 *
 * Every round refines every graph against the shared dictionary, gives each
 * new word (label code) the next free position of a global histogram index,
 * and adds each graph's word counts into its kernel at those positions. The
 * kernel of a graph is a JavaScript array written at those positions only,
 * modelled as a map from position to value.
 */
module Kernels {
  import opened Wrappers
  import opened Graphs
  import opened Interning
  import opened Refinement

  // ---------------------------------------------------------------------
  // The global histogram index
  // ---------------------------------------------------------------------

  /** The words of `words` that are neither in `known` nor earlier in
      `words`, in the order they first occur. */
  function NewWords(known: set<string>, words: seq<string>): (r: seq<string>)
    ensures forall w :: w in r <==> w in words && w !in known
    ensures forall i, j :: 0 <= i < j < |r| ==> r[i] != r[j]
    decreases |words|
  {
    if |words| == 0 then []
    else
      var init, w := words[..|words| - 1], words[|words| - 1];
      assert words == init + [w];
      NewWords(known, init) + (if w in known || w in init then [] else [w])
  }

  /** Appending one more word to the list. */
  lemma NewWordsSnoc(known: set<string>, words: seq<string>, w: string)
    ensures NewWords(known, words + [w]) == NewWords(known, words) + (if w in known || w in words then [] else [w])
  {
    assert (words + [w])[..|words|] == words;
  }

  lemma AppendAssociative<T>(a: seq<T>, b: seq<T>, c: seq<T>)
    ensures (a + b) + c == a + (b + c)
  {
  }

  /** `index` numbers the words of `order` by position, without gaps or
      repeats. */
  predicate Numbered(index: map<string, nat>, order: seq<string>)
  {
    && |index| == |order|
    && (forall j :: 0 <= j < |order| ==> order[j] in index && index[order[j]] == j)
    && (forall w :: w in index ==> index[w] < |order| && order[index[w]] == w)
  }

  /** Giving a new word the next position keeps the numbering. */
  lemma NumberedAdd(index: map<string, nat>, order: seq<string>, w: string)
    requires Numbered(index, order) && w !in index
    ensures Numbered(index[w := |index|], order + [w])
  {
  }

  /** `globalHistogramIndex`: the position of every word in the kernel
      vectors. `order` lists the words by position. */
  class HistogramIndex {
    var index: map<string, nat>
    ghost var order: seq<string>

    /** The index numbers its words 0, 1, 2, ... without gaps or repeats. */
    ghost predicate Valid()
      reads this
    {
      Numbered(index, order)
    }

    constructor ()
      ensures Valid() && index == map[] && order == []
    {
      index := map[];
      order := [];
    }

    /** `addToGlobal(keyToIndex, wordCounts)`, given the words of
        `wordCounts` in its iteration order: every word not indexed yet gets
        the next position, in that order; indexed words keep theirs. */
    method AddToGlobal(words: seq<string>)
      requires Valid()
      modifies this
      ensures Valid()
      ensures index == Assigned(old(index), words)
      ensures order == old(order) + NewWords(old(index).Keys, words)
      ensures index.Keys == old(index).Keys + set w | w in words
      ensures forall w :: w in old(index) ==> index[w] == old(index)[w]
    {
      ghost var index0, order0 := index, order;
      var i := 0;
      while i < |words|
        invariant 0 <= i <= |words|
        invariant index == Assigned(index0, words[..i])
        invariant order == order0 + NewWords(index0.Keys, words[..i])
      {
        var w := words[i];
        AssignedNext(index0, order0, words, i);
        if w !in index {
          index := index[w := |index|];
          order := order + [w];
        }
        i := i + 1;
      }
      assert words[..i] == words;
      AssignedNumbered(index0, order0, words);
    }
  }

  /** The index after handing out positions to `words` one after the other:
      a word not indexed yet gets the next position, an indexed word keeps
      its own. */
  function Assigned(index0: map<string, nat>, words: seq<string>): (r: map<string, nat>)
    ensures forall w :: w in r <==> w in index0 || w in words
    decreases |words|
  {
    if |words| == 0 then index0
    else
      var init, w := words[..|words| - 1], words[|words| - 1];
      assert words == init + [w];
      var m := Assigned(index0, init);
      if w in m then m else m[w := |m|]
  }

  /** Handing out a position to one more word. */
  lemma AssignedSnoc(index0: map<string, nat>, prefix: seq<string>, w: string)
    ensures var m := Assigned(index0, prefix);
      Assigned(index0, prefix + [w]) == if w in m then m else m[w := |m|]
  {
    assert (prefix + [w])[..|prefix|] == prefix;
  }

  /** Handing out a position to the word at `i`. */
  lemma AssignedNext(index0: map<string, nat>, order0: seq<string>, words: seq<string>, i: nat)
    requires i < |words|
    ensures var m, w := Assigned(index0, words[..i]), words[i];
      && Assigned(index0, words[..i + 1]) == (if w in m then m else m[w := |m|])
      && order0 + NewWords(index0.Keys, words[..i + 1]) == order0 + NewWords(index0.Keys, words[..i]) + (if w in m then [] else [w])
  {
    var w := words[i];
    PrefixSnoc(words, i);
    AssignedSnoc(index0, words[..i], w);
    NewWordsSnoc(index0.Keys, words[..i], w);
    AppendAssociative(order0, NewWords(index0.Keys, words[..i]), if w in Assigned(index0, words[..i]) then [] else [w]);
  }

  /** The positions handed out number the old order followed by the new
      words, and the words indexed before keep their positions. */
  lemma {:induction false} AssignedNumbered(index0: map<string, nat>, order0: seq<string>, words: seq<string>)
    requires Numbered(index0, order0)
    ensures Numbered(Assigned(index0, words), order0 + NewWords(index0.Keys, words))
    ensures forall w :: w in index0 ==> Assigned(index0, words)[w] == index0[w]
    decreases |words|
  {
    if |words| == 0 {
      assert order0 + [] == order0;
    } else {
      var init, w := words[..|words| - 1], words[|words| - 1];
      PrefixSnoc(words, |words| - 1);
      AssignedNumbered(index0, order0, init);
      var m := Assigned(index0, init);
      AssignedSnoc(index0, init, w);
      NewWordsSnoc(index0.Keys, init, w);
      var added := if w in m then [] else [w];
      AppendAssociative(order0, NewWords(index0.Keys, init), added);
      NumberedStep(m, order0 + NewWords(index0.Keys, init), w, Assigned(index0, words), order0 + NewWords(index0.Keys, words));
    }
  }

  /** Handing out a position to one word keeps the numbering, and keeps the
      positions of the words indexed before. */
  lemma NumberedStep(m: map<string, nat>, order: seq<string>, w: string, m': map<string, nat>, order': seq<string>)
    requires Numbered(m, order)
    requires m' == if w in m then m else m[w := |m|]
    requires order' == order + if w in m then [] else [w]
    ensures Numbered(m', order')
    ensures forall v :: v in m ==> m'[v] == m[v]
  {
    if w in m {
      assert order' == order;
    } else {
      NumberedAdd(m, order, w);
    }
  }

  // ---------------------------------------------------------------------
  // Kernel vectors
  // ---------------------------------------------------------------------

  /** A kernel vector: the JavaScript array `kernel`, written only at the
      positions the histogram index hands out. */
  type Kernel = map<nat, nat>

  /** One entry of a graph's working set. `wordCount` is empty until the
      first round sets it. */
  datatype KernelInfo = KernelInfo(
    graph: Graph,
    kernel: Kernel,
    prevLabels: Option<seq<string>>,
    wordCount: map<string, nat>)

  /** `m.get(key)` on a map of counts, or `v[index]` on a kernel array:
      `None` stands for `undefined`. */
  function Get<K>(m: map<K, nat>, key: K): Option<nat>
  {
    if key in m then Some(m[key]) else None
  }

  /** JavaScript `x + y` for a number `x`: adding `undefined` gives `NaN`,
      which `None` also stands for (both are falsy and absorb addition). */
  function Plus(x: nat, y: Option<nat>): Option<nat>
  {
    if y.Some? then Some(x + y.value) else None
  }

  /** JavaScript `x || 0`: `undefined`, `NaN` and `0` all give 0. */
  function OrZero(x: Option<nat>): nat
  {
    if x.Some? then x.value else 0
  }

  /** `m.get(key) || 0` (and `v[index] || 0`): the stored count, or 0 when
      there is none. */
  function Count<K>(m: map<K, nat>, key: K): (c: nat)
    ensures key !in m ==> c == 0
    ensures key in m ==> c == m[key]
  {
    OrZero(Get(m, key))
  }

  /** The two readings of line 156 of `updateKernels`. */
  datatype Grouping =
    | AsWritten  // `(v[index] || 0) + item.wordCount.get(word) || 0`, which groups as `(... + ...) || 0`
    | Intended   // `(v[index] || 0) + (item.wordCount.get(word) || 0)`

  /** Line 156 as intended: the old value plus this round's count of the
      word (0 when the graph does not have the word). */
  function Accumulate(sofar: nat, wc: map<string, nat>, w: string): (e: nat)
    ensures e >= sofar
    ensures w in wc ==> e == sofar + wc[w]
  {
    sofar + OrZero(Get(wc, w))
  }

  /** Line 156 as written: the default applies to the whole sum, so when the
      graph does not have the word, `old + undefined` is `NaN` and the entry
      becomes 0. */
  function AccumulateAsWritten(sofar: nat, wc: map<string, nat>, w: string): (e: nat)
    ensures w in wc ==> e == sofar + wc[w]
    ensures w !in wc ==> e == 0
  {
    OrZero(Plus(sofar, Get(wc, w)))
  }

  /** The two agree whenever the graph has the word; otherwise the code as
      written forgets the sum so far. */
  lemma AccumulateAsWrittenDiffers(sofar: nat, wc: map<string, nat>, w: string)
    ensures w in wc ==> AccumulateAsWritten(sofar, wc, w) == Accumulate(sofar, wc, w)
    ensures w !in wc ==> AccumulateAsWritten(sofar, wc, w) == 0 && Accumulate(sofar, wc, w) == sofar
  {
  }

  /** The new value of one kernel entry under the given reading of line 156. */
  function Grow(grouping: Grouping, sofar: nat, wc: map<string, nat>, w: string): (e: nat)
    ensures w in wc ==> e == sofar + wc[w]
    ensures w !in wc ==> e == if grouping == Intended then sofar else 0
  {
    if grouping == Intended then Accumulate(sofar, wc, w) else AccumulateAsWritten(sofar, wc, w)
  }

  /** Every word some graph of the working set counted this round
      (`unifiedLabels`). */
  function Unified(ws: seq<KernelInfo>): (r: set<string>)
    ensures forall w :: w in r <==> exists k :: 0 <= k < |ws| && w in ws[k].wordCount
  {
    set k, w | 0 <= k < |ws| && w in ws[k].wordCount :: w
  }

  /** The positions of a set of indexed words. */
  function Slots(index: map<string, nat>, words: set<string>): set<nat>
    requires words <= index.Keys
  {
    set w | w in words :: index[w]
  }

  /** No two words share a position. */
  predicate Injective(index: map<string, nat>)
  {
    forall v, w :: v in index && w in index && v != w ==> index[v] != index[w]
  }

  /** `after` is `before` with the entry of every word of `words` rewritten
      by line 156 from that word's count in `wc`: the entries of those words
      are written (even with a count of 0), and every other entry keeps its
      value. */
  predicate Accumulated(
    grouping: Grouping, before: Kernel, after: Kernel, wc: map<string, nat>, index: map<string, nat>, words: set<string>)
    requires words <= index.Keys
  {
    && after.Keys == before.Keys + Slots(index, words)
    && (forall w :: w in words ==> index[w] in after && after[index[w]] == Grow(grouping, Count(before, index[w]), wc, w))
    && (forall j :: j in before && j !in Slots(index, words) ==> after[j] == before[j])
  }

  /** Rewriting one more word's entry extends what has been accumulated. */
  lemma AccumulatedStep(
    grouping: Grouping, before: Kernel, after: Kernel, wc: map<string, nat>, index: map<string, nat>,
    words: set<string>, w: string)
    requires words <= index.Keys && w in index && w !in words
    requires Injective(index)
    requires Accumulated(grouping, before, after, wc, index, words)
    ensures Accumulated(grouping, before, after[index[w] := Grow(grouping, Count(after, index[w]), wc, w)], wc, index, words + {w})
  {
    var slot := index[w];
    assert slot !in Slots(index, words);
    assert Count(after, slot) == Count(before, slot);
    assert Slots(index, words + {w}) == Slots(index, words) + {slot};
  }

  /** `updateKernels(workingSet, indexLookup)`, line 156 read as `grouping`
      says (the source is `AsWritten`). For every word counted this round by
      any graph, every graph's kernel entry at that word's position is
      rewritten: a graph that counted the word adds its count; a graph that
      did not keeps its entry (`Intended`) or has it reset to 0 (`AsWritten`).
      Other entries are left alone, and nothing but the kernels changes. */
  method UpdateKernels(ws: seq<KernelInfo>, index: map<string, nat>, grouping: Grouping) returns (r: seq<KernelInfo>)
    requires Unified(ws) <= index.Keys
    requires Injective(index)
    ensures |r| == |ws|
    ensures forall k :: 0 <= k < |ws| ==> r[k] == ws[k].(kernel := r[k].kernel)
    ensures forall k :: 0 <= k < |ws| ==> Accumulated(grouping, ws[k].kernel, r[k].kernel, ws[k].wordCount, index, Unified(ws))
  {
    var unified := UnifiedWords(ws);
    r := ws;
    var remaining := unified;
    ghost var done: set<string> := {};
    BumpNone(ws, index, grouping);
    while remaining != {}
      invariant Split(unified, remaining, done)
      invariant Bumped(grouping, ws, r, index, done)
      decreases remaining
    {
      var w :| w in remaining;
      ghost var r0 := r;
      r := BumpAll(r, index[w], w, grouping);
      BumpAllStep(grouping, ws, r0, r, index, done, w);
      SplitStep(unified, remaining, done, w);
      remaining := remaining - {w};
      done := done + {w};
    }
  }

  /** `remaining` and `done` partition `all`. */
  predicate Split<T>(all: set<T>, remaining: set<T>, done: set<T>)
  {
    remaining <= all && done == all - remaining
  }

  /** Moving one element from `remaining` to `done`. */
  lemma SplitStep<T>(all: set<T>, remaining: set<T>, done: set<T>, x: T)
    requires Split(all, remaining, done) && x in remaining
    ensures Split(all, remaining - {x}, done + {x}) && x !in done && x in all
  {
  }

  /** `r` is the working set `ws` with the entries of the words of `done`
      rewritten in every kernel, and nothing else changed. */
  ghost predicate Bumped(grouping: Grouping, ws: seq<KernelInfo>, r: seq<KernelInfo>, index: map<string, nat>, done: set<string>)
  {
    && done <= index.Keys
    && |r| == |ws|
    && (forall k :: 0 <= k < |ws| ==> r[k] == ws[k].(kernel := r[k].kernel))
    && (forall k :: 0 <= k < |ws| ==> Accumulated(grouping, ws[k].kernel, r[k].kernel, ws[k].wordCount, index, done))
  }

  /** Before the first word nothing has changed. */
  lemma BumpNone(ws: seq<KernelInfo>, index: map<string, nat>, grouping: Grouping)
    ensures Bumped(grouping, ws, ws, index, {})
  {
    assert forall k :: 0 <= k < |ws| ==> ws[k] == ws[k].(kernel := ws[k].kernel);
    forall k | 0 <= k < |ws| ensures Accumulated(grouping, ws[k].kernel, ws[k].kernel, ws[k].wordCount, index, {}) {
      assert Slots(index, {}) == {};
    }
  }

  /** One word's pass over the working set extends what every kernel has
      accumulated. */
  lemma BumpAllStep(
    grouping: Grouping, ws: seq<KernelInfo>, r0: seq<KernelInfo>, r: seq<KernelInfo>, index: map<string, nat>,
    done: set<string>, w: string)
    requires w in index && w !in done
    requires Injective(index)
    requires Bumped(grouping, ws, r0, index, done)
    requires |r| == |ws| && forall k :: 0 <= k < |ws| ==> r[k] == Bump(grouping, r0[k], index[w], w)
    ensures Bumped(grouping, ws, r, index, done + {w})
  {
    forall k | 0 <= k < |ws|
      ensures Accumulated(grouping, ws[k].kernel, r[k].kernel, ws[k].wordCount, index, done + {w})
    {
      AccumulatedStep(grouping, ws[k].kernel, r0[k].kernel, ws[k].wordCount, index, done, w);
    }
  }

  /** One graph's kernel entry for one word. */
  function Bump(grouping: Grouping, item: KernelInfo, slot: nat, w: string): KernelInfo
  {
    item.(kernel := item.kernel[slot := Grow(grouping, Count(item.kernel, slot), item.wordCount, w)])
  }

  /** The first loop of `updateKernels`: every word any graph counted. */
  method UnifiedWords(ws: seq<KernelInfo>) returns (unified: set<string>)
    ensures unified == Unified(ws)
  {
    unified := {};
    var k := 0;
    while k < |ws|
      invariant 0 <= k <= |ws|
      invariant unified == Unified(ws[..k])
    {
      UnifiedSnoc(ws[..k], ws[k]);
      assert ws[..k + 1] == ws[..k] + [ws[k]];
      unified := unified + ws[k].wordCount.Keys;
      k := k + 1;
    }
    assert ws[..k] == ws;
  }

  lemma UnifiedSnoc(ws: seq<KernelInfo>, item: KernelInfo)
    ensures Unified(ws + [item]) == Unified(ws) + item.wordCount.Keys
  {
    var ws' := ws + [item];
    forall w ensures w in Unified(ws') <==> w in Unified(ws) + item.wordCount.Keys {
      if w in Unified(ws') {
        var i :| 0 <= i < |ws'| && w in ws'[i].wordCount;
      }
      if w in Unified(ws) {
        var i :| 0 <= i < |ws| && w in ws[i].wordCount;
        assert ws'[i] == ws[i];
      }
      if w in item.wordCount { assert ws'[|ws|] == item; }
    }
  }

  /** The inner loop of `updateKernels`: one word's entry in every kernel,
      `v[index] = ...` with line 156 read as `grouping` says. */
  method BumpAll(ws: seq<KernelInfo>, slot: nat, w: string, grouping: Grouping) returns (r: seq<KernelInfo>)
    ensures |r| == |ws|
    ensures forall k :: 0 <= k < |ws| ==> r[k] == Bump(grouping, ws[k], slot, w)
  {
    r := [];
    var k := 0;
    while k < |ws|
      invariant 0 <= k <= |ws| && |r| == k
      invariant forall i :: 0 <= i < k ==> r[i] == Bump(grouping, ws[i], slot, w)
    {
      var item := ws[k];
      var v := item.kernel;
      var e := Grow(grouping, OrZero(Get(v, slot)), item.wordCount, w);
      r := r + [item.(kernel := v[slot := e])];
      k := k + 1;
    }
  }


  // ---------------------------------------------------------------------
  // Rounds over a list of graphs
  // ---------------------------------------------------------------------

  predicate AllValid(graphs: seq<Graph>)
  {
    forall k :: 0 <= k < |graphs| ==> ValidGraph(graphs[k])
  }

  /** One previous labelling (or none) per graph, each covering its graph. */
  predicate Fits(graphs: seq<Graph>, prevs: seq<Option<seq<string>>>)
  {
    |prevs| == |graphs| && forall k :: 0 <= k < |graphs| && prevs[k].Some? ==> |prevs[k].value| == graphs[k].nodeCount
  }

  /** Every round of `passes` holds one labelling per graph, covering it,
      whose word counts count its labels. */
  predicate Consistent(graphs: seq<Graph>, passes: seq<seq<Labelling>>)
  {
    forall t :: 0 <= t < |passes| ==> PassOf(graphs, passes[t])
  }

  predicate PassOf(graphs: seq<Graph>, results: seq<Labelling>)
  {
    && |results| == |graphs|
    && (forall k :: 0 <= k < |graphs| ==> |results[k].labels| == graphs[k].nodeCount)
    && (forall k :: 0 <= k < |graphs| ==> results[k].wordCount == WordCount(results[k].labels))
  }

  /** The results of one round and the dictionary it leaves behind. */
  datatype Pass = Pass(results: seq<Labelling>, dict: map<string, string>)

  /** One round over the first `n` graphs in order, each refined against the
      dictionary the previous graphs left behind. */
  function Sweep(graphs: seq<Graph>, prevs: seq<Option<seq<string>>>, d: map<string, string>, n: nat): (r: Pass)
    requires AllValid(graphs) && Fits(graphs, prevs) && n <= |graphs|
    ensures |r.results| == n
    ensures forall k :: 0 <= k < n ==> |r.results[k].labels| == graphs[k].nodeCount
    ensures forall k :: 0 <= k < n ==> r.results[k].wordCount == WordCount(r.results[k].labels)
    decreases n
  {
    if n == 0 then Pass([], d)
    else
      var P := Sweep(graphs, prevs, d, n - 1);
      var R := Refine(graphs[n - 1], prevs[n - 1], P.dict);
      Pass(P.results + [R.result], R.dict)
  }

  /** All rounds so far and the shared dictionary after them. */
  datatype History = History(passes: seq<seq<Labelling>>, dict: map<string, string>)

  /** What each graph refines from in the next round: nothing before the
      first round, then its labels from the last round. */
  function PrevsAfter(graphs: seq<Graph>, passes: seq<seq<Labelling>>): (r: seq<Option<seq<string>>>)
    requires Consistent(graphs, passes)
    ensures Fits(graphs, r)
    ensures forall k :: 0 <= k < |graphs| ==> r[k] == if |passes| == 0 then None else Some(passes[|passes| - 1][k].labels)
  {
    seq(|graphs|, k requires 0 <= k < |graphs| =>
      if |passes| == 0 then None else Some(passes[|passes| - 1][k].labels))
  }

  /** `iterations` rounds of `getGraphsWLKernels` over `graphs`, starting
      from an empty dictionary. */
  function Iterate(graphs: seq<Graph>, iterations: nat): (h: History)
    requires AllValid(graphs)
    ensures |h.passes| == iterations && Consistent(graphs, h.passes)
    decreases iterations
  {
    if iterations == 0 then History([], map[])
    else
      var H := Iterate(graphs, iterations - 1);
      var P := Sweep(graphs, PrevsAfter(graphs, H.passes), H.dict, |graphs|);
      History(H.passes + [P.results], P.dict)
  }

  /** Graph `k`'s count of `w` in one round (0 if the round has no graph `k`). */
  function CountIn(results: seq<Labelling>, k: nat, w: string): nat
  {
    if k < |results| then Count(results[k].wordCount, w) else 0
  }

  /** Graph `k`'s counts of `w`, added up over all rounds of `passes`. */
  function KernelSum(passes: seq<seq<Labelling>>, k: nat, w: string): nat
    decreases |passes|
  {
    if |passes| == 0 then 0
    else KernelSum(passes[..|passes| - 1], k, w) + CountIn(passes[|passes| - 1], k, w)
  }

  /** Graph `k`'s word counts in one round (none if the round has no graph
      `k`). */
  function WordCountIn(results: seq<Labelling>, k: nat): (wc: map<string, nat>)
    ensures k >= |results| ==> wc == map[]
  {
    if k < |results| then results[k].wordCount else map[]
  }

  /** Graph `k`'s kernel entry for `w` after the rounds of `passes`, with
      line 156 read as `grouping` says: a round in which some graph counted
      `w` rewrites the entry from graph `k`'s count, any other round leaves
      it as it was. */
  function KernelValue(grouping: Grouping, passes: seq<seq<Labelling>>, k: nat, w: string): nat
    decreases |passes|
  {
    if |passes| == 0 then 0
    else
      var n := |passes| - 1;
      var sofar := KernelValue(grouping, passes[..n], k, w);
      if w in PassStream(passes[n]) then Grow(grouping, sofar, WordCountIn(passes[n], k), w) else sofar
  }

  /** One more round of the kernel entry. */
  lemma KernelValueNext(grouping: Grouping, passes: seq<seq<Labelling>>, results: seq<Labelling>, k: nat, w: string)
    ensures KernelValue(grouping, passes + [results], k, w) ==
      if w in PassStream(results) then Grow(grouping, KernelValue(grouping, passes, k, w), WordCountIn(results, k), w)
      else KernelValue(grouping, passes, k, w)
  {
    assert (passes + [results])[..|passes|] == passes;
  }

  /** A word no round has seen has an entry of 0, whichever the reading. */
  lemma {:induction false} KernelValueUnseen(grouping: Grouping, passes: seq<seq<Labelling>>, k: nat, w: string)
    requires w !in WordStream(passes)
    ensures KernelValue(grouping, passes, k, w) == 0
    decreases |passes|
  {
    if |passes| > 0 {
      var n := |passes| - 1;
      KernelValueUnseen(grouping, passes[..n], k, w);
    }
  }

  /** Read as intended, line 156 makes the entry the graph's counts of the
      word added up over all rounds. */
  lemma {:induction false} KernelValueIntended(graphs: seq<Graph>, passes: seq<seq<Labelling>>, k: nat, w: string)
    requires Consistent(graphs, passes) && k < |graphs|
    ensures KernelValue(Intended, passes, k, w) == KernelSum(passes, k, w)
    decreases |passes|
  {
    if |passes| > 0 {
      var n := |passes| - 1;
      assert Consistent(graphs, passes[..n]) by {
        forall t | 0 <= t < n ensures PassOf(graphs, passes[..n][t]) { assert passes[..n][t] == passes[t]; }
      }
      KernelValueIntended(graphs, passes[..n], k, w);
      assert PassOf(graphs, passes[n]);
      if w !in PassStream(passes[n]) {
        assert w !in passes[n][k].labels;
      }
    }
  }

  /** Read as written, line 156 never yields more than the sum: it can only
      lose counts. */
  lemma {:induction false} KernelValueAsWrittenBelow(passes: seq<seq<Labelling>>, k: nat, w: string)
    ensures KernelValue(AsWritten, passes, k, w) <= KernelSum(passes, k, w)
    decreases |passes|
  {
    if |passes| > 0 {
      var n := |passes| - 1;
      KernelValueAsWrittenBelow(passes[..n], k, w);
    }
  }

  /** Read as written, line 156 still gives the sum when, in every round in
      which some graph counted the word, graph `k` counted it too. */
  lemma {:induction false} KernelValueAsWrittenExact(graphs: seq<Graph>, passes: seq<seq<Labelling>>, k: nat, w: string)
    requires Consistent(graphs, passes) && k < |graphs|
    requires forall t :: 0 <= t < |passes| && w in PassStream(passes[t]) ==> w in passes[t][k].wordCount
    ensures KernelValue(AsWritten, passes, k, w) == KernelSum(passes, k, w)
    decreases |passes|
  {
    if |passes| > 0 {
      var n := |passes| - 1;
      assert Consistent(graphs, passes[..n]) by {
        forall t | 0 <= t < n ensures PassOf(graphs, passes[..n][t]) { assert passes[..n][t] == passes[t]; }
      }
      forall t | 0 <= t < n && w in PassStream(passes[..n][t]) ensures w in passes[..n][t][k].wordCount {
        assert passes[..n][t] == passes[t];
      }
      KernelValueAsWrittenExact(graphs, passes[..n], k, w);
      assert PassOf(graphs, passes[n]);
      if w !in PassStream(passes[n]) {
        assert w !in passes[n][k].labels;
      }
    }
  }

  /** Read as written, a round in which some graph counted the word but
      graph `k` did not resets graph `k`'s entry to 0. */
  lemma KernelValueAsWrittenReset(passes: seq<seq<Labelling>>, results: seq<Labelling>, k: nat, w: string)
    requires w in PassStream(results) && w !in WordCountIn(results, k)
    ensures KernelValue(AsWritten, passes + [results], k, w) == 0
    ensures KernelValue(Intended, passes + [results], k, w) == KernelValue(Intended, passes, k, w)
  {
    KernelValueNext(AsWritten, passes, results, k, w);
    KernelValueNext(Intended, passes, results, k, w);
  }

  /** The words of one round in the order the histogram index sees them:
      graph by graph, each graph's words in the order its word counts hold
      them. */
  function PassStream(results: seq<Labelling>): (r: seq<string>)
    ensures forall w :: w in r <==> exists k :: 0 <= k < |results| && w in results[k].labels
    decreases |results|
  {
    if |results| == 0 then []
    else
      var n := |results| - 1;
      var r := PassStream(results[..n]) + WordOrder(results[n].labels);
      assert forall w :: (exists k :: 0 <= k < |results| && w in results[k].labels) ==>
        (exists k :: 0 <= k < n && w in results[..n][k].labels) || w in results[n].labels by {
        forall w | exists k :: 0 <= k < |results| && w in results[k].labels
          ensures (exists k :: 0 <= k < n && w in results[..n][k].labels) || w in results[n].labels
        {
          var k :| 0 <= k < |results| && w in results[k].labels;
          if k < n { assert results[..n][k] == results[k]; }
        }
      }
      r
  }

  /** The words of all rounds, in the order the histogram index sees them. */
  function WordStream(passes: seq<seq<Labelling>>): seq<string>
    decreases |passes|
  {
    if |passes| == 0 then [] else WordStream(passes[..|passes| - 1]) + PassStream(passes[|passes| - 1])
  }

  /** Adding two lists of words one after the other. */
  lemma {:induction false} NewWordsAppend(known: set<string>, a: seq<string>, b: seq<string>)
    ensures NewWords(known, a + b) == NewWords(known, a) + NewWords(known + (set w | w in a), b)
    decreases |b|
  {
    var known' := known + (set v | v in a);
    if |b| == 0 {
      assert a + b == a;
    } else {
      var init, w := b[..|b| - 1], b[|b| - 1];
      assert b == init + [w];
      assert a + b == (a + init) + [w];
      var x := if w in known || w in a + init then [] else [w];
      var y := if w in known' || w in init then [] else [w];
      assert x == y;
      NewWordsAppend(known, a, init);
      NewWordsSnoc(known, a + init, w);
      NewWordsSnoc(known', init, w);
      AppendAssociative(NewWords(known, a), NewWords(known', init), x);
    }
  }

  /** A word no round has seen is counted 0 times in every kernel. */
  lemma {:induction false} KernelSumUnseen(graphs: seq<Graph>, passes: seq<seq<Labelling>>, k: nat, w: string)
    requires Consistent(graphs, passes) && k < |graphs|
    requires w !in WordStream(passes)
    ensures KernelSum(passes, k, w) == 0
    decreases |passes|
  {
    if |passes| > 0 {
      var n := |passes| - 1;
      assert Consistent(graphs, passes[..n]) by {
        forall t | 0 <= t < n ensures PassOf(graphs, passes[..n][t]) { assert passes[..n][t] == passes[t]; }
      }
      KernelSumUnseen(graphs, passes[..n], k, w);
      assert PassOf(graphs, passes[n]);
      assert w !in passes[n][k].labels;
    }
  }

  /** One round adds one more pass to the word stream and to every sum. */
  lemma WordStreamSnoc(passes: seq<seq<Labelling>>, results: seq<Labelling>)
    ensures WordStream(passes + [results]) == WordStream(passes) + PassStream(results)
  {
    assert (passes + [results])[..|passes|] == passes;
  }

  /** After a round, the kernel of graph `k` holds, at the position of every
      indexed word, that word's entry over all rounds, and nothing at any
      other position. */
  lemma RoundKernel(
    grouping: Grouping, passes: seq<seq<Labelling>>, results: seq<Labelling>, k: nat,
    index: map<string, nat>, order0: seq<string>, order1: seq<string>, unified: set<string>,
    before: Kernel, after: Kernel)
    requires k < |results|
    requires order0 == NewWords({}, WordStream(passes))
    requires order1 == NewWords({}, WordStream(passes + [results]))
    requires Numbered(index, order1)
    requires forall w :: w in unified <==> w in PassStream(results)
    requires unified <= index.Keys
    requires forall j: nat :: j in before <==> j < |order0|
    requires forall j :: 0 <= j < |order0| ==> before[j] == KernelValue(grouping, passes, k, order0[j])
    requires Accumulated(grouping, before, after, results[k].wordCount, index, unified)
    ensures forall j: nat :: j in after <==> j < |order1|
    ensures forall j :: 0 <= j < |order1| ==> j in after && after[j] == KernelValue(grouping, passes + [results], k, order1[j])
  {
    var S, P := WordStream(passes), PassStream(results);
    WordStreamSnoc(passes, results);
    var added := AddedWords(S, P, order0, order1);
    forall j | j in after ensures j < |order1| {
      if j !in before {
        var w :| w in unified && index[w] == j;
      }
    }
    forall j | 0 <= j < |order1|
      ensures j in after && after[j] == KernelValue(grouping, passes + [results], k, order1[j])
    {
      var w := order1[j];
      if j >= |order0| {
        assert w == added[j - |order0|];
        KernelValueUnseen(grouping, passes, k, w);
      }
      RoundEntry(grouping, passes, results, k, index, order0, order1, unified, before, after, j);
    }
  }

  /** The positions a round adds to the index go to words of this round that
      no earlier round had. */
  lemma AddedWords(S: seq<string>, P: seq<string>, order0: seq<string>, order1: seq<string>)
    returns (added: seq<string>)
    requires order0 == NewWords({}, S) && order1 == NewWords({}, S + P)
    ensures order1 == order0 + added
    ensures forall w :: w in added ==> w in P && w !in S
  {
    NewWordsAppend({}, S, P);
    added := NewWords({} + (set v | v in S), P);
  }

  /** One position of the kernel after a round. */
  lemma RoundEntry(
    grouping: Grouping, passes: seq<seq<Labelling>>, results: seq<Labelling>, k: nat,
    index: map<string, nat>, order0: seq<string>, order1: seq<string>, unified: set<string>,
    before: Kernel, after: Kernel, j: nat)
    requires k < |results|
    requires Numbered(index, order1) && j < |order1|
    requires unified <= index.Keys
    requires forall i: nat :: i in before <==> i < |order0|
    requires j < |order0| ==> order0[j] == order1[j] && before[j] == KernelValue(grouping, passes, k, order1[j])
    requires j >= |order0| ==> order1[j] in unified && KernelValue(grouping, passes, k, order1[j]) == 0
    requires order1[j] in unified <==> order1[j] in PassStream(results)
    requires Accumulated(grouping, before, after, results[k].wordCount, index, unified)
    ensures j in after && after[j] == KernelValue(grouping, passes + [results], k, order1[j])
  {
    var w := order1[j];
    assert index[w] == j;
    KernelValueNext(grouping, passes, results, k, w);
    if w !in unified {
      assert j < |order0| && j in before;
      assert j !in Slots(index, unified);
    } else {
      assert after[j] == Grow(grouping, Count(before, j), results[k].wordCount, w);
    }
  }

  /** A graph's word counts after the rounds of `passes`: none before the
      first round, then those of the last round. */
  function CountsAfter(passes: seq<seq<Labelling>>, k: nat): map<string, nat>
  {
    if |passes| == 0 || k >= |passes[|passes| - 1]| then map[] else passes[|passes| - 1][k].wordCount
  }

  /** Refining one more graph continues the round. */
  lemma SweepNext(
    graphs: seq<Graph>, prevs: seq<Option<seq<string>>>, d: map<string, string>, k: nat,
    results: seq<Labelling>, before: map<string, string>, labelling: Labelling, after: map<string, string>)
    requires AllValid(graphs) && Fits(graphs, prevs) && k < |graphs|
    requires Sweep(graphs, prevs, d, k) == Pass(results, before)
    requires Refine(graphs[k], prevs[k], before) == Round(labelling, after)
    ensures Sweep(graphs, prevs, d, k + 1) == Pass(results + [labelling], after)
  {
  }

  /** One more round continues the history. */
  lemma IterateNext(
    graphs: seq<Graph>, i: nat, passes: seq<seq<Labelling>>, d: map<string, string>,
    results: seq<Labelling>, after: map<string, string>)
    requires AllValid(graphs)
    requires Iterate(graphs, i) == History(passes, d)
    requires Sweep(graphs, PrevsAfter(graphs, passes), d, |graphs|) == Pass(results, after)
    ensures Iterate(graphs, i + 1) == History(passes + [results], after)
  {
  }

  /** Indexing the words of one more list after those of `xs`. */
  lemma IndexStep(xs: seq<string>, ys: seq<string>, index0: map<string, nat>, order0: seq<string>, order1: seq<string>)
    requires Numbered(index0, order0) && order0 == NewWords({}, xs)
    requires order1 == order0 + NewWords(index0.Keys, ys)
    ensures order1 == NewWords({}, xs + ys)
  {
    NewWordsAppend({}, xs, ys);
    forall w | w in ys ensures w in {} + (set v | v in xs) <==> w in index0.Keys {
      assert w in index0 <==> w in order0;
    }
    NewWordsSameKnown({} + (set v | v in xs), index0.Keys, ys);
  }

  /** Only whether each listed word is known matters. */
  lemma {:induction false} NewWordsSameKnown(known: set<string>, known': set<string>, words: seq<string>)
    requires forall w :: w in words ==> (w in known <==> w in known')
    ensures NewWords(known, words) == NewWords(known', words)
    decreases |words|
  {
    if |words| > 0 {
      var init := words[..|words| - 1];
      assert forall w :: w in init ==> w in words;
      NewWordsSameKnown(known, known', init);
    }
  }

  /** Indexing one more graph's words continues the round's word stream. */
  lemma IndexGraph(
    seen: seq<string>, results: seq<Labelling>, labelling: Labelling,
    index0: map<string, nat>, order0: seq<string>, order1: seq<string>)
    requires Numbered(index0, order0) && order0 == NewWords({}, seen + PassStream(results))
    requires order1 == order0 + NewWords(index0.Keys, WordOrder(labelling.labels))
    ensures order1 == NewWords({}, seen + PassStream(results + [labelling]))
  {
    IndexStep(seen + PassStream(results), WordOrder(labelling.labels), index0, order0, order1);
    PassStreamSnoc(results, labelling);
    AppendAssociative(seen, PassStream(results), WordOrder(labelling.labels));
  }

  lemma PassStreamSnoc(results: seq<Labelling>, r: Labelling)
    ensures PassStream(results + [r]) == PassStream(results) + WordOrder(r.labels)
  {
    assert (results + [r])[..|results|] == results;
  }

  /** The words of a round are the words its graphs counted. */
  lemma UnifiedIsPass(ws: seq<KernelInfo>, results: seq<Labelling>)
    requires |ws| == |results|
    requires forall k :: 0 <= k < |ws| ==> ws[k].wordCount == WordCount(results[k].labels)
    ensures forall w :: w in Unified(ws) <==> w in PassStream(results)
  {
  }

  function GraphsOf(ws: seq<KernelInfo>): (r: seq<Graph>)
    ensures |r| == |ws| && forall k :: 0 <= k < |ws| ==> r[k] == ws[k].graph
  {
    seq(|ws|, k requires 0 <= k < |ws| => ws[k].graph)
  }

  function PrevsOf(ws: seq<KernelInfo>): (r: seq<Option<seq<string>>>)
    ensures |r| == |ws| && forall k :: 0 <= k < |ws| ==> r[k] == ws[k].prevLabels
  {
    seq(|ws|, k requires 0 <= k < |ws| => ws[k].prevLabels)
  }

  /** The first half of a round of `getGraphsWLKernels`: every graph refined
      in order against the shared dictionary, its words indexed, and its
      labels and word counts kept for the next round. `seen` is the word
      stream the index has taken in so far. */
  method LabelRound(ws: seq<KernelInfo>, index: HistogramIndex, dict: Dictionary, ghost seen: seq<string>)
    returns (r: seq<KernelInfo>, results: seq<Labelling>)
    requires AllValid(GraphsOf(ws)) && Fits(GraphsOf(ws), PrevsOf(ws))
    requires index.Valid() && index.order == NewWords({}, seen)
    modifies index, dict
    ensures var P := Sweep(GraphsOf(ws), PrevsOf(ws), old(dict.entries), |ws|);
      results == P.results && dict.entries == P.dict
    ensures index.Valid() && index.order == NewWords({}, seen + PassStream(results))
    ensures |results| == |ws| && r == Relabelled(ws, results)
  {
    ghost var d := dict.entries;
    results := [];
    var k := 0;
    assert seen + PassStream(results) == seen;
    while k < |ws|
      invariant k <= |ws|
      invariant Sweep(GraphsOf(ws), PrevsOf(ws), d, k) == Pass(results, dict.entries)
      invariant index.Valid() && index.order == NewWords({}, seen + PassStream(results))
    {
      var labelling := LabelGraph(ws, k, index, dict, seen, results, d);
      results := results + [labelling];
      k := k + 1;
    }
    r := Relabelled(ws, results);
  }

  /** The working set after a round: each item keeps its graph and kernel
      and takes the labels and word counts of its refinement. */
  function Relabelled(ws: seq<KernelInfo>, results: seq<Labelling>): (r: seq<KernelInfo>)
    requires |results| == |ws|
    ensures |r| == |ws|
    ensures forall k :: 0 <= k < |ws| ==>
      r[k].graph == ws[k].graph && r[k].kernel == ws[k].kernel &&
      r[k].prevLabels == Some(results[k].labels) && r[k].wordCount == results[k].wordCount
  {
    seq(|ws|, k requires 0 <= k < |ws| =>
      ws[k].(prevLabels := Some(results[k].labels), wordCount := results[k].wordCount))
  }

  /** One graph of a round (the body of the `forEach`): item `k` refined
      against the shared dictionary, then its words handed to the index in
      the order its word counts hold them. `results` are the labellings of
      the items before it, and `d` the dictionary before the round. */
  method LabelGraph(
    ws: seq<KernelInfo>, k: nat, index: HistogramIndex, dict: Dictionary,
    ghost seen: seq<string>, ghost results: seq<Labelling>, ghost d: map<string, string>)
    returns (labelling: Labelling)
    requires AllValid(GraphsOf(ws)) && Fits(GraphsOf(ws), PrevsOf(ws)) && k < |ws|
    requires Sweep(GraphsOf(ws), PrevsOf(ws), d, k) == Pass(results, dict.entries)
    requires index.Valid() && index.order == NewWords({}, seen + PassStream(results))
    modifies index, dict
    ensures Refine(ws[k].graph, ws[k].prevLabels, old(dict.entries)) == Round(labelling, dict.entries)
    ensures Sweep(GraphsOf(ws), PrevsOf(ws), d, k + 1) == Pass(results + [labelling], dict.entries)
    ensures index.Valid() && index.order == NewWords({}, seen + PassStream(results + [labelling]))
  {
    ghost var before := dict.entries;
    labelling := ComputeLabels(ws[k].graph, ws[k].prevLabels, dict);
    SweepNext(GraphsOf(ws), PrevsOf(ws), d, k, results, before, labelling, dict.entries);
    ghost var index0, order0 := index.index, index.order;
    index.AddToGlobal(WordOrder(labelling.labels));
    IndexGraph(seen, results, labelling, index0, order0, index.order);
  }

  /** After a round's words are indexed, every word any graph counted has a
      position, and no two words share one. */
  lemma RoundIndexed(
    graphs: seq<Graph>, ws: seq<KernelInfo>, results: seq<Labelling>,
    index: map<string, nat>, order: seq<string>, seen: seq<string>)
    requires PassOf(graphs, results) && |ws| == |graphs|
    requires forall k :: 0 <= k < |ws| ==> ws[k].wordCount == results[k].wordCount
    requires Numbered(index, order) && order == NewWords({}, seen + PassStream(results))
    ensures Unified(ws) <= index.Keys
    ensures Injective(index)
  {
    UnifiedIsPass(ws, results);
    forall w | w in Unified(ws) ensures w in index {
      assert w in seen + PassStream(results);
      assert w in order;
    }
  }

  /** The second half of a round: the kernels after `updateKernels` hold
      the entries over one more round. */
  lemma KernelRound(
    grouping: Grouping, graphs: seq<Graph>, passes: seq<seq<Labelling>>, results: seq<Labelling>,
    ws0: seq<KernelInfo>, wsRound: seq<KernelInfo>, ws: seq<KernelInfo>,
    index: map<string, nat>, order0: seq<string>, order1: seq<string>)
    requires Summed(grouping, graphs, passes, ws0, order0) && PassOf(graphs, results)
    requires order1 == NewWords({}, WordStream(passes) + PassStream(results))
    requires Numbered(index, order1)
    requires |wsRound| == |graphs| && |ws| == |graphs|
    requires forall k :: 0 <= k < |graphs| ==>
      wsRound[k] == ws0[k].(prevLabels := Some(results[k].labels), wordCount := results[k].wordCount)
    requires Unified(wsRound) <= index.Keys
    requires forall k :: 0 <= k < |graphs| ==> ws[k] == wsRound[k].(kernel := ws[k].kernel)
    requires forall k :: 0 <= k < |graphs| ==>
      Accumulated(grouping, wsRound[k].kernel, ws[k].kernel, wsRound[k].wordCount, index, Unified(wsRound))
    ensures Summed(grouping, graphs, passes + [results], ws, order1)
  {
    ConsistentSnoc(graphs, passes, results);
    UnifiedIsPass(wsRound, results);
    WordStreamSnoc(passes, results);
    RoundKernels(grouping, graphs, passes, results, ws0, wsRound, ws, index, order0, order1, Unified(wsRound));
    RoundLabels(graphs, passes, results, ws0, wsRound, ws);
  }

  /** One more round of labellings keeps the history consistent. */
  lemma ConsistentSnoc(graphs: seq<Graph>, passes: seq<seq<Labelling>>, results: seq<Labelling>)
    requires Consistent(graphs, passes) && PassOf(graphs, results)
    ensures Consistent(graphs, passes + [results])
  {
    var passes' := passes + [results];
    forall t | 0 <= t < |passes'| ensures PassOf(graphs, passes'[t]) {
      if t < |passes| { assert passes'[t] == passes[t]; }
    }
  }

  /** After a round every item keeps its graph and holds the labels and
      word counts of the round's last labelling. */
  lemma RoundLabels(
    graphs: seq<Graph>, passes: seq<seq<Labelling>>, results: seq<Labelling>,
    ws0: seq<KernelInfo>, wsRound: seq<KernelInfo>, ws: seq<KernelInfo>)
    requires Consistent(graphs, passes + [results])
    requires GraphsOf(ws0) == graphs
    requires |results| == |graphs| && |wsRound| == |graphs| && |ws| == |graphs|
    requires forall k :: 0 <= k < |graphs| ==>
      wsRound[k] == ws0[k].(prevLabels := Some(results[k].labels), wordCount := results[k].wordCount)
    requires forall k :: 0 <= k < |graphs| ==> ws[k] == wsRound[k].(kernel := ws[k].kernel)
    ensures GraphsOf(ws) == graphs
    ensures PrevsOf(ws) == PrevsAfter(graphs, passes + [results])
    ensures forall k :: 0 <= k < |graphs| ==> ws[k].wordCount == CountsAfter(passes + [results], k)
  {
    assert GraphsOf(ws) == graphs;
    assert PrevsOf(ws) == PrevsAfter(graphs, passes + [results]);
  }

  /** Every kernel after `updateKernels` holds the entries over one more
      round. */
  lemma RoundKernels(
    grouping: Grouping, graphs: seq<Graph>, passes: seq<seq<Labelling>>, results: seq<Labelling>,
    ws0: seq<KernelInfo>, wsRound: seq<KernelInfo>, ws: seq<KernelInfo>,
    index: map<string, nat>, order0: seq<string>, order1: seq<string>, unified: set<string>)
    requires Consistent(graphs, passes) && PassOf(graphs, results)
    requires order0 == NewWords({}, WordStream(passes))
    requires order1 == NewWords({}, WordStream(passes + [results]))
    requires Numbered(index, order1)
    requires |ws0| == |graphs| && |wsRound| == |graphs| && |ws| == |graphs|
    requires forall k, j: nat :: 0 <= k < |graphs| ==> (j in ws0[k].kernel <==> j < |order0|)
    requires forall k, j :: 0 <= k < |graphs| && 0 <= j < |order0| ==> ws0[k].kernel[j] == KernelValue(grouping, passes, k, order0[j])
    requires forall k :: 0 <= k < |graphs| ==>
      wsRound[k].kernel == ws0[k].kernel && wsRound[k].wordCount == results[k].wordCount
    requires forall w :: w in unified <==> w in PassStream(results)
    requires unified <= index.Keys
    requires forall k :: 0 <= k < |graphs| ==>
      Accumulated(grouping, wsRound[k].kernel, ws[k].kernel, wsRound[k].wordCount, index, unified)
    ensures forall k, j: nat :: 0 <= k < |graphs| ==> (j in ws[k].kernel <==> j < |order1|)
    ensures forall k, j :: 0 <= k < |graphs| && 0 <= j < |order1| ==> ws[k].kernel[j] == KernelValue(grouping, passes + [results], k, order1[j])
  {
    forall k | 0 <= k < |graphs|
      ensures forall j: nat :: j in ws[k].kernel <==> j < |order1|
      ensures forall j :: 0 <= j < |order1| ==> j in ws[k].kernel && ws[k].kernel[j] == KernelValue(grouping, passes + [results], k, order1[j])
    {
      RoundKernel(grouping, passes, results, k, index, order0, order1, unified, wsRound[k].kernel, ws[k].kernel);
    }
  }

  /** The state of the working set after the rounds of `passes`: every
      graph keeps its last labels and word counts, and its kernel holds, at
      each position of the index order `order`, that word's entry over all
      rounds with line 156 read as `grouping` says, and nothing anywhere
      else. */
  ghost predicate Summed(grouping: Grouping, graphs: seq<Graph>, passes: seq<seq<Labelling>>, ws: seq<KernelInfo>, order: seq<string>)
  {
    && Consistent(graphs, passes)
    && GraphsOf(ws) == graphs
    && PrevsOf(ws) == PrevsAfter(graphs, passes)
    && (forall k :: 0 <= k < |graphs| ==> ws[k].wordCount == CountsAfter(passes, k))
    && order == NewWords({}, WordStream(passes))
    && (forall k, j: nat :: 0 <= k < |graphs| ==> (j in ws[k].kernel <==> j < |order|))
    && (forall k, j :: 0 <= k < |graphs| && 0 <= j < |order| ==> ws[k].kernel[j] == KernelValue(grouping, passes, k, order[j]))
  }

  /** One iteration of the loop of `getGraphsWLKernels`: every graph
      refined and its words indexed, then `updateKernels`. */
  method KernelIteration(
    graphs: seq<Graph>, ws: seq<KernelInfo>, index: HistogramIndex, dict: Dictionary, grouping: Grouping,
    ghost i: nat, ghost passes: seq<seq<Labelling>>)
    returns (r: seq<KernelInfo>, ghost results: seq<Labelling>)
    requires AllValid(graphs)
    requires Iterate(graphs, i) == History(passes, dict.entries)
    requires index.Valid() && Summed(grouping, graphs, passes, ws, index.order)
    modifies index, dict
    ensures Iterate(graphs, i + 1) == History(passes + [results], dict.entries)
    ensures index.Valid() && Summed(grouping, graphs, passes + [results], r, index.order)
  {
    ghost var order0 := index.order;
    ghost var before := dict.entries;
    r, results := LabelRound(ws, index, dict, WordStream(passes));
    IterateNext(graphs, i, passes, before, results, dict.entries);
    ghost var labelled := r;
    RoundIndexed(graphs, r, results, index.index, index.order, WordStream(passes));
    r := UpdateKernels(r, index.index, grouping);
    KernelRound(grouping, graphs, passes, results, ws, labelled, r, index.index, order0, index.order);
  }

  /** The loop of `getGraphsWLKernels`, from the state before the first
      round to the state after the last. */
  method KernelLoop(
    graphs: seq<Graph>, iterations: nat, ws0: seq<KernelInfo>, index: HistogramIndex, dict: Dictionary, grouping: Grouping)
    returns (ws: seq<KernelInfo>)
    requires AllValid(graphs)
    requires dict.entries == map[]
    requires index.Valid() && index.order == [] && Summed(grouping, graphs, [], ws0, [])
    modifies index, dict
    ensures index.Valid() && Summed(grouping, graphs, Iterate(graphs, iterations).passes, ws, index.order)
  {
    ws := ws0;
    ghost var passes: seq<seq<Labelling>> := [];
    assert Iterate(graphs, 0) == History(passes, dict.entries);
    var i := 0;
    while i < iterations
      invariant 0 <= i <= iterations
      invariant Iterate(graphs, i) == History(passes, dict.entries)
      invariant index.Valid() && Summed(grouping, graphs, passes, ws, index.order)
    {
      ghost var results;
      ws, results := KernelIteration(graphs, ws, index, dict, grouping, i, passes);
      passes := passes + [results];
      i := i + 1;
    }
  }

  /** `getGraphsWLKernels(graphs, iterations)`, with line 156 read as
      `grouping` says (the source is `AsWritten`). Every round refines every
      graph in order against one shared dictionary, indexes the new words,
      and rewrites every kernel from the round's counts. Afterwards each
      graph's previous labels and word counts are those of the last round,
      and its kernel is a dense vector over all words of all rounds, in the
      order the index first saw them (`words`, the index's keys by
      position), holding at each position that word's entry over all rounds;
      read as intended, that entry is the word's counts added up over all
      rounds. */
  method GetGraphsWLKernels(graphs: seq<Graph>, iterations: nat, grouping: Grouping)
    returns (ws: seq<KernelInfo>, ghost words: seq<string>)
    requires AllValid(graphs)
    ensures var h := Iterate(graphs, iterations);
      && |ws| == |graphs|
      && (forall k :: 0 <= k < |graphs| ==> ws[k].graph == graphs[k])
      && (forall k :: 0 <= k < |graphs| ==> ws[k].prevLabels == PrevsAfter(graphs, h.passes)[k])
      && (forall k :: 0 <= k < |graphs| ==> ws[k].wordCount == CountsAfter(h.passes, k))
      && words == NewWords({}, WordStream(h.passes))
      && (forall k, j: nat :: 0 <= k < |graphs| ==> (j in ws[k].kernel <==> j < |words|))
      && (forall k, j :: 0 <= k < |graphs| && 0 <= j < |words| ==> ws[k].kernel[j] == KernelValue(grouping, h.passes, k, words[j]))
      && (grouping == Intended ==>
            forall k, j :: 0 <= k < |graphs| && 0 <= j < |words| ==> ws[k].kernel[j] == KernelSum(h.passes, k, words[j]))
  {
    var index := new HistogramIndex();
    var dict := new Dictionary();
    ws := InitialWorkingSet(graphs);
    ws := KernelLoop(graphs, iterations, ws, index, dict, grouping);
    words := index.order;
    ghost var passes := Iterate(graphs, iterations).passes;
    SummedState(grouping, graphs, passes, ws, words);
    forall k, j | 0 <= k < |graphs| && 0 <= j < |words| ensures KernelValue(Intended, passes, k, words[j]) == KernelSum(passes, k, words[j]) {
      KernelValueIntended(graphs, passes, k, words[j]);
    }
  }

  /** The working set before the first round: every graph with an empty
      kernel, no previous labels and no word counts. */
  function InitialWorkingSet(graphs: seq<Graph>): (ws: seq<KernelInfo>)
    ensures forall grouping :: Summed(grouping, graphs, [], ws, [])
  {
    var ws := seq(|graphs|, k requires 0 <= k < |graphs| => KernelInfo(graphs[k], map[], None, map[]));
    assert forall k :: 0 <= k < |graphs| ==> ws[k].kernel == map[];
    assert PrevsOf(ws) == PrevsAfter(graphs, []);
    ws
  }

  /** Proof helper: `Summed` spelled out for each graph of the working set. */
  lemma SummedState(grouping: Grouping, graphs: seq<Graph>, passes: seq<seq<Labelling>>, ws: seq<KernelInfo>, order: seq<string>)
    requires Summed(grouping, graphs, passes, ws, order)
    ensures |ws| == |graphs|
    ensures forall k :: 0 <= k < |graphs| ==> ws[k].graph == graphs[k]
    ensures forall k :: 0 <= k < |graphs| ==> ws[k].prevLabels == PrevsAfter(graphs, passes)[k]
    ensures forall k :: 0 <= k < |graphs| ==> ws[k].wordCount == CountsAfter(passes, k)
    ensures order == NewWords({}, WordStream(passes))
    ensures forall k, j: nat :: 0 <= k < |graphs| ==> (j in ws[k].kernel <==> j < |order|)
    ensures forall k, j :: 0 <= k < |graphs| && 0 <= j < |order| ==> ws[k].kernel[j] == KernelValue(grouping, passes, k, order[j])
  {
    assert |GraphsOf(ws)| == |ws|;
  }
}
