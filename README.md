# Weisfeiler-Lehman labelling, kernels and similarity

A Dafny model of the labelling engine of `ngraph.weisfeiler-lehman` (`index.js`):

- **One refinement round (`computeLabels`).**
  - A node's *signature* is its previous label followed by the sorted labels of its neighbours.
  - A label dictionary compresses each signature to a short decimal code. Codes start at `"1"` and follow the dictionary's size.
  - The round counts how often each code occurs (`wordCount`).
- **The histogram index (`addToGlobal`).** It gives every word (code) a position in the kernel vectors, in first-seen order.
- **Kernel assembly (`updateKernels`, `getGraphsWLKernels`).**
  - Several graphs are refined for a number of iterations against one shared dictionary.
  - After each iteration, every graph's entry for every word some graph counted is rewritten by line 156 of `updateKernels`.
  - Line 156 is modelled in two readings (`Grouping`). `AsWritten` is the source's grouping. `Intended` adds the looked-up count defaulted to 0.
  - Read as intended, each graph's kernel sums its word counts over all iterations. Read as written, an entry can be reset to 0.
- **Similarity of two kernels.**
  - `dot` and the integer terms of `cosineSimilarity`.
  - `jaccardSimilarity`, and `getGraphWLJaccardSimilarity` on top of the kernels.
  - JavaScript division is modelled with its `NaN` and infinities.
- **The rejection test `maybeIsomorphic`.**
  - It rejects when node counts, link counts or any round's word counts differ.
  - It stops early once no label changes.

The files:

- **Data model.** `labels.dfy` (codes, the sort order, `join`), `graphs.dfy` (the adjacency the engine reads, renamings), `interning.dfy` (the label dictionary).
- **One round.** `refinement.dfy` holds the spec function `Refine` and the imperative `ComputeLabels` proved against it.
- **Kernels.** `kernels.dfy` holds the `HistogramIndex` class, `UpdateKernels` and `GetGraphsWLKernels`. They are proved against the spec functions `Iterate` and `KernelValue`, and `KernelValue` is related to the summed counts `KernelSum` by lemmas.
- **Similarity.** `similarity.dfy` and `pairs.dfy`.
- **The test.** `isomorphism.dfy`.
- **Worked counterexamples.**
  - `precedence.dfy` traces the operator-precedence problem of `updateKernels` through the kernels of two small graphs.
  - `precedence_similarity.dfy` carries the same two graphs through to `getGraphWLJaccardSimilarity`. The similarity is 0 as written and 2/8 as intended.

How the source is mapped:

- **Graphs.** A graph has the nodes `0 .. nodeCount-1` and a sequence of links.
  - Maps keyed by node (`labels`, `prevLabels`, `uncompressedLabels`) are sequences indexed by node.
  - `wordCount`, the dictionary and the histogram index stay maps.
- **Map order.** Iterating a `Map` visits keys in insertion order. For `wordCount` that is the order in which the labels first occur (`WordOrder`).
- **Set order.** A JavaScript `Set` iterates in insertion order. The model treats the order of `unifiedLabels` as arbitrary: `UpdateKernels` takes the remaining words in any order. The proof therefore covers every order, insertion order included.
- **The kernel array.** It is a `map<nat, nat>` from position to entry, so "an index the array does not hold" (`v[index] || 0`) is explicit.
  - Under both readings every graph's kernel holds exactly the positions `0 .. n-1`, so the JavaScript array is dense. Its length `a.length` is that `n`.
- **JavaScript values.** `undefined` and `NaN` are `None` in `Get`, `Plus` and `OrZero`. That is how line 156 turns `old + undefined` into 0.

Results:

- **Two defects, both proved** (see "## Findings").
  - `maybeIsomorphic` gives each graph a private dictionary. The doc comment at `index.js:6-9` promises that `false` means "not isomorphic", but two isomorphic paths are rejected.
  - Line 156 of `updateKernels` groups `|| 0` around the whole sum. Say some graph counts a word in an iteration and another graph does not. The second graph's entry for that word is then reset to 0, losing its earlier counts.
- **The corrected versions:**
  - `MaybeIsomorphicShared` uses one dictionary per round, and is proved never to reject an isomorphic pair.
  - `UpdateKernels` and `GetGraphsWLKernels` with `Intended` read line 156 as `(v[index] || 0) + (item.wordCount.get(word) || 0)`.
  - The kernels then satisfy the intended invariant: entry `j` of graph `k` is the number of nodes of graph `k` that carried word `j`, summed over all iterations (`KernelValueIntended`).
  - With `AsWritten` the same methods are proved to compute `KernelValue(AsWritten, ...)`. That value never exceeds the sum. It equals the sum when graph `k` counted the word in every iteration in which any graph did.

## Model

| member | source | states |
|---|---|---|
| Labels.Code | index.js:211 | a code, `'' + (dictionary.size + 1)`, is a non-empty decimal text |
| Labels.DecodeCode | index.js:211 | reading a code back as a number gives the dictionary size it was made from |
| Labels.CodeInjective | index.js:211 | two codes are equal exactly when they were made from the same number, so each new entry gets a code no other entry has |
| Labels.LexLe | index.js:198 | the order of the default `sort` on strings: a prefix first, otherwise the smaller character at the first difference |
| Labels.LexLeReflexive | index.js:198 | the order of the default `sort` (character by character, a prefix first) is reflexive |
| Labels.LexLeTotal | index.js:198 | any two labels are comparable under that order |
| Labels.LexLeAntisymmetric | index.js:198 | labels ordered both ways are equal |
| Labels.LexLeTransitive | index.js:198 | the order is transitive |
| Labels.Insert | index.js:198 | inserting a label into a sorted list gives a sorted list holding one more copy of that label |
| Labels.SortLabels | index.js:198 | `neighbors.sort()` returns a sorted permutation of the neighbour labels |
| Labels.SortedUnique | index.js:198 | two sorted lists that are permutations of each other are equal, so the sort's result depends only on the multiset of the labels |
| Labels.SortLabelsOrderIndependent | index.js:191-198 | neighbour labels enumerated in any order sort to the same list |
| Labels.Join | index.js:207 | `join('')`: the labels concatenated in order with no delimiter |
| Labels.JoinCollides | index.js:207 | `join('')` of two different sorted label lists can give the same text (`["1","23"]` and `["12","3"]`) |
| Graphs.LinkLabel | index.js:194-195 | a link touching the node contributes the previous label of its other endpoint; any other link contributes nothing |
| Graphs.NeighbourLabels | index.js:194-196 | the previous labels of a node's neighbours, one per link touching it, in link order |
| Graphs.NeighbourLabelsAppend | index.js:194-196 | enumerating two lists of links one after the other gives the neighbour labels of the first followed by those of the second |
| Graphs.NeighbourLabelsPermutation | index.js:194-196 | links listed in another order give the same multiset of neighbour labels |
| Graphs.IsomorphismReflexive | index.js:6-9 | every valid graph is isomorphic to itself under the identity renaming |
| Graphs.IsomorphismCounts | index.js:49-50 | isomorphic graphs have the same node and link counts, so the quick rejections never reject an isomorphic pair |
| Graphs.RenamedNeighbourLabels | index.js:194-196 | renaming the nodes of the links and of the previous labels alike keeps every node's neighbour labels |
| Graphs.IsomorphicNeighbourLabels | index.js:194-196 | in an isomorphic graph the renamed node has the same multiset of neighbour labels as its original |
| Interning.WellNumbered | index.js:210-212 | the dictionary's invariant: every code is the text of a number from 1 to the dictionary's size, and no two signatures share a code |
| Interning.AddKeepsNumbering | index.js:210-212 | adding a new signature under code `size + 1` keeps the dictionary's codes exactly `1 .. size`, without repeats |
| Interning.Resolve | index.js:209-213 | the signature ends up in the dictionary under the returned code. A known signature changes nothing. An unknown one gets `size + 1` and grows the dictionary by one. Old entries are kept and the numbering stays gap-free |
| Interning.InternAll | index.js:206-214 | one code per signature, each the code the signature finally has; the dictionary holds the old signatures plus the new ones and keeps old entries |
| Interning.CodesDistinguishSignatures | index.js:206-214 | against a well-numbered dictionary two nodes get the same code exactly when their signatures are equal |
| Interning.InternAllKnown | index.js:209-210 | signatures the dictionary already knows leave it unchanged and get their known codes |
| Interning.Dictionary.constructor | index.js:203 | a new dictionary is empty |
| Interning.Dictionary.LookupOrInsert | index.js:209-213 | the returned code and the new entries are exactly what `Resolve` gives on the old entries |
| Refinement.InitialLabels | index.js:184-189 | without previous labels every node is labelled `'1'` |
| Refinement.SortedNeighbourLabels | index.js:192-198 | a node's `uncompressedLabels` entry: its neighbours' previous labels, sorted |
| Refinement.UncompressedLabels | index.js:191-200 | one sorted neighbour list per node, each the `SortedNeighbourLabels` of that node |
| Refinement.Signature | index.js:207 | the hash of a node: its previous label followed by its sorted neighbour labels joined with no delimiter |
| Refinement.Signatures | index.js:206-207 | one hash per node, in node order, each that node's `Signature` |
| Refinement.Refine | index.js:181-219 | one round as a function: the previous labels (or `'1'` everywhere), the sorted neighbour labels, the signatures interned in node order against the dictionary, and the word counts of the new labels |
| Refinement.WordCount | index.js:204-215 | the words counted are exactly the labels, each counted as many times as it occurs |
| Refinement.WordOrder | index.js:215 | the insertion order of `wordCount` lists every label once and nothing else |
| Refinement.WordCountOfMultiset | index.js:215 | the counts depend only on the multiset of labels |
| Refinement.WordCountTotals | index.js:215 | every count is at least 1 and the counts add up to the number of nodes |
| Refinement.RefinePrevLabels | index.js:184-189 | the round keeps one previous label per node: the given labels, or `'1'` for every node |
| Refinement.RefineUncompressed | index.js:191-200 | each node's uncompressed label is sorted and is a permutation of its neighbours' previous labels |
| Refinement.RefineCodes | index.js:206-214 | against a well-numbered dictionary two nodes get the same new label exactly when their signatures agree; the dictionary only grows and stays well numbered |
| Refinement.RefineWordCount | index.js:204-216 | the round's word counts count its new labels: each count is at least 1 and the counts add up to the node count |
| Refinement.SortedNeighbourLabelsLinkOrder | index.js:194-198 | the sorted neighbour labels do not depend on the order in which the links are listed |
| Refinement.RefineLinkOrderIndependent | index.js:181-219 | a whole round, dictionary included, does not depend on the order of the links |
| Refinement.IsomorphicSignature | index.js:207 | a renamed node of an isomorphic graph has the same signature as its original when the previous labels were renamed alike |
| Refinement.InternRenamed | index.js:206-214 | interning a renamed list of signatures right after the original adds nothing and gives each renamed node its original's code and the same word counts |
| Refinement.RefineIsomorphicShared | index.js:181-219 | two isomorphic graphs refined one after the other against one dictionary get renamed-equal labels and equal word counts, and the second adds nothing to the dictionary |
| Refinement.CollectNeighbours | index.js:192-196 | the loop over the links collects exactly the node's neighbour labels, in link order |
| Refinement.SortAllNeighbours | index.js:191-200 | the loop over the nodes builds exactly the sorted neighbour labels of every node |
| Refinement.CompressAll | index.js:202-216 | the loop over the nodes interns every hash into the dictionary in node order, as `InternAll` does, and counts the resulting labels |
| Refinement.ComputeLabels | index.js:181-219 | the labelling returned and the new dictionary entries are exactly `Refine`'s; a missing dictionary means working against a fresh one |
| Kernels.NewWords | index.js:136-139 | the words not yet indexed, each once, in first-seen order |
| Kernels.NewWordsSnoc | index.js:136-139 | one more word extends the new words by that word if it is neither known nor seen |
| Kernels.NewWordsAppend | index.js:136-139 | the new words of two lists are those of the first followed by those of the second that neither the index nor the first list has |
| Kernels.Numbered | index.js:135-140 | the index gives the words of `order` the positions `0 .. size-1` by place, without gaps or repeats |
| Kernels.NumberedAdd | index.js:138 | giving an unindexed word the position `keyToIndex.size` keeps the positions exactly `0 .. size-1` |
| Kernels.HistogramIndex.constructor | index.js:107 | a new histogram index is empty |
| Kernels.HistogramIndex.AddToGlobal | index.js:135-140 | every word not yet indexed gets the next position in iteration order, indexed words keep theirs, the index gains exactly the words, and positions stay gap-free |
| Kernels.Assigned | index.js:135-140 | the index afterwards holds the old words and the given words |
| Kernels.AssignedNumbered | index.js:135-140 | the positions handed out number old and new words `0 .. size-1` in first-seen order; old positions are kept |
| Kernels.Get | index.js:153-156 | `m.get(key)` and `v[index]`: the stored value, or `undefined` (`None`) for a missing key |
| Kernels.Plus | index.js:156 | JavaScript `+` of a number and a looked-up count: adding `undefined` gives `NaN` (`None`) |
| Kernels.OrZero | index.js:156 | the JavaScript default to 0 of line 156: `undefined` and `NaN` give 0 |
| Kernels.Count | index.js:156 | a looked-up entry defaulted to 0: the stored value, and 0 exactly when the key is missing |
| Kernels.Accumulate | index.js:156 | line 156 as intended: never below the old entry, and the old entry plus the graph's count when the graph has the word |
| Kernels.AccumulateAsWritten | index.js:156 | line 156 as written: the old entry plus the graph's count when the graph has the word, and 0 when it does not |
| Kernels.AccumulateAsWrittenDiffers | index.js:156 | line 156 as written agrees with the intended sum when the graph counted the word; otherwise it yields 0 where the sum so far was meant |
| Kernels.Grow | index.js:156 | under either reading the entry grows by the graph's count when the graph has the word; otherwise it stays (`Intended`) or becomes 0 (`AsWritten`) |
| Kernels.Unified | index.js:143-148 | `unifiedLabels`: exactly the words some graph of the working set counted |
| Kernels.Slots | index.js:153 | the positions the index gives a set of words |
| Kernels.Injective | index.js:138 | no two words of the index share a position |
| Kernels.Accumulated | index.js:151-158 | after the outer loop: a kernel holds its old positions plus those of the unified words; each unified word's entry is line 156 applied to the old entry, and every other entry is unchanged |
| Kernels.AccumulatedStep | index.js:153-157 | rewriting one more word's entry by line 156 extends what has been accumulated, under either reading |
| Kernels.UpdateKernels | index.js:142-159 | under the given reading of line 156: the result is `Accumulated` for every graph, with the unified words of the round and each graph's own counts. Only the kernels change. `AsWritten` is the source; `Intended` is the correction |
| Kernels.UnifiedWords | index.js:143-148 | `unifiedLabels` holds exactly the words some graph counted this round |
| Kernels.UnifiedSnoc | index.js:146-148 | one more item adds exactly its counted words |
| Kernels.BumpAll | index.js:154-157 | the inner loop rewrites the given word's entry by line 156 in every item of the working set, and changes nothing else |
| Kernels.Bump | index.js:155-156 | one item with its entry at the word's position rewritten by line 156, read as given |
| Kernels.Sweep | index.js:119-124 | one pass over the working set gives one labelling per graph, one label per node, and word counts that count those labels |
| Kernels.PrevsAfter | index.js:122-123 | before the first iteration no graph has previous labels; afterwards each has the labels of the last iteration |
| Kernels.Iterate | index.js:118-127 | `iterations` passes, each consistent with the graphs |
| Kernels.PassStream | index.js:121 | the words indexed in one pass are exactly the labels some graph carries |
| Kernels.CountIn | index.js:156 | graph `k`'s count of the word in one round, 0 when it lacks the word |
| Kernels.KernelSum | index.js:118-127 | the reference definition of the intended kernel: graph `k`'s counts of the word, added up over all rounds |
| Kernels.KernelSumUnseen | index.js:156 | a word no iteration produced has a summed count of 0 |
| Kernels.WordCountIn | index.js:156 | graph `k`'s word counts in one round, empty when the round has no graph `k` |
| Kernels.KernelValue | index.js:118-127 | graph `k`'s entry for a word after the rounds: each round in which some graph counted the word rewrites it by line 156, read as given; other rounds leave it unchanged |
| Kernels.KernelValueNext | index.js:126 | one more round rewrites the entry by line 156 exactly when the round has the word |
| Kernels.KernelValueUnseen | index.js:153-156 | a word no round produced has an entry of 0 in either reading |
| Kernels.KernelValueIntended | index.js:156 | read as intended, the entry is the graph's counts of the word added up over all rounds (`KernelSum`) |
| Kernels.KernelValueAsWrittenBelow | index.js:156 | read as written, the entry never exceeds that sum |
| Kernels.KernelValueAsWrittenExact | index.js:156 | read as written, the entry equals the sum when the graph counted the word in every round where some graph did |
| Kernels.KernelValueAsWrittenReset | index.js:156 | a round in which some graph counts the word but graph `k` does not resets `k`'s entry to 0 as written, and keeps it as intended |
| Kernels.WordStream | index.js:118-127 | the words of all rounds, in the order the index sees them |
| Kernels.RoundKernel | index.js:142-159 | if entry `j` held word `j`'s entry over the earlier rounds, it holds the entry over one more round after `updateKernels`, under either reading. The positions are exactly the words seen so far |
| Kernels.AddedWords | index.js:136-139 | the positions a round adds go to words of that round that no earlier round had |
| Kernels.RoundEntry | index.js:151-158 | one position of the kernel after a round holds its word's entry over one more round |
| Kernels.CountsAfter | index.js:122 | each graph's word counts are those of the last round, and none before the first |
| Kernels.SweepNext | index.js:119-124 | the pass over `k + 1` graphs is the pass over `k` followed by the next graph's round against the dictionary left so far |
| Kernels.IterateNext | index.js:118-127 | one more iteration is one more pass from the last iteration's labels |
| Kernels.IndexStep | index.js:121 | indexing more words after a gap-free index gives the first-seen order of all words |
| Kernels.IndexGraph | index.js:121 | indexing a graph's words in `wordCount` order extends the first-seen order of the pass by that graph's labels |
| Kernels.UnifiedIsPass | index.js:146-148 | the unified words are exactly the labels of the pass |
| Kernels.LabelRound | index.js:119-124 | the `forEach` labels every graph as one `Sweep` does, indexes its words, and records labels and counts in the working set |
| Kernels.LabelGraph | index.js:120-123 | one item's round is its `Refine` round, extends the pass, and indexes its words |
| Kernels.RoundIndexed | index.js:153 | every unified word has a position, and no two words share one |
| Kernels.KernelRound | index.js:118-127 | a labelling pass followed by `updateKernels` keeps the kernel invariant `Summed`, under either reading |
| Kernels.ConsistentSnoc | index.js:118-127 | a pass of the graphs extends a consistent history |
| Kernels.RoundLabels | index.js:122-123 | after a round the working set records the graphs, that round's labels and its counts |
| Kernels.RoundKernels | index.js:126 | after `updateKernels` every kernel holds, at every position, the word's entry over all rounds (`KernelValue`), and nothing else |
| Kernels.KernelIteration | index.js:119-126 | one iteration advances the history by one pass and keeps the index valid and the kernels `Summed`, under the given reading |
| Kernels.KernelLoop | index.js:118-127 | after the loop the working set is `Summed` over `Iterate`'s passes, under the given reading |
| Kernels.GetGraphsWLKernels | index.js:106-130 | one item per graph holding its graph, last labels and last counts. The kernel's positions are exactly the words indexed, and entry `j` is word `j`'s `KernelValue` under the given reading. Read as intended (the correction of line 156), entry `j` is word `j`'s count summed over all iterations |
| Kernels.InitialWorkingSet | index.js:110-116 | the initial working set is `Summed` over no iterations under either reading: empty kernels, no previous labels |
| Kernels.SummedState | index.js:106-130 | proof helper: the kernel invariant `Summed` unfolded into graphs, labels, counts, the index order and every entry's `KernelValue` |
| Kernels.Summed | index.js:106-130 | the kernel invariant: the history is consistent; each item keeps its graph, last labels and last counts; each kernel holds exactly the positions of the index order, each with its word's `KernelValue` |
| Similarity.Divide | index.js:178 | JavaScript division: finite exactly when the divisor is non-zero, `NaN` exactly for `0/0`, otherwise an infinity of the dividend's sign |
| Similarity.Dot | index.js:161-163 | `dot(a, b)` is a number exactly when `b` is at least as long as `a` (else `NaN`) |
| Similarity.DotSymmetric | index.js:161-163 | the dot product of equal-length vectors is symmetric |
| Similarity.DotIgnoresTail | index.js:161-163 | entries of `b` past the end of `a` play no part |
| Similarity.DotSelf | index.js:161-163 | `dot(a, a)` is non-negative and zero exactly for the zero vector |
| Similarity.CauchySchwarzPrefix | index.js:165-167 | the squared dot product is at most the product of the squared norms |
| Similarity.CosineTerms | index.js:165-167 | the numerator and radicand of `cosineSimilarity` exist exactly when `dot(a, b)` does |
| Similarity.CosineBounded | index.js:165-167 | for equal-length vectors the cosine lies in [-1, 1], divides by zero exactly when one vector is zero, and is symmetric |
| Similarity.CosineSelf | index.js:165-167 | a vector's cosine with itself is 1 (the radicand is the square of the numerator) |
| Similarity.SumMin | index.js:175 | `sharedCount`: the smaller entry at each position, added up |
| Similarity.SumMax | index.js:176-178 | `totalCount - sharedCount`: the larger entry at each position, added up |
| Similarity.Jaccard | index.js:169-179 | the sum of minima over the sum of maxima, with JavaScript division; `NaN` when `b` is shorter than `a` |
| Similarity.JaccardSimilarity | index.js:169-179 | the loop computes `Jaccard`: the sum of minima over the sum of maxima, or `NaN` once `b` runs out |
| Similarity.JaccardSymmetric | index.js:169-179 | for equal lengths the similarity does not depend on the order of the two vectors |
| Similarity.SumMinMaxBounds | index.js:172-177 | for count vectors the shared part is between 0 and the union, the union is 0 only for two zero vectors, and the two are equal only for equal vectors |
| Similarity.JaccardRange | index.js:169-179 | for count vectors of one length: `NaN` exactly when both are zero, never infinite, otherwise in [0, 1] and 1 exactly for equal vectors |
| Similarity.JaccardSelf | index.js:169-179 | a non-zero count vector has similarity 1 with itself |
| GraphSimilarity.Dense | index.js:103 | a kernel with positions `0 .. n-1` read as an array of length `n` holds the kernel's entries, all non-negative |
| GraphSimilarity.KernelVector | index.js:103 | the kernel of one graph under the given reading of line 156: one non-negative entry per word, each its `KernelValue` |
| GraphSimilarity.KernelVectorSums | index.js:156 | read as intended, each entry of the vector is the summed count; read as written, none exceeds it |
| GraphSimilarity.GetGraphWLJaccardSimilarity | index.js:101-104 | under the given reading of line 156 (`AsWritten` is the source), the result is the Jaccard similarity of the two graphs' kernel vectors: never infinite and, when finite, between 0 and 1 |
| Isomorphism.RoundPair | index.js:55-56 | one round of both graphs gives one label per node of each |
| Isomorphism.PairStep | index.js:55-56 | a round of the test as a function of both previous labellings: each graph refined against a fresh dictionary, or `b` against `a`'s when shared |
| Isomorphism.Rounds | index.js:54-92 | the outcome of the remaining rounds: accept when none remain, otherwise run one round and decide by `After` |
| Isomorphism.After | index.js:61-91 | differing word counts reject; a round in which no label changed accepts (only once there are previous labels); otherwise the next round decides |
| Isomorphism.Verdict | index.js:48-94 | different node counts or link counts reject; otherwise at most one round per node decides |
| Isomorphism.SameWordCount | index.js:61-72 | the size check and the per-word comparison together decide exactly whether the two word counts are equal |
| Isomorphism.AnyChanged | index.js:73-84 | the change check finds a change exactly when some label differs from its previous one, or a change was found before |
| Isomorphism.CompareRounds | index.js:48-94 | the loop's answer is the verdict of at most one round per node, with quick rejections, word-count rejection and the early stop |
| Isomorphism.MaybeIsomorphic | index.js:48-94 | `maybeIsomorphic` as written (private dictionaries) computes that verdict and rejects different node or link counts |
| Isomorphism.MaybeIsomorphicShared | index.js:48-94 | the same test with one dictionary per round shared by both graphs |
| Isomorphism.RoundsReflexive | index.js:54-92 | rounds that treat both graphs alike never reject |
| Isomorphism.RoundPairSelf | index.js:55-56 | a graph paired with itself gets equal labellings in either mode |
| Isomorphism.RefineAgain | index.js:209-213 | refining again against the dictionary a round left behind gives the same round |
| Isomorphism.MaybeIsomorphicReflexive | index.js:6-9 | no graph is rejected against itself, in either mode |
| Isomorphism.RoundsRenamed | index.js:54-92 | rounds that keep two labellings renamed-equal never reject |
| Isomorphism.MaybeIsomorphicSharedSound | index.js:6-9 | with a shared dictionary an isomorphic pair is never rejected, so `false` does mean "not isomorphic" |
| Isomorphism.PathsValid | index.js:48-50 | the two example paths are valid three-node graphs |
| Isomorphism.PathSignaturesA | index.js:207 | the first-round signatures of the path 0-1-2 |
| Isomorphism.PathSignaturesB | index.js:207 | the first-round signatures of the path 1-0-2 |
| Isomorphism.PathCodesA | index.js:209-213 | a fresh dictionary codes the first path's signatures `1, 2, 1` |
| Isomorphism.PathCodesB | index.js:209-213 | a fresh dictionary codes the second path's signatures `1, 2, 2` |
| Isomorphism.PathRoundA | index.js:55 | the first path's first-round word count |
| Isomorphism.PathRoundB | index.js:56 | the second path's first-round word count |
| Isomorphism.PathCountsDiffer | index.js:61-72 | those two word counts differ |
| Isomorphism.FirstRoundRejects | index.js:55-72 | differing first-round word counts under private dictionaries make the test reject |
| Isomorphism.PathsIsomorphic | index.js:6-9 | the two paths are isomorphic |
| Isomorphism.PrivateDictionariesRejectIsomorphicPaths | index.js:55-56 | the two isomorphic paths are rejected as written and accepted with a shared dictionary |
| KernelPrecedence.EdgeSignatures | index.js:207 | the signatures of a single edge whose two nodes carry one label |
| KernelPrecedence.PathSignatures | index.js:207 | the signatures of the path 0-1-2 labelled `x, y, x` |
| KernelPrecedence.EdgeFreshRound | index.js:181-219 | the edge's first round against an empty dictionary: labels `1, 1`, one entry |
| KernelPrecedence.PathFreshRound | index.js:181-219 | the path's first round after the edge's: labels `1, 2, 1`, two entries |
| KernelPrecedence.EdgeKnownRound | index.js:181-219 | a round whose signature is known changes neither the dictionary nor the label |
| KernelPrecedence.PathAvoidingRound | index.js:181-219 | a round whose signatures avoid a known one never produces that code |
| KernelPrecedence.SweepTwo | index.js:119-124 | one pass over two graphs is the first's round followed by the second's |
| KernelPrecedence.IterateTwoGraphs | index.js:118-127 | one more iteration over two graphs adds their two rounds |
| KernelPrecedence.FirstRounds | index.js:118-124 | the first iteration over the edge and the path |
| KernelPrecedence.SecondRounds | index.js:118-124 | in the second iteration the edge carries word `1` again and the path does not |
| KernelPrecedence.TwoIterations | index.js:118-127 | two iterations consist of exactly those four rounds |
| KernelPrecedence.LostCount | index.js:156 | with those rounds the path's entry for word `1` is meant to stay 2, but line 156 as written sets it to 0 |
| KernelPrecedence.LostValue | index.js:156 | if graph 2 counted `x` in the first round and only graph 1 has it in the second, the entry is the first count as intended and 0 as written |
| KernelPrecedence.UpdateLosesCount | index.js:156 | the shape of the loss: word `1` is in the second round's words, graph 2 lacks it, its summed count is 2, and its entry is 2 as intended and 0 as written |
| KernelPrecedence.LosesCountAfterTwo | index.js:118-127 | the loss happens in any two iterations whose rounds have that shape |
| KernelPrecedence.PrecedenceLosesCount | index.js:156 | for the edge 0-1 and the path 0-1-2 over two iterations, line 156 as written loses the path's count for word `1` |
| PrecedenceSimilarity.InternTwoNew | index.js:209-213 | two new signatures `s, t, s` against a dictionary of two entries get the codes `3, 4, 3` |
| PrecedenceSimilarity.PathNewRound | index.js:181-219 | the path's second round against the first dictionary gives the new labels `3, 4, 3` |
| PrecedenceSimilarity.SecondRoundsExact | index.js:118-124 | the second iteration over the edge and the path: labels `1, 1` and `3, 4, 3` |
| PrecedenceSimilarity.IndexOrder | index.js:135-140 | the stream `1, 1, 2, 1, 3, 4` gives the index order `1, 2, 3, 4` |
| PrecedenceSimilarity.EdgeEntries | index.js:156 | the edge's entries are 4 for word `1` and 0 for the rest, under either reading |
| PrecedenceSimilarity.PathEntryReset | index.js:156 | the path's entry for word `1` is 2 as intended and 0 as written |
| PrecedenceSimilarity.PathEntries | index.js:156 | the path's other entries are 1, 2 and 1 under either reading |
| PrecedenceSimilarity.EdgePathKernels | index.js:142-159 | the kernels over those two rounds are [4,0,0,0] and [0,1,2,1] as written, and [4,0,0,0] and [2,1,2,1] as intended |
| PrecedenceSimilarity.EdgePathRounds | index.js:118-127 | two iterations over the edge and the path consist of exactly those labellings, with word counts that count them |
| PrecedenceSimilarity.JaccardValues | index.js:169-179 | the Jaccard similarity of those kernels is 0 as written and 0.25 as intended |
| PrecedenceSimilarity.PrecedenceChangesSimilarity | index.js:101-104 | `getGraphWLJaccardSimilarity(edge, path, 2)` is 0 as written and 0.25 as intended |

## Left out

- `getGraphWLCosineSimilarity`: it ends in floating-point `Math.sqrt` and a division. Only the integer terms of `cosineSimilarity` are modelled, so the cosine's range and symmetry are stated on those terms.
- Similarity.CosineTerms: weaker than the source's `cosineSimilarity`. It returns the numerator and radicand, not the rounded quotient, because floating point is not modelled.
- The `ngraph.graph` library is not part of this model. A graph is its node count and its list of links.
  - Node ids are `0 .. n-1` and `forEachNode` visits them in that order.
  - `forEachLinkedNode` visits the other endpoint of every link touching the node, in link order.
  - Node ids of other kinds and other visiting orders are left out.
- Refinement.ComputeLabels: requires previous labels for every node and links between existing nodes.
  - With a partial map, a missing neighbour label would be pushed as `undefined`, which `join('')` renders as the empty string.
  - A node's own missing label would put the text `"undefined"` at the head of its signature (`index.js:207`).
  - Every caller here passes a full labelling.
- Kernels.UpdateKernels: requires every counted word to have a position, and no two words to share one. `getGraphsWLKernels` always calls `addToGlobal` first, so both hold.
- The working set's items are updated in place in the source; the model treats them as values returned from each step. Aliasing between items or with the caller's graphs is not captured.
- The returned labelling omits the `graph` field that `computeLabels` also returns, since the caller already holds it.
- JavaScript numbers are modelled as unbounded integers and exact rationals. Rounding and the loss of precision beyond 2^53 are left out.
- `iterations` is a natural number. Negative or fractional iteration counts are left out.
- The demo page, the tests and the package's build and rendering code are not part of this model.

## Findings

| source | as written | input that shows it | evidently intended | confidence | as-written member | corrected member |
|---|---|---|---|---|---|---|
| index.js:55-56 | `computeLabels(graphA, prevALabels)` and `computeLabels(graphB, prevBLabels)` get no dictionary, so each graph's codes come from a fresh private dictionary numbered in that graph's node order | the isomorphic paths 0-1-2 and 1-0-2: first-round codes `1,2,1` against `1,2,2`, so the word counts differ and the test returns `false` | `false` only for non-isomorphic graphs (`index.js:6-9`): both graphs of a round share one dictionary | not executed | Isomorphism.PrivateDictionariesRejectIsomorphicPaths | Isomorphism.MaybeIsomorphicSharedSound |
| index.js:156 | the trailing default to 0 applies to the whole sum, not to the looked-up count. When the graph lacks the word, the old entry plus `undefined` is `NaN`, which defaults to 0 | graphs [edge 0-1, path 0-1-2], 2 iterations. Word `1` is counted twice in the path in iteration 1. In iteration 2 it recurs only in the edge, and the path's entry drops from 2 to 0. The kernels are [4,0,0,0] and [0,1,2,1], and `getGraphWLJaccardSimilarity` gives 0 instead of 2/8 | the looked-up count alone defaults to 0, so the entry keeps its sum | not executed | PrecedenceSimilarity.PrecedenceChangesSimilarity | Kernels.GetGraphsWLKernels |
