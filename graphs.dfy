/**
 * Graphs: the adjacency the labelling engine consumes.
 *
 * A graph has the nodes 0 .. nodeCount-1 and a list of directed links. The
 * engine ignores direction: the neighbours of a node are the other endpoints
 * of every link that touches it, enumerated in link order (a link from a node
 * to itself touches it once and makes the node its own neighbour once).
 */
module Graphs {

  type Node = nat

  datatype Link = Link(from: Node, to: Node)

  datatype Graph = Graph(nodeCount: nat, links: seq<Link>)

  /** Every endpoint is one of `n` nodes. */
  predicate Within(links: seq<Link>, n: nat)
  {
    forall i :: 0 <= i < |links| ==> links[i].from < n && links[i].to < n
  }

  /** No link refers to a node the graph does not have. */
  predicate ValidGraph(g: Graph)
  {
    Within(g.links, g.nodeCount)
  }

  /** A prefix of the links refers to no more nodes than the whole list. */
  lemma WithinPrefix(links: seq<Link>, n: nat, j: nat)
    requires Within(links, n) && j <= |links|
    ensures Within(links[..j], n)
  {
    forall i | 0 <= i < j ensures links[..j][i] == links[i] { }
  }

  function LinkCount(g: Graph): nat
  {
    |g.links|
  }

  /** The label this link contributes to `v`'s neighbourhood: the label of its
      other endpoint when it touches `v`, nothing otherwise. */
  function LinkLabel(l: Link, prev: seq<string>, v: Node): seq<string>
    requires l.from < |prev| && l.to < |prev|
  {
    if l.from == v then [prev[l.to]] else if l.to == v then [prev[l.from]] else []
  }

  /** The previous labels of `v`'s neighbours, in the order the links are
      enumerated (`forEachLinkedNode`, both directions). */
  function NeighbourLabels(links: seq<Link>, prev: seq<string>, v: Node): seq<string>
    requires Within(links, |prev|)
    decreases |links|
  {
    if |links| == 0 then []
    else NeighbourLabels(links[..|links| - 1], prev, v) + LinkLabel(links[|links| - 1], prev, v)
  }

  /** Enumerating two lists of links one after the other. */
  lemma {:induction false} NeighbourLabelsAppend(a: seq<Link>, b: seq<Link>, prev: seq<string>, v: Node)
    requires Within(a, |prev|) && Within(b, |prev|)
    ensures Within(a + b, |prev|)
    ensures NeighbourLabels(a + b, prev, v) == NeighbourLabels(a, prev, v) + NeighbourLabels(b, prev, v)
    decreases |b|
  {
    assert Within(a + b, |prev|) by {
      forall i | 0 <= i < |a + b| ensures (a + b)[i].from < |prev| && (a + b)[i].to < |prev| {
        if i >= |a| { assert (a + b)[i] == b[i - |a|]; }
      }
    }
    if |b| > 0 {
      var b' := b[..|b| - 1];
      assert Within(b', |prev|) by {
        forall i | 0 <= i < |b'| ensures b'[i] == b[i] { }
      }
      assert (a + b)[..|a + b| - 1] == a + b';
      assert (a + b)[|a + b| - 1] == b[|b| - 1];
      NeighbourLabelsAppend(a, b', prev, v);
      var last := LinkLabel(b[|b| - 1], prev, v);
      assert NeighbourLabels(a + b, prev, v) == NeighbourLabels(a + b', prev, v) + last;
      assert NeighbourLabels(b, prev, v) == NeighbourLabels(b', prev, v) + last;
    } else {
      assert a + b == a;
    }
  }

  /** Taking one link out of the enumeration takes its label out of the
      neighbourhood. */
  lemma NeighbourLabelsRemove(b: seq<Link>, j: nat, prev: seq<string>, v: Node)
    requires Within(b, |prev|) && j < |b|
    ensures Within(b[..j] + b[j + 1..], |prev|)
    ensures multiset(NeighbourLabels(b, prev, v))
         == multiset(NeighbourLabels(b[..j] + b[j + 1..], prev, v)) + multiset(LinkLabel(b[j], prev, v))
  {
    var b1, x, b2 := b[..j], b[j], b[j + 1..];
    SplitAt(b, j, |prev|);
    NeighbourLabelsAppend(b1, b2, prev, v);
    NeighbourLabelsAppend([x], b2, prev, v);
    NeighbourLabelsAppend(b1, [x] + b2, prev, v);
    NeighbourLabelsSingle(x, prev, v);
  }

  /** A list of links split around its `j`-th link. */
  lemma SplitAt(b: seq<Link>, j: nat, n: nat)
    requires Within(b, n) && j < |b|
    ensures b == b[..j] + ([b[j]] + b[j + 1..])
    ensures Within(b[..j], n) && Within(b[j + 1..], n) && b[j].from < n && b[j].to < n
  {
    assert b == b[..j] + ([b[j]] + b[j + 1..]);
    var b2 := b[j + 1..];
    forall i | 0 <= i < |b2| ensures b2[i] == b[j + 1 + i] { }
  }

  /** A single link contributes its own label. */
  lemma NeighbourLabelsSingle(x: Link, prev: seq<string>, v: Node)
    requires x.from < |prev| && x.to < |prev|
    ensures Within([x], |prev|)
    ensures NeighbourLabels([x], prev, v) == LinkLabel(x, prev, v)
  {
    assert [x][..0] == [];
  }

  /** The neighbours' labels, as a multiset, do not depend on the order in
      which the links are enumerated. */
  lemma {:induction false} NeighbourLabelsPermutation(a: seq<Link>, b: seq<Link>, prev: seq<string>, v: Node)
    requires Within(a, |prev|) && Within(b, |prev|)
    requires multiset(a) == multiset(b)
    ensures multiset(NeighbourLabels(a, prev, v)) == multiset(NeighbourLabels(b, prev, v))
    decreases |a|
  {
    if |a| == 0 {
      assert |b| == |multiset(b)| == 0;
    } else {
      var x := a[|a| - 1];
      var a' := a[..|a| - 1];
      assert a == a' + [x];
      assert Within(a', |prev|) by {
        forall i | 0 <= i < |a'| ensures a'[i] == a[i] { }
      }
      assert x in multiset(b);
      var j :| 0 <= j < |b| && b[j] == x;
      var rest := b[..j] + b[j + 1..];
      assert b == b[..j] + [x] + b[j + 1..];
      assert multiset(a') == multiset(rest) by {
        assert multiset(a) == multiset(a') + multiset{x};
        assert multiset(b) == multiset(b[..j]) + multiset{x} + multiset(b[j + 1..]);
        assert multiset(rest) == multiset(b[..j]) + multiset(b[j + 1..]);
        assert multiset(a') == multiset(a) - multiset{x};
      }
      NeighbourLabelsRemove(b, j, prev, v);
      NeighbourLabelsPermutation(a', rest, prev, v);
    }
  }

  // ---------------------------------------------------------------------
  // Isomorphism
  // ---------------------------------------------------------------------

  /** `p` renames the nodes 0..n-1 bijectively and `q` undoes it. */
  predicate IsPermutation(p: seq<Node>, q: seq<Node>, n: nat)
  {
    && |p| == n && |q| == n
    && (forall i :: 0 <= i < n ==> p[i] < n && q[p[i]] == i)
    && (forall i :: 0 <= i < n ==> q[i] < n && p[q[i]] == i)
  }

  /** The links with every endpoint renamed by `p`. */
  function RenameLinks(links: seq<Link>, p: seq<Node>): (r: seq<Link>)
    requires Within(links, |p|)
    ensures |r| == |links|
    ensures forall i :: 0 <= i < |r| ==> r[i] == Link(p[links[i].from], p[links[i].to])
  {
    seq(|links|, i requires 0 <= i < |links| => Link(p[links[i].from], p[links[i].to]))
  }

  /** `b` is `a` with its nodes renamed by `p` and its links possibly listed in
      another order. */
  predicate Isomorphism(a: Graph, b: Graph, p: seq<Node>, q: seq<Node>)
  {
    && a.nodeCount == b.nodeCount
    && ValidGraph(a)
    && IsPermutation(p, q, a.nodeCount)
    && multiset(RenameLinks(a.links, p)) == multiset(b.links)
  }

  /** The identity renaming. */
  function Identity(n: nat): (p: seq<Node>)
    ensures |p| == n && forall i :: 0 <= i < n ==> p[i] == i
  {
    seq(n, i => i)
  }

  /** Every graph is isomorphic to itself. */
  lemma IsomorphismReflexive(g: Graph)
    requires ValidGraph(g)
    ensures Isomorphism(g, g, Identity(g.nodeCount), Identity(g.nodeCount))
  {
    var p := Identity(g.nodeCount);
    assert RenameLinks(g.links, p) == g.links;
  }

  /** Isomorphic graphs have the same number of links and no dangling links. */
  lemma IsomorphismCounts(a: Graph, b: Graph, p: seq<Node>, q: seq<Node>)
    requires Isomorphism(a, b, p, q)
    ensures LinkCount(a) == LinkCount(b)
    ensures ValidGraph(b)
  {
    var r := RenameLinks(a.links, p);
    assert |b.links| == |multiset(b.links)| == |multiset(r)| == |r|;
    forall i | 0 <= i < |b.links| ensures b.links[i].from < b.nodeCount && b.links[i].to < b.nodeCount {
      assert b.links[i] in multiset(r);
    }
  }

  /** Renaming the links and the labels alike renames the neighbourhood:
      node `p[v]` sees, link for link, the labels node `v` saw. */
  lemma {:induction false} RenamedNeighbourLabels(
    links: seq<Link>, p: seq<Node>, q: seq<Node>, prevA: seq<string>, prevB: seq<string>, v: Node)
    requires IsPermutation(p, q, |prevA|) && |prevB| == |prevA|
    requires Within(links, |prevA|) && v < |prevA|
    requires forall u :: 0 <= u < |prevA| ==> prevB[p[u]] == prevA[u]
    ensures Within(RenameLinks(links, p), |prevB|)
    ensures NeighbourLabels(RenameLinks(links, p), prevB, p[v]) == NeighbourLabels(links, prevA, v)
    decreases |links|
  {
    if |links| > 0 {
      var links' := links[..|links| - 1];
      assert RenameLinks(links, p)[..|links| - 1] == RenameLinks(links', p);
      RenamedNeighbourLabels(links', p, q, prevA, prevB, v);
      var l := links[|links| - 1];
      assert p[l.from] == p[v] <==> l.from == v by { assert q[p[l.from]] == l.from && q[p[v]] == v; }
      assert p[l.to] == p[v] <==> l.to == v by { assert q[p[l.to]] == l.to && q[p[v]] == v; }
    }
  }

  /** Up to order, an isomorphic image of `v` has the same neighbour labels. */
  lemma IsomorphicNeighbourLabels(
    a: Graph, b: Graph, p: seq<Node>, q: seq<Node>, prevA: seq<string>, prevB: seq<string>, v: Node)
    requires Isomorphism(a, b, p, q)
    requires |prevA| == a.nodeCount && |prevB| == b.nodeCount && v < a.nodeCount
    requires forall u :: 0 <= u < a.nodeCount ==> prevB[p[u]] == prevA[u]
    ensures ValidGraph(b)
    ensures multiset(NeighbourLabels(b.links, prevB, p[v])) == multiset(NeighbourLabels(a.links, prevA, v))
  {
    IsomorphismCounts(a, b, p, q);
    RenamedNeighbourLabels(a.links, p, q, prevA, prevB, v);
    NeighbourLabelsPermutation(RenameLinks(a.links, p), b.links, prevB, p[v]);
  }

  // ---------------------------------------------------------------------
  // Counting under a renaming
  // ---------------------------------------------------------------------

  /** How often `x` occurs in `s` is the number of positions holding it. */
  lemma {:induction false} MultiplicityIsPositions<T>(s: seq<T>, x: T)
    ensures multiset(s)[x] == |set i | 0 <= i < |s| && s[i] == x|
    decreases |s|
  {
    if |s| > 0 {
      var s' := s[..|s| - 1];
      MultiplicityIsPositions(s', x);
      assert s == s' + [s[|s| - 1]];
      var before := set i | 0 <= i < |s'| && s'[i] == x;
      var after := set i | 0 <= i < |s| && s[i] == x;
      if s[|s| - 1] == x {
        assert after == before + {|s| - 1};
      } else {
        assert after == before;
      }
    }
  }

  /** An injective renaming does not change the size of a set of nodes. */
  lemma {:induction false} RenamedSetSize(a: set<nat>, p: seq<Node>, n: nat)
    requires |p| == n
    requires forall i :: i in a ==> i < n
    requires forall i, j :: i in a && j in a && p[i] == p[j] ==> i == j
    ensures |set i | i in a :: p[i]| == |a|
    decreases |a|
  {
    if a != {} {
      var x :| x in a;
      var a' := a - {x};
      RenamedSetSize(a', p, n);
      var image := set i | i in a :: p[i];
      var image' := set i | i in a' :: p[i];
      assert image == image' + {p[x]};
      assert p[x] !in image';
    }
  }

  /** Listing the same items in an order renamed by a permutation keeps the
      multiset of items. */
  lemma PermutedMultiset<T>(s: seq<T>, t: seq<T>, p: seq<Node>, q: seq<Node>)
    requires IsPermutation(p, q, |s|) && |t| == |s|
    requires forall i :: 0 <= i < |s| ==> t[p[i]] == s[i]
    ensures multiset(s) == multiset(t)
  {
    forall x ensures multiset(s)[x] == multiset(t)[x] {
      MultiplicityIsPositions(s, x);
      MultiplicityIsPositions(t, x);
      var a := set i | 0 <= i < |s| && s[i] == x;
      var b := set j | 0 <= j < |t| && t[j] == x;
      forall i, j | i in a && j in a && p[i] == p[j] ensures i == j {
        assert q[p[i]] == i && q[p[j]] == j;
      }
      RenamedSetSize(a, p, |s|);
      var image := set i | i in a :: p[i];
      assert b == image by {
        forall j | j in b ensures j in image {
          assert p[q[j]] == j && q[j] in a;
        }
      }
    }
  }
}
