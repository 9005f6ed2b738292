/** Reference graphs: adjacency lists with multiplicity, in-degrees and reachability.
    Node 0 is the null slot. It owns nothing, so paths never run through it. */
module Graphs {

  type Graph = seq<seq<int>>

  /** How many edges end in c. */
  ghost function InDegree(g: Graph, c: int): nat {
    if g == [] then 0 else InDegree(g[..|g| - 1], c) + multiset(g[|g| - 1])[c]
  }

  ghost predicate Edge(g: Graph, b: int, c: int) {
    0 < b < |g| && c != 0 && c in g[b]
  }

  /** p is a non-empty walk along edges. */
  ghost predicate Path(g: Graph, p: seq<int>) {
    |p| > 0 && (|p| == 1 || (Edge(g, p[|p| - 2], p[|p| - 1]) && Path(g, p[..|p| - 1])))
  }

  ghost predicate PathFrom(g: Graph, roots: multiset<int>, p: seq<int>, a: int) {
    Path(g, p) && p[0] != 0 && roots[p[0]] > 0 && p[|p| - 1] == a
  }

  /** A walk from some root ends in a. */
  ghost predicate Reachable(g: Graph, roots: multiset<int>, a: int) {
    exists p :: PathFrom(g, roots, p, a)
  }

  lemma {:induction false} InDegreeUpdate(g: Graph, a: nat, x: seq<int>, c: int)
    requires a < |g|
    ensures InDegree(g[a := x], c) == InDegree(g, c) - multiset(g[a])[c] + multiset(x)[c]
  {
    var n := |g| - 1;
    if a == n {
      assert g[a := x][..n] == g[..n];
    } else {
      assert g[a := x][..n] == g[..n][a := x];
      InDegreeUpdate(g[..n], a, x, c);
    }
  }

  lemma {:induction false} InDegreeMember(g: Graph, c: int)
    ensures InDegree(g, c) > 0 <==> exists b :: 0 <= b < |g| && c in g[b]
  {
    if g != [] {
      var n := |g| - 1;
      InDegreeMember(g[..n], c);
      assert forall b :: 0 <= b < n ==> g[..n][b] == g[b];
      assert c in multiset(g[n]) <==> c in g[n];
    }
  }

  lemma InDegreeAppend(g: Graph, x: seq<int>, c: int)
    ensures InDegree(g + [x], c) == InDegree(g, c) + multiset(x)[c]
  {
    assert (g + [x])[..|g|] == g;
  }

  lemma ReachRoot(g: Graph, roots: multiset<int>, a: int)
    requires a != 0 && roots[a] > 0
    ensures Reachable(g, roots, a)
  {
    assert PathFrom(g, roots, [a], a);
  }

  lemma ReachStep(g: Graph, roots: multiset<int>, b: int, c: int)
    requires Reachable(g, roots, b) && Edge(g, b, c)
    ensures Reachable(g, roots, c)
  {
    var p :| PathFrom(g, roots, p, b);
    assert (p + [c])[..|p|] == p;
    assert PathFrom(g, roots, p + [c], c);
  }

  /** Every reachable node is a root or has a reachable predecessor. */
  lemma ReachInv(g: Graph, roots: multiset<int>, c: int)
    requires Reachable(g, roots, c)
    ensures c != 0
    ensures roots[c] > 0 || exists b :: Reachable(g, roots, b) && Edge(g, b, c)
  {
    var p :| PathFrom(g, roots, p, c);
    if |p| > 1 {
      var q := p[..|p| - 1];
      assert PathFrom(g, roots, q, q[|q| - 1]);
      assert Edge(g, q[|q| - 1], c);
    }
  }

  /** A set that holds the roots and is closed under edges holds everything reachable. */
  lemma ClosedHoldsReachable(g: Graph, roots: multiset<int>, s: set<int>)
    requires forall a :: a != 0 && roots[a] > 0 ==> a in s
    requires forall b, c :: b in s && Edge(g, b, c) ==> c in s
    ensures forall a :: Reachable(g, roots, a) ==> a in s
  {
    forall a | Reachable(g, roots, a)
      ensures a in s
    {
      var p :| PathFrom(g, roots, p, a);
      WalkStaysInside(g, p, s);
    }
  }

  lemma {:induction false} WalkStaysInside(g: Graph, p: seq<int>, s: set<int>)
    requires Path(g, p) && p[0] in s
    requires forall b, c :: b in s && Edge(g, b, c) ==> c in s
    ensures p[|p| - 1] in s
  {
    if |p| > 1 {
      WalkStaysInside(g, p[..|p| - 1], s);
    }
  }

  /** A rank that strictly rises along every edge: the graph has no cycle. */
  ghost predicate Acyclic(g: Graph) {
    exists rank: seq<int> :: Ranks(g, rank)
  }

  ghost predicate Ranks(g: Graph, rank: seq<int>) {
    && |rank| == |g|
    && (forall b :: 0 <= b < |g| ==> rank[b] >= 0)
    && (forall b, c :: Edge(g, b, c) && c < |g| ==> 0 < c && rank[c] > rank[b])
  }
}
