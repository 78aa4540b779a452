/**
  Directed graphs as adjacency lists over the nodes 1..|g|-1 (index 0 is a placeholder),
  their strongly connected components, and chains of the condensation.
 */
module Digraph {
  import opened Paths

  type Graph = seq<seq<nat>>

  predicate Node(g: Graph, u: nat) {
    1 <= u < |g|
  }

  predicate WellFormed(g: Graph) {
    && |g| > 0
    && g[0] == []
    && forall u, k :: 0 <= u < |g| && 0 <= k < |g[u]| ==> Node(g, g[u][k])
  }

  ghost predicate HasEdge(g: Graph, u: nat, v: nat) {
    u < |g| && v in g[u]
  }

  ghost function Edges(g: Graph): iset<(nat, nat)> {
    iset e: (nat, nat) | HasEdge(g, e.0, e.1)
  }

  /** t holds the same edges as g, each one reversed. */
  ghost predicate Transposes(g: Graph, t: Graph) {
    |t| == |g| && forall u: nat, v: nat :: HasEdge(g, u, v) <==> HasEdge(t, v, u)
  }

  /** u and v lie in the same strongly connected component. */
  ghost predicate Mutual(g: Graph, u: nat, v: nat) {
    Reach(Edges(g), u, v) && Reach(Edges(g), v, u)
  }

  lemma MutualTrans(g: Graph, u: nat, v: nat, w: nat)
    requires Mutual(g, u, v) && Mutual(g, v, w)
    ensures Mutual(g, u, w)
  {
    Trans(Edges(g), u, v, w);
    Trans(Edges(g), w, v, u);
  }

  ghost predicate Crosses(g: Graph, a: nat, b: nat, x: nat, y: nat) {
    Mutual(g, a, x) && Mutual(g, b, y) && HasEdge(g, x, y)
  }

  /** An edge of the condensation, from the component of a to the different component of b. */
  ghost predicate Jump(g: Graph, a: nat, b: nat) {
    !Mutual(g, a, b) && exists x: nat, y: nat :: Crosses(g, a, b, x, y)
  }

  ghost predicate Link(g: Graph, c: seq<nat>, i: nat) {
    i + 1 < |c| && Jump(g, c[i], c[i + 1])
  }

  /** A path of the condensation, given by one node of each component on it. */
  ghost predicate IsChain(g: Graph, c: seq<nat>) {
    && |c| > 0
    && (forall i :: 0 <= i < |c| ==> Node(g, c[i]))
    && (forall i :: 0 <= i < |c| - 1 ==> Link(g, c, i))
  }

  ghost predicate EndsAt(g: Graph, c: seq<nat>, u: nat) {
    IsChain(g, c) && c[|c| - 1] == u
  }

  /** d is the number of edges of the longest chain that ends in the component of u. */
  ghost predicate LongestTo(g: Graph, u: nat, d: int) {
    && (exists c: seq<nat> :: EndsAt(g, c, u) && |c| == d + 1)
    && (forall c: seq<nat> :: EndsAt(g, c, u) ==> |c| <= d + 1)
  }

  /** d is the number of edges of the longest path of the condensation; 0 when there are no nodes. */
  ghost predicate LongestChain(g: Graph, d: int) {
    && (|g| > 1 ==> exists c: seq<nat> :: IsChain(g, c) && |c| == d + 1)
    && (|g| <= 1 ==> d == 0)
    && (forall c: seq<nat> :: IsChain(g, c) ==> |c| <= d + 1)
  }

  lemma JumpReaches(g: Graph, a: nat, b: nat)
    requires Jump(g, a, b)
    ensures Reach(Edges(g), a, b) && !Reach(Edges(g), b, a)
  {
    var x: nat, y: nat :| Crosses(g, a, b, x, y);
    Step(Edges(g), x, y);
    Trans(Edges(g), a, x, y);
    Trans(Edges(g), a, y, b);
  }

  /** The condensation is acyclic: a chain never meets the same component twice. */
  lemma {:induction false} ChainComponentsDistinct(g: Graph, c: seq<nat>, i: nat, j: nat)
    requires IsChain(g, c) && i < j < |c|
    ensures Reach(Edges(g), c[i], c[j]) && !Reach(Edges(g), c[j], c[i])
    decreases j
  {
    assert Link(g, c, j - 1);
    JumpReaches(g, c[j - 1], c[j]);
    if i < j - 1 {
      ChainComponentsDistinct(g, c, i, j - 1);
      Trans(Edges(g), c[i], c[j - 1], c[j]);
      if Reach(Edges(g), c[j], c[i]) {
        Trans(Edges(g), c[j], c[i], c[j - 1]);
      }
    }
  }

  lemma JumpFromMutual(g: Graph, a: nat, a': nat, b: nat, b': nat)
    requires Mutual(g, a, a') && Mutual(g, b, b') && Jump(g, a, b)
    ensures Jump(g, a', b')
  {
    var x: nat, y: nat :| Crosses(g, a, b, x, y);
    MutualTrans(g, a', a, x);
    MutualTrans(g, b', b, y);
    assert Crosses(g, a', b', x, y);
    if Mutual(g, a', b') {
      MutualTrans(g, a, a', b');
      MutualTrans(g, a, b', b);
    }
  }

  /** A chain without its last node, and the condition for adding one. */
  lemma ChainPrefix(g: Graph, c: seq<nat>)
    requires IsChain(g, c) && |c| > 1
    ensures IsChain(g, c[..|c| - 1]) && Jump(g, c[|c| - 2], c[|c| - 1])
  {
    assert Link(g, c, |c| - 2);
    var c' := c[..|c| - 1];
    forall i | 0 <= i < |c'| - 1
      ensures Link(g, c', i)
    {
      assert Link(g, c, i);
    }
  }

  lemma ChainExtend(g: Graph, c: seq<nat>, u: nat)
    requires IsChain(g, c) && Node(g, u) && Jump(g, c[|c| - 1], u)
    ensures EndsAt(g, c + [u], u)
  {
    forall i | 0 <= i < |c|
      ensures Link(g, c + [u], i)
    {
      if i < |c| - 1 {
        assert Link(g, c, i);
      }
    }
  }

  /** The last node of a chain may be replaced by any other node of its component. */
  lemma ChangeEnd(g: Graph, c: seq<nat>, v: nat) returns (c': seq<nat>)
    requires IsChain(g, c) && Node(g, v) && Mutual(g, c[|c| - 1], v)
    ensures EndsAt(g, c', v) && |c'| == |c|
  {
    c' := c[..|c| - 1] + [v];
    if |c| > 1 {
      var a := c[|c| - 2];
      ChainPrefix(g, c);
      Refl(Edges(g), a);
      JumpFromMutual(g, a, a, c[|c| - 1], v);
      ChainExtend(g, c[..|c| - 1], v);
    }
  }

  lemma LongestToMutual(g: Graph, u: nat, v: nat, d: int)
    requires Node(g, u) && Node(g, v) && Mutual(g, u, v) && LongestTo(g, u, d)
    ensures LongestTo(g, v, d)
  {
    var c :| EndsAt(g, c, u) && |c| == d + 1;
    var c' := ChangeEnd(g, c, v);
    forall b: seq<nat> | EndsAt(g, b, v)
      ensures |b| <= d + 1
    {
      var b' := ChangeEnd(g, b, u);
    }
  }
}
