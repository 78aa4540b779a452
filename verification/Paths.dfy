/**
  Reachability along a binary relation, given as the set of its edges.
  Shared by the graph, puzzle and minesweeper models.
 */
module Paths {
  ghost predicate Hop<T>(edges: iset<(T, T)>, p: seq<T>, i: nat) {
    i + 1 < |p| && (p[i], p[i + 1]) in edges
  }

  ghost predicate IsPath<T>(edges: iset<(T, T)>, p: seq<T>) {
    |p| > 0 && forall i :: 0 <= i < |p| - 1 ==> Hop(edges, p, i)
  }

  ghost predicate Joins<T>(edges: iset<(T, T)>, p: seq<T>, u: T, v: T) {
    IsPath(edges, p) && p[0] == u && p[|p| - 1] == v
  }

  ghost predicate Reach<T(!new)>(edges: iset<(T, T)>, u: T, v: T) {
    exists p: seq<T> :: Joins(edges, p, u, v)
  }

  lemma Refl<T(!new)>(edges: iset<(T, T)>, u: T)
    ensures Reach(edges, u, u)
  {
    assert Joins(edges, [u], u, u);
  }

  lemma Step<T(!new)>(edges: iset<(T, T)>, u: T, v: T)
    requires (u, v) in edges
    ensures Reach(edges, u, v)
  {
    assert Joins(edges, [u, v], u, v);
  }

  lemma Trans<T(!new)>(edges: iset<(T, T)>, u: T, v: T, w: T)
    requires Reach(edges, u, v) && Reach(edges, v, w)
    ensures Reach(edges, u, w)
  {
    var p :| Joins(edges, p, u, v);
    var q :| Joins(edges, q, v, w);
    var r := p + q[1..];
    forall i | 0 <= i < |r| - 1
      ensures Hop(edges, r, i)
    {
      if i < |p| - 1 {
        assert Hop(edges, p, i);
      } else {
        assert Hop(edges, q, i - (|p| - 1));
      }
    }
    assert Joins(edges, r, u, w);
  }

  lemma Tail<T(!new)>(edges: iset<(T, T)>, p: seq<T>)
    requires IsPath(edges, p) && |p| > 1
    ensures (p[0], p[1]) in edges && IsPath(edges, p[1..])
  {
    assert Hop(edges, p, 0);
    forall i | 0 <= i < |p[1..]| - 1
      ensures Hop(edges, p[1..], i)
    {
      assert Hop(edges, p, i + 1);
    }
  }

  lemma {:induction false} ExitPath<T(!new)>(edges: iset<(T, T)>, inside: iset<T>, p: seq<T>) returns (x: T, y: T)
    requires IsPath(edges, p) && p[0] in inside && p[|p| - 1] !in inside
    ensures x in inside && y !in inside && (x, y) in edges
    ensures Reach(edges, p[0], x) && Reach(edges, y, p[|p| - 1])
  {
    assert p[0] != p[|p| - 1];
    Tail(edges, p);
    if p[1] in inside {
      x, y := ExitPath(edges, inside, p[1..]);
      Step(edges, p[0], p[1]);
      Trans(edges, p[0], p[1], x);
    } else {
      x, y := p[0], p[1];
      Refl(edges, x);
      assert Joins(edges, p[1..], y, p[|p| - 1]);
    }
  }

  /** A walk that leaves a set does so along an edge: the first such edge, x before it and y after it. */
  lemma {:induction false} Exit<T(!new)>(edges: iset<(T, T)>, inside: iset<T>, u: T, v: T) returns (x: T, y: T)
    requires Reach(edges, u, v) && u in inside && v !in inside
    ensures x in inside && y !in inside && (x, y) in edges
    ensures Reach(edges, u, x) && Reach(edges, y, v)
  {
    var p :| Joins(edges, p, u, v);
    x, y := ExitPath(edges, inside, p);
  }

  /** A set closed under the edges contains everything reachable from its members. */
  lemma Closed<T(!new)>(edges: iset<(T, T)>, inside: iset<T>, u: T, v: T)
    requires forall x, y :: (x, y) in edges && x in inside ==> y in inside
    requires u in inside && Reach(edges, u, v)
    ensures v in inside
  {
    if v !in inside {
      var x, y := Exit(edges, inside, u, v);
    }
  }
}
