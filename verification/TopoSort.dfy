/** First pass of TugaNet: an iterative depth-first search that lists nodes by decreasing finishing time. */
module TopoSort {
  import opened Paths
  import opened Digraph

  ghost function On(flags: seq<bool>): set<nat> {
    set i: nat | i < |flags| && flags[i]
  }

  lemma OnUpdate(flags: seq<bool>, i: nat)
    requires i < |flags|
    ensures On(flags[i := true]) == On(flags) + {i}
  {
  }

  ghost function Nodes(g: Graph): set<nat> {
    set u: nat | u < |g| && Node(g, u)
  }

  ghost predicate Before(topo: seq<nat>, a: nat, b: nat) {
    exists i, j :: 0 <= i <= j < |topo| && topo[i] == a && topo[j] == b
  }

  lemma BeforeFront(topo: seq<nat>, t: nat, a: nat, b: nat)
    ensures Before(topo, a, b) ==> Before([t] + topo, a, b)
    ensures b in topo || b == t ==> Before([t] + topo, t, b)
  {
    var front := [t] + topo;
    if Before(topo, a, b) {
      var i, j :| 0 <= i <= j < |topo| && topo[i] == a && topo[j] == b;
      assert front[i + 1] == a && front[j + 1] == b;
    }
    if b in topo {
      var j :| 0 <= j < |topo| && topo[j] == b;
      assert front[0] == t && front[j + 1] == b;
    }
    if b == t {
      assert front[0] == t;
    }
  }

  ghost predicate Differ(s: seq<nat>, i: int, j: int) {
    0 <= i < j < |s| && s[i] != s[j]
  }

  ghost predicate NoDuplicates(s: seq<nat>) {
    forall i, j :: 0 <= i < j < |s| ==> Differ(s, i, j)
  }

  /** Some node of u's component is still being explored, or is listed no later than w. */
  ghost predicate Leads(g: Graph, gray: set<nat>, topo: seq<nat>, u: nat, w: nat, lead: nat) {
    Mutual(g, u, lead) && (lead in gray || Before(topo, lead, w))
  }

  ghost predicate Led(g: Graph, gray: set<nat>, topo: seq<nat>, u: nat, w: nat) {
    exists lead: nat :: Leads(g, gray, topo, u, w, lead)
  }

  /** Every component has a node listed no later than any node it reaches. */
  ghost predicate ComponentsOrdered(g: Graph, topo: seq<nat>) {
    forall u: nat, w: nat {:trigger Led(g, {}, topo, u, w)} ::
      u in topo && Reach(Edges(g), u, w) ==> Led(g, {}, topo, u, w)
  }

  /** An edge that closes no cycle goes forward in the listing. */
  ghost predicate EdgesOrdered(g: Graph, topo: seq<nat>) {
    forall u: nat, v: nat {:trigger HasEdge(g, u, v)} :: u in topo && HasEdge(g, u, v) && !Reach(Edges(g), v, u) ==>
      Before(topo, u, v)
  }

  /** Position p of the stack holds the entry from which x was discovered: above it are only
      descendants of x, among them every successor of x still unvisited. */
  ghost predicate Opens(g: Graph, stack: seq<nat>, visited: set<nat>, x: nat, p: nat) {
    && p < |stack| && stack[p] == x
    && (forall q :: p < q < |stack| ==> stack[q] != x && Reach(Edges(g), x, stack[q]))
    && (forall y: nat :: HasEdge(g, x, y) ==> y in visited || y in stack[p + 1..])
  }

  ghost predicate Open(g: Graph, stack: seq<nat>, visited: set<nat>, x: nat) {
    exists p: nat :: Opens(g, stack, visited, x, p)
  }

  /** The search state: nodes outside `visited` are white, those in `done` black, the others gray. */
  ghost predicate Searching(g: Graph, stack: seq<nat>, topo: seq<nat>, visited: set<nat>, done: set<nat>) {
    && done <= visited <= Nodes(g)
    && (forall x :: x in stack ==> x in Nodes(g))
    && NoDuplicates(topo) && (forall x: nat :: x in topo <==> x in done)
    && (forall x: nat, y: nat {:trigger HasEdge(g, x, y)} :: x in done && HasEdge(g, x, y) ==> y in visited)
    && (forall x :: x in visited - done ==> Open(g, stack, visited, x))
    && (forall u: nat, w: nat {:trigger Led(g, visited - done, topo, u, w)} ::
          u in done && Reach(Edges(g), u, w) ==> Led(g, visited - done, topo, u, w))
    && EdgesOrdered(g, topo)
  }

  /** With an empty stack nothing is gray. */
  lemma Idle(g: Graph, topo: seq<nat>, visited: set<nat>, done: set<nat>)
    requires Searching(g, [], topo, visited, done)
    ensures visited == done
  {
    forall x
      ensures !Open(g, [], visited, x)
    {
    }
    forall x | x in visited
      ensures x in done
    {
      assert x in visited - done ==> Open(g, [], visited, x);
    }
  }

  lemma Start(g: Graph, u: nat, topo: seq<nat>, visited: set<nat>)
    requires Searching(g, [], topo, visited, visited) && u in Nodes(g)
    ensures Searching(g, [u], topo, visited, visited)
  {
  }

  /** Pushing descendants of the top entry keeps every gray node open. */
  lemma PushedAbove(g: Graph, stack: seq<nat>, visited: set<nat>, pushed: seq<nat>, x: nat)
    requires |stack| > 0 && x in visited && Open(g, stack, visited, x)
    requires forall y :: y in pushed ==> Reach(Edges(g), stack[|stack| - 1], y) && y !in visited
    ensures Open(g, stack + pushed, visited + {stack[|stack| - 1]}, x)
  {
    var stack', visited' := stack + pushed, visited + {stack[|stack| - 1]};
    var p: nat :| Opens(g, stack, visited, x, p);
    assert stack'[p + 1..] == stack[p + 1..] + pushed;
    Refl(Edges(g), x);
    assert Reach(Edges(g), x, stack[|stack| - 1]);
    forall q | p < q < |stack'|
      ensures stack'[q] != x && Reach(Edges(g), x, stack'[q])
    {
      if q >= |stack| {
        assert stack'[q] in pushed;
        Trans(Edges(g), x, stack[|stack| - 1], stack'[q]);
      }
    }
    assert Opens(g, stack', visited', x, p);
  }

  /** The white node on top becomes gray; its unvisited successors are pushed. */
  lemma Discover(g: Graph, stack: seq<nat>, topo: seq<nat>, visited: set<nat>, done: set<nat>, pushed: seq<nat>)
    requires Searching(g, stack, topo, visited, done)
    requires |stack| > 0 && stack[|stack| - 1] !in visited
    requires forall y :: y in pushed ==> HasEdge(g, stack[|stack| - 1], y) && y in Nodes(g)
    requires forall y :: y in pushed ==> y !in visited + {stack[|stack| - 1]}
    requires forall y: nat :: HasEdge(g, stack[|stack| - 1], y) ==> y in visited + {stack[|stack| - 1]} || y in pushed
    ensures Searching(g, stack + pushed, topo, visited + {stack[|stack| - 1]}, done)
  {
    var top := |stack| - 1;
    var cur := stack[top];
    var stack', visited' := stack + pushed, visited + {cur};
    forall y | y in pushed
      ensures Reach(Edges(g), cur, y)
    {
      Step(Edges(g), cur, y);
    }
    assert Opens(g, stack', visited', cur, top) by {
      assert stack'[top + 1..] == pushed;
      forall q | top < q < |stack'|
        ensures stack'[q] != cur && Reach(Edges(g), cur, stack'[q])
      {
        assert stack'[q] in pushed;
      }
    }
    forall x | x in visited - done
      ensures Open(g, stack', visited', x)
    {
      PushedAbove(g, stack, visited, pushed, x);
    }
    assert visited' - done == (visited - done) + {cur};
    forall u: nat, w: nat | u in done && Reach(Edges(g), u, w)
      ensures Led(g, visited' - done, topo, u, w)
    {
      assert Led(g, visited - done, topo, u, w);
      var lead: nat :| Leads(g, visited - done, topo, u, w, lead);
      assert Leads(g, visited' - done, topo, u, w, lead);
    }
  }

  /** What popping a visited entry does to the gray nodes below it. */
  lemma StillOpen(g: Graph, stack: seq<nat>, visited: set<nat>, x: nat)
    requires Open(g, stack, visited, x) && |stack| > 0
    requires stack[|stack| - 1] in visited && x != stack[|stack| - 1]
    ensures Open(g, stack[..|stack| - 1], visited, x)
    ensures Reach(Edges(g), x, stack[|stack| - 1])
  {
    var top := |stack| - 1;
    var p: nat :| Opens(g, stack, visited, x, p);
    var stack' := stack[..top];
    forall y: nat | HasEdge(g, x, y)
      ensures y in visited || y in stack'[p + 1..]
    {
      if y !in visited {
        var q :| p < q < |stack| && stack[q] == y;
        assert stack'[p + 1..][q - p - 1] == y;
      }
    }
    assert Opens(g, stack', visited, x, p);
  }

  lemma Drop(g: Graph, stack: seq<nat>, topo: seq<nat>, visited: set<nat>, done: set<nat>)
    requires Searching(g, stack, topo, visited, done)
    requires |stack| > 0 && stack[|stack| - 1] in done
    ensures Searching(g, stack[..|stack| - 1], topo, visited, done)
  {
    forall x | x in visited - done
      ensures Open(g, stack[..|stack| - 1], visited, x)
    {
      StillOpen(g, stack, visited, x);
    }
  }

  /** All successors of the gray node on top have been visited. */
  lemma TopExplored(g: Graph, stack: seq<nat>, visited: set<nat>, y: nat)
    requires |stack| > 0 && Open(g, stack, visited, stack[|stack| - 1])
    requires HasEdge(g, stack[|stack| - 1], y)
    ensures y in visited
  {
    var top := |stack| - 1;
    var p: nat :| Opens(g, stack, visited, stack[top], p);
    assert p == top;
    assert stack[p + 1..] == [];
  }

  /** If the node t about to finish reaches an unfinished node, a gray node below it is in its component. */
  lemma GrayMate(g: Graph, stack: seq<nat>, topo: seq<nat>, visited: set<nat>, done: set<nat>, w: nat)
    returns (d: nat)
    requires Searching(g, stack, topo, visited, done)
    requires |stack| > 0 && stack[|stack| - 1] in visited - done
    requires w !in done && w != stack[|stack| - 1] && Reach(Edges(g), stack[|stack| - 1], w)
    ensures d in visited - done && d != stack[|stack| - 1] && Mutual(g, stack[|stack| - 1], d)
  {
    var t := stack[|stack| - 1];
    var finished := iset x: nat | x in done || x == t;
    var x;
    Refl(Edges(g), t);
    x, d := Exit(Edges(g), finished, t, w);
    if x == t {
      TopExplored(g, stack, visited, d);
    }
    Step(Edges(g), x, d);
    Trans(Edges(g), t, x, d);
    StillOpen(g, stack, visited, d);
  }

  lemma FinishLed(g: Graph, stack: seq<nat>, topo: seq<nat>, visited: set<nat>, done: set<nat>, u: nat, w: nat)
    requires Searching(g, stack, topo, visited, done)
    requires |stack| > 0 && stack[|stack| - 1] in visited - done
    requires u in done || u == stack[|stack| - 1]
    requires Reach(Edges(g), u, w)
    ensures Led(g, visited - (done + {stack[|stack| - 1]}), [stack[|stack| - 1]] + topo, u, w)
  {
    var t := stack[|stack| - 1];
    var done', topo' := done + {t}, [t] + topo;
    Refl(Edges(g), u);
    var lead := u;
    if u != t {
      assert Led(g, visited - done, topo, u, w);
      lead :| Leads(g, visited - done, topo, u, w, lead);
    }
    BeforeFront(topo, t, lead, w);
    if lead == t && w !in done' {
      Trans(Edges(g), t, u, w);
      var d := GrayMate(g, stack, topo, visited, done, w);
      MutualTrans(g, u, t, d);
      assert Leads(g, visited - done', topo', u, w, d);
    } else {
      assert Leads(g, visited - done', topo', u, w, lead);
    }
  }

  /** The gray node on top becomes black and is put in front of the listing. */
  lemma Finish(g: Graph, stack: seq<nat>, topo: seq<nat>, visited: set<nat>, done: set<nat>)
    requires Searching(g, stack, topo, visited, done)
    requires |stack| > 0 && stack[|stack| - 1] in visited - done
    ensures Searching(g, stack[..|stack| - 1], [stack[|stack| - 1]] + topo, visited, done + {stack[|stack| - 1]})
  {
    var t := stack[|stack| - 1];
    var stack', topo', done' := stack[..|stack| - 1], [t] + topo, done + {t};
    forall x | x in visited - done'
      ensures Open(g, stack', visited, x)
    {
      StillOpen(g, stack, visited, x);
    }
    forall y: nat | HasEdge(g, t, y)
      ensures y in visited
    {
      TopExplored(g, stack, visited, y);
    }
    forall i, j | 0 <= i < j < |topo'|
      ensures Differ(topo', i, j)
    {
      if i > 0 {
        assert Differ(topo, i - 1, j - 1);
      } else {
        assert topo[j - 1] in done;
      }
    }
    forall u: nat, w: nat | u in done' && Reach(Edges(g), u, w)
      ensures Led(g, visited - done', topo', u, w)
    {
      FinishLed(g, stack, topo, visited, done, u, w);
    }
    forall u: nat, v: nat | u in topo' && HasEdge(g, u, v) && !Reach(Edges(g), v, u)
      ensures Before(topo', u, v)
    {
      BeforeFront(topo, t, u, v);
      if u == t {
        Refl(Edges(g), t);
        TopExplored(g, stack, visited, v);
        if v !in done {
          StillOpen(g, stack, visited, v);
        }
      }
    }
  }

  /** Visits u and everything newly reachable from it, putting each node in front of the
      listing when it is popped after its descendants. */
  method DFSTopoVisit(graph: Graph, u: nat, topo: seq<nat>, visited: array<bool>, inTopo: array<bool>)
    returns (topo': seq<nat>)
    requires WellFormed(graph) && Node(graph, u)
    requires visited != inTopo && visited.Length == inTopo.Length == |graph|
    requires Searching(graph, [], topo, On(visited[..]), On(inTopo[..]))
    modifies visited, inTopo
    ensures Searching(graph, [], topo', On(visited[..]), On(inTopo[..]))
    ensures On(visited[..]) >= old(On(visited[..])) + {u}
  {
    topo' := topo;
    Idle(graph, topo, On(visited[..]), On(inTopo[..]));
    Start(graph, u, topo, On(visited[..]));
    var traversal := [u];
    while |traversal| > 0
      invariant Searching(graph, traversal, topo', On(visited[..]), On(inTopo[..]))
      invariant On(visited[..]) >= old(On(visited[..]))
      invariant u in On(visited[..]) || u in traversal
      decreases Nodes(graph) - On(visited[..]), |traversal|
    {
      var cur := traversal[|traversal| - 1];
      assert cur in Nodes(graph);
      ghost var v, d := visited[..], inTopo[..];
      if visited[cur] {
        if !inTopo[cur] {
          Finish(graph, traversal, topo', On(v), On(d));
          OnUpdate(d, cur);
          topo' := [cur] + topo';
          inTopo[cur] := true;
          assert inTopo[..] == d[cur := true];
        } else {
          Drop(graph, traversal, topo', On(v), On(d));
        }
        traversal := traversal[..|traversal| - 1];
        continue;
      }
      visited[cur] := true;
      OnUpdate(v, cur);
      assert visited[..] == v[cur := true];
      ghost var below, pushed := traversal, [];
      for it := 0 to |graph[cur]|
        invariant visited[..] == v[cur := true] && inTopo[..] == d
        invariant traversal == below + pushed
        invariant forall y :: y in pushed ==> y in graph[cur] && y in Nodes(graph) && y !in On(v) + {cur}
        invariant forall k :: 0 <= k < it ==> graph[cur][k] in On(v) + {cur} || graph[cur][k] in pushed
      {
        var next := graph[cur][it];
        if !visited[next] {
          traversal := traversal + [next];
          pushed := pushed + [next];
        }
      }
      Discover(graph, below, topo', On(v), On(d), pushed);
    }
  }

  /** Lists every node exactly once, in an order the second pass can rely on. */
  method DFSTopo(graph: Graph) returns (topo: seq<nat>)
    requires WellFormed(graph)
    ensures NoDuplicates(topo) && forall u: nat :: u in topo <==> Node(graph, u)
    ensures EdgesOrdered(graph, topo)
    ensures ComponentsOrdered(graph, topo)
  {
    var visited := new bool[|graph|](_ => false);
    var inTopo := new bool[|graph|](_ => false);
    topo := [];
    for i := 1 to |graph|
      invariant Searching(graph, [], topo, On(visited[..]), On(inTopo[..]))
      invariant forall u: nat :: 1 <= u < i ==> u in On(visited[..])
    {
      if !visited[i] {
        topo := DFSTopoVisit(graph, i, topo, visited, inTopo);
      }
    }
    Idle(graph, topo, On(visited[..]), On(inTopo[..]));
    assert On(visited[..]) - On(inTopo[..]) == {};
    assert forall u: nat :: Node(graph, u) ==> u in On(visited[..]);
  }
}
