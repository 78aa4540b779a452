/** Second pass of TugaNet: components and the longest chain of the condensation in one sweep. */
module TugaNet {
  import opened Paths
  import opened Digraph
  import opened TopoSort

  ghost predicate PredecessorClosed(g: Graph, s: set<nat>) {
    forall a: nat, b: nat {:trigger HasEdge(g, a, b)} :: b in s && HasEdge(g, a, b) ==> a in s
  }

  /** Everything that reaches a member of a predecessor-closed set is in it. */
  lemma ClosedBackwards(g: Graph, s: set<nat>, y: nat, x: nat)
    requires PredecessorClosed(g, s) && x in s && Reach(Edges(g), y, x)
    ensures y in s
  {
    if y !in s {
      var outside := iset a: nat | a !in s;
      Closed(Edges(g), outside, y, x);
    }
  }

  /** s is the strongly connected component of u. */
  ghost predicate IsComponent(g: Graph, u: nat, s: set<nat>) {
    forall x: nat {:trigger Mutual(g, u, x)} :: Mutual(g, u, x) <==> x in s
  }

  /** The distance recorded for the component of x. */
  ghost function DistanceOf(scc: seq<int>, distance: seq<int>, x: nat): int {
    if x < |scc| && 0 <= scc[x] < |distance| then distance[scc[x]] else 0
  }

  /** What the sweep knows about the visited nodes when no component is being explored. */
  ghost predicate Swept(g: Graph, visited: set<nat>, scc: seq<int>, distance: seq<int>, sccIdx: nat) {
    && |scc| == |distance| == |g|
    && visited <= Nodes(g) && PredecessorClosed(g, visited)
    && 1 <= sccIdx <= |visited| + 1
    && (forall x :: x in visited ==> 1 <= scc[x] < sccIdx)
    && (forall x, y {:trigger Mutual(g, x, y)} :: x in visited && y in visited ==>
        (scc[x] == scc[y] <==> Mutual(g, x, y)))
    && (forall x {:trigger LongestTo(g, x, DistanceOf(scc, distance, x))} ::
          x in visited ==> LongestTo(g, x, DistanceOf(scc, distance, x)))
    && (forall i :: sccIdx <= i < |distance| ==> distance[i] == 0)
  }

  lemma LeadIsFirst(topo: seq<nat>, k: nat, lead: nat)
    requires NoDuplicates(topo) && k < |topo| && Before(topo, lead, topo[k])
    ensures lead == topo[k] || exists i :: 0 <= i < k && topo[i] == lead
  {
    var i, j :| 0 <= i <= j < |topo| && topo[i] == lead && topo[j] == topo[k];
    assert j < k ==> Differ(topo, j, k);
    assert k < j ==> Differ(topo, k, j);
  }

  /** The first unvisited node u of the order is reached, among unvisited nodes, only from its own component. */
  lemma UnvisitedAreMutual(g: Graph, topo: seq<nat>, k: nat, visited: set<nat>, x: nat)
    requires ComponentsOrdered(g, topo) && NoDuplicates(topo) && k < |topo|
    requires PredecessorClosed(g, visited)
    requires forall i :: 0 <= i < k ==> topo[i] in visited
    requires x in topo && x !in visited && Reach(Edges(g), x, topo[k])
    ensures Mutual(g, topo[k], x)
  {
    assert Led(g, {}, topo, x, topo[k]);
    var lead: nat :| Leads(g, {}, topo, x, topo[k], lead);
    if lead in visited {
      ClosedBackwards(g, visited, x, lead);
    }
    LeadIsFirst(topo, k, lead);
  }

  /** What may be visited from u along the reversed edges t: unvisited nodes, entered only from
      among themselves and from earlier nodes. */
  ghost predicate Scope(t: Graph, u: nat, earlier: set<nat>, scope: set<nat>) {
    && earlier + scope <= Nodes(t) && earlier !! scope && u in scope
    && (forall b: nat, a: nat {:trigger HasEdge(t, b, a)} :: b in scope && HasEdge(t, b, a) ==>
        a in earlier || a in scope)
  }

  /** The part of the scope visited so far and the nodes still to visit. */
  ghost predicate Exploring(u: nat, scope: set<nat>, component: set<nat>, stack: seq<nat>) {
    && (forall x :: x in component || x in stack ==> x in scope)
    && (u in component || u in stack)
  }

  /** Every edge into the component comes from a known entry, from the component, or from a node still to visit. */
  ghost predicate Covered(t: Graph, component: set<nat>, stack: seq<nat>, entries: set<nat>) {
    forall x: nat, y: nat {:trigger HasEdge(t, x, y)} :: x in component && HasEdge(t, x, y) ==>
      y in entries || y in component || y in stack
  }

  /** The entries are earlier nodes with an edge into the component. */
  ghost predicate Entering(t: Graph, earlier: set<nat>, component: set<nat>, entries: set<nat>) {
    forall y :: y in entries ==> y in earlier && exists x: nat :: x in component && HasEdge(t, x, y)
  }

  /** d is the largest of 0 and the entries' distances plus one. */
  ghost predicate BestEntry(scc: seq<int>, distance: seq<int>, entries: set<nat>, d: int) {
    && d >= 0
    && (forall y :: y in entries ==> d >= DistanceOf(scc, distance, y) + 1)
    && (d == 0 || exists y :: y in entries && d == DistanceOf(scc, distance, y) + 1)
  }

  /** A set that is visited from u and entered only from itself and from earlier components is u's component. */
  lemma Explored(g: Graph, u: nat, earlier: set<nat>, component: set<nat>)
    requires PredecessorClosed(g, earlier) && PredecessorClosed(g, earlier + component)
    requires u in component && u !in earlier && forall x :: x in component ==> Mutual(g, u, x)
    ensures forall x: nat :: x in component <==> Mutual(g, u, x)
  {
    forall x: nat | Mutual(g, u, x)
      ensures x in component
    {
      ClosedBackwards(g, earlier + component, x, u);
      if x in earlier {
        ClosedBackwards(g, earlier, u, x);
      }
    }
  }

  lemma EntryAttained(g: Graph, u: nat, earlier: set<nat>, y: nat, x: nat, d: int)
    requires PredecessorClosed(g, earlier) && u in Nodes(g) && u !in earlier
    requires y in earlier && Mutual(g, u, x) && HasEdge(g, y, x) && LongestTo(g, y, d - 1)
    ensures exists c: seq<nat> :: EndsAt(g, c, u) && |c| == d + 1
  {
    Refl(Edges(g), y);
    assert Crosses(g, y, u, y, x);
    if Mutual(g, y, u) {
      ClosedBackwards(g, earlier, u, y);
    }
    var c: seq<nat> :| EndsAt(g, c, y) && |c| == d;
    ChainExtend(g, c, u);
    assert EndsAt(g, c + [u], u);
  }

  /** The edge by which a chain enters the last component comes from an earlier one. */
  lemma EntryOfChain(g: Graph, u: nat, earlier: set<nat>, component: set<nat>, c: seq<nat>)
    returns (y: nat, x: nat, c': seq<nat>)
    requires PredecessorClosed(g, earlier + component) && earlier <= Nodes(g)
    requires forall x: nat :: x in component <==> Mutual(g, u, x)
    requires EndsAt(g, c, u) && |c| > 1
    ensures y in earlier && x in component && HasEdge(g, y, x)
    ensures EndsAt(g, c', y) && |c'| == |c| - 1
  {
    var a := c[|c| - 2];
    ChainPrefix(g, c);
    y, x :| Crosses(g, a, u, y, x);
    if y in component {
      MutualTrans(g, a, y, u);
    }
    assert y in earlier + component;
    c' := ChangeEnd(g, c[..|c| - 1], y);
  }

  lemma EntryIsLongest(g: Graph, t: Graph, u: nat, earlier: set<nat>, component: set<nat>, scc: seq<int>,
                       distance: seq<int>, entries: set<nat>, d: int)
    requires PredecessorClosed(g, earlier) && PredecessorClosed(g, earlier + component)
    requires earlier <= Nodes(g) && u in Nodes(g) && u !in earlier && earlier !! component
    requires forall x: nat :: x in component <==> Mutual(g, u, x)
    requires Transposes(g, t) && WellFormed(t)
    requires Covered(t, component, [], entries) && Entering(t, earlier, component, entries)
    requires BestEntry(scc, distance, entries, d)
    requires forall y :: y in earlier ==> LongestTo(g, y, DistanceOf(scc, distance, y))
    ensures LongestTo(g, u, d)
  {
    if d == 0 {
      assert EndsAt(g, [u], u);
    } else {
      var y :| y in entries && d == DistanceOf(scc, distance, y) + 1;
      var x: nat :| x in component && HasEdge(t, x, y);
      assert Node(t, y);
      assert HasEdge(g, y, x);
      EntryAttained(g, u, earlier, y, x, d);
    }
    forall c: seq<nat> | EndsAt(g, c, u)
      ensures |c| <= d + 1
    {
      if |c| > 1 {
        var y, x, c' := EntryOfChain(g, u, earlier, component, c);
        assert HasEdge(t, x, y);
        assert LongestTo(g, y, DistanceOf(scc, distance, y));
      }
    }
  }

  /** The new component numbers separate the components. */
  lemma NumbersSeparate(g: Graph, u: nat, earlier: set<nat>, component: set<nat>, scc: seq<int>, sccIdx: nat, x: nat,
                        y: nat)
    requires PredecessorClosed(g, earlier) && earlier !! component && earlier + component <= Nodes(g) && |scc| == |g|
    requires forall z: nat :: z in component <==> Mutual(g, u, z)
    requires forall z :: z in component ==> scc[z] == sccIdx
    requires forall z :: z in earlier ==> scc[z] < sccIdx
    requires forall a, b :: a in earlier && b in earlier ==> (scc[a] == scc[b] <==> Mutual(g, a, b))
    requires x in earlier + component && y in earlier + component
    ensures scc[x] == scc[y] <==> Mutual(g, x, y)
  {
    if x in component && y in component {
      MutualTrans(g, x, u, y);
    } else if x in component && Mutual(g, x, y) {
      ClosedBackwards(g, earlier, x, y);
    } else if y in component && Mutual(g, x, y) {
      ClosedBackwards(g, earlier, y, x);
    }
  }

  lemma ComponentLongest(g: Graph, u: nat, earlier: set<nat>, component: set<nat>, scc: seq<int>, scc': seq<int>,
                         distance: seq<int>, distance': seq<int>, sccIdx: nat, x: nat)
    requires earlier + component <= Nodes(g) && u in Nodes(g) && x in earlier + component && sccIdx < |g|
    requires |scc| == |scc'| == |distance| == |distance'| == |g|
    requires x in earlier ==> scc'[x] == scc[x] < sccIdx && LongestTo(g, x, DistanceOf(scc, distance, x))
    requires x in component ==> scc'[x] == sccIdx && Mutual(g, u, x)
    requires forall i :: 0 <= i < |g| && i != sccIdx ==> distance'[i] == distance[i]
    requires LongestTo(g, u, distance'[sccIdx])
    ensures LongestTo(g, x, DistanceOf(scc', distance', x))
  {
    if x in component {
      LongestToMutual(g, u, x, distance'[sccIdx]);
    } else {
      assert DistanceOf(scc', distance', x) == DistanceOf(scc, distance, x);
    }
  }

  /** The numbers recorded so far while component number sccIdx is explored. */
  ghost predicate Numbering(n: nat, earlier: set<nat>, component: set<nat>, scc: seq<int>, scc': seq<int>,
                            distance: seq<int>, distance': seq<int>, sccIdx: nat) {
    && |scc| == |scc'| == |distance| == |distance'| == n && sccIdx < n
    && (forall x :: x in earlier + component ==> x < n)
    && (forall x :: x in earlier ==> scc'[x] == scc[x])
    && (forall x :: x in component ==> scc'[x] == sccIdx)
    && (forall i :: 0 <= i < n && i != sccIdx ==> distance'[i] == distance[i])
  }

  lemma AllLongest(g: Graph, u: nat, earlier: set<nat>, component: set<nat>, scc: seq<int>, scc': seq<int>,
                   distance: seq<int>, distance': seq<int>, sccIdx: nat)
    requires Swept(g, earlier, scc, distance, sccIdx) && u in Nodes(g)
    requires Numbering(|g|, earlier, component, scc, scc', distance, distance', sccIdx)
    requires component <= Nodes(g) && forall x :: x in component ==> Mutual(g, u, x)
    requires LongestTo(g, u, distance'[sccIdx])
    ensures forall x :: x in earlier + component ==> LongestTo(g, x, DistanceOf(scc', distance', x))
  {
    forall x | x in earlier + component
      ensures LongestTo(g, x, DistanceOf(scc', distance', x))
    {
      ComponentLongest(g, u, earlier, component, scc, scc', distance, distance', sccIdx, x);
    }
  }

  lemma AllSeparate(g: Graph, u: nat, earlier: set<nat>, component: set<nat>, scc: seq<int>, scc': seq<int>,
                    distance: seq<int>, distance': seq<int>, sccIdx: nat)
    requires Swept(g, earlier, scc, distance, sccIdx) && earlier !! component
    requires Numbering(|g|, earlier, component, scc, scc', distance, distance', sccIdx)
    requires component <= Nodes(g) && forall z: nat :: z in component <==> Mutual(g, u, z)
    ensures forall x, y :: x in earlier + component && y in earlier + component ==>
              (scc'[x] == scc'[y] <==> Mutual(g, x, y))
  {
    forall x, y | x in earlier + component && y in earlier + component
      ensures scc'[x] == scc'[y] <==> Mutual(g, x, y)
    {
      NumbersSeparate(g, u, earlier, component, scc', sccIdx, x, y);
    }
  }

  lemma CoveredIsClosed(g: Graph, t: Graph, earlier: set<nat>, component: set<nat>, entries: set<nat>)
    requires Transposes(g, t) && PredecessorClosed(g, earlier) && component <= Nodes(t)
    requires Covered(t, component, [], entries) && Entering(t, earlier, component, entries)
    ensures PredecessorClosed(g, earlier + component)
  {
    forall a: nat, b: nat | b in component && HasEdge(g, a, b)
      ensures a in earlier + component
    {
      assert HasEdge(t, b, a);
    }
  }

  /** One call of DFSMaxJumpsVisit visits exactly u's component and finds its longest chain. */
  lemma ComponentFound(g: Graph, t: Graph, u: nat, earlier: set<nat>, component: set<nat>, entries: set<nat>,
                       scc: seq<int>, distance: seq<int>, sccIdx: nat, d: int)
    requires Swept(g, earlier, scc, distance, sccIdx)
    requires earlier !! component && component <= Nodes(g)
    requires u in component && forall x :: x in component ==> Mutual(g, u, x)
    requires Transposes(g, t) && WellFormed(t)
    requires Covered(t, component, [], entries) && Entering(t, earlier, component, entries)
    requires BestEntry(scc, distance, entries, d)
    ensures LongestTo(g, u, d)
    ensures PredecessorClosed(g, earlier + component)
    ensures forall x: nat :: x in component <==> Mutual(g, u, x)
  {
    CoveredIsClosed(g, t, earlier, component, entries);
    Explored(g, u, earlier, component);
    EntryIsLongest(g, t, u, earlier, component, scc, distance, entries, d);
  }

  /** Adding one whole component keeps the sweep's knowledge. */
  lemma Absorb(g: Graph, u: nat, earlier: set<nat>, component: set<nat>,
               scc: seq<int>, scc': seq<int>, distance: seq<int>, distance': seq<int>, sccIdx: nat)
    requires Swept(g, earlier, scc, distance, sccIdx) && PredecessorClosed(g, earlier + component)
    requires earlier !! component && u in component && component <= Nodes(g)
    requires forall x: nat :: x in component <==> Mutual(g, u, x)
    requires Numbering(|g|, earlier, component, scc, scc', distance, distance', sccIdx)
    requires LongestTo(g, u, distance'[sccIdx])
    ensures Swept(g, earlier + component, scc', distance', sccIdx + 1)
  {
    AllLongest(g, u, earlier, component, scc, scc', distance, distance', sccIdx);
    AllSeparate(g, u, earlier, component, scc, scc', distance, distance', sccIdx);
    assert |earlier + component| == |earlier| + |component|;
  }

  lemma ComponentEntered(g: Graph, topo: seq<nat>, k: nat, visited: set<nat>, a: nat, b: nat)
    requires ComponentsOrdered(g, topo) && NoDuplicates(topo) && k < |topo|
    requires PredecessorClosed(g, visited) && forall i :: 0 <= i < k ==> topo[i] in visited
    requires Mutual(g, topo[k], b) && HasEdge(g, a, b) && a in topo && a !in visited
    ensures Mutual(g, topo[k], a)
  {
    Step(Edges(g), a, b);
    Trans(Edges(g), a, b, topo[k]);
    UnvisitedAreMutual(g, topo, k, visited, a);
  }

  /** The scope of the first unvisited node of the order is its own component. */
  lemma ComponentIsScope(g: Graph, t: Graph, topo: seq<nat>, k: nat, visited: set<nat>) returns (scope: set<nat>)
    requires ComponentsOrdered(g, topo) && NoDuplicates(topo) && k < |topo| && topo[k] !in visited
    requires forall x: nat :: x in topo <==> Node(g, x)
    requires WellFormed(t) && Transposes(g, t) && visited <= Nodes(g) && PredecessorClosed(g, visited)
    requires forall i :: 0 <= i < k ==> topo[i] in visited
    ensures Scope(t, topo[k], visited, scope)
    ensures forall x :: x in scope ==> Mutual(g, topo[k], x)
  {
    var u := topo[k];
    scope := set x: nat | x in Nodes(g) - visited && Mutual(g, u, x);
    Refl(Edges(g), u);
    assert u in scope by {
      assert u in topo;
    }
    forall b: nat, a: nat | b in scope && HasEdge(t, b, a)
      ensures a in visited || a in scope
    {
      assert Node(t, a);
      if a !in visited {
        assert a in topo && HasEdge(g, a, b);
        ComponentEntered(g, topo, k, visited, a, b);
      }
    }
  }

  lemma SweptInitially(g: Graph, scc: seq<int>, distance: seq<int>)
    requires |scc| == |distance| == |g| && forall i :: 1 <= i < |g| ==> distance[i] == 0
    ensures Swept(g, {}, scc, distance, 1)
  {
  }

  /** max is the largest of 0 and the distances recorded for the visited nodes; best attains it. */
  ghost predicate MaxSoFar(visited: set<nat>, scc: seq<int>, distance: seq<int>, max: int, best: nat) {
    && max >= 0
    && (forall x :: x in visited ==> DistanceOf(scc, distance, x) <= max)
    && (max > 0 ==> best in visited && DistanceOf(scc, distance, best) == max)
  }

  lemma MaxAfter(earlier: set<nat>, component: set<nat>, visited: set<nat>, u: nat, scc: seq<int>, scc': seq<int>,
                 distance: seq<int>, distance': seq<int>, jumps: int, max: int, best: nat)
    requires MaxSoFar(earlier, scc, distance, max, best) && u in component && visited == earlier + component
    requires forall x :: x in earlier ==> DistanceOf(scc', distance', x) == DistanceOf(scc, distance, x)
    requires forall x :: x in component ==> DistanceOf(scc', distance', x) == jumps
    ensures MaxSoFar(visited, scc', distance', if max < jumps then jumps else max, if max < jumps then u else best)
  {
  }

  lemma AllVisited(g: Graph, topo: seq<nat>, visited: set<nat>)
    requires visited <= Nodes(g) && forall i :: 0 <= i < |topo| ==> topo[i] in visited
    requires forall u: nat :: u in topo <==> Node(g, u)
    ensures visited == Nodes(g)
  {
  }

  /** When every node has been visited the largest distance is the length of the longest chain. */
  lemma Conclude(g: Graph, scc: seq<int>, distance: seq<int>, sccIdx: nat, max: int, best: nat)
    requires |g| > 0 && Swept(g, Nodes(g), scc, distance, sccIdx) && MaxSoFar(Nodes(g), scc, distance, max, best)
    ensures LongestChain(g, max)
  {
    forall c: seq<nat> | IsChain(g, c)
      ensures |c| <= max + 1
    {
      var u := c[|c| - 1];
      assert u in Nodes(g) && EndsAt(g, c, u);
      assert LongestTo(g, u, DistanceOf(scc, distance, u));
    }
    if max > 0 {
      assert LongestTo(g, best, DistanceOf(scc, distance, best));
      var c: seq<nat> :| EndsAt(g, c, best) && |c| == max + 1;
    } else if |g| > 1 {
      assert IsChain(g, [1]);
    }
  }

  /** What one call of DFSMaxJumpsVisit does to the sweep's knowledge. */
  lemma VisitedOne(g: Graph, t: Graph, u: nat, earlier: set<nat>, component: set<nat>, entries: set<nat>,
                   scc: seq<int>, scc': seq<int>, distance: seq<int>, distance': seq<int>, sccIdx: nat)
    requires Swept(g, earlier, scc, distance, sccIdx)
    requires earlier !! component && component <= Nodes(g)
    requires u in component && forall x :: x in component ==> Mutual(g, u, x)
    requires Transposes(g, t) && WellFormed(t)
    requires Covered(t, component, [], entries) && Entering(t, earlier, component, entries)
    requires Numbering(|g|, earlier, component, scc, scc', distance, distance', sccIdx)
    requires BestEntry(scc, distance, entries, distance'[sccIdx])
    ensures IsComponent(g, u, component)
    ensures Swept(g, earlier + component, scc', distance', sccIdx + 1)
    ensures forall x :: x in earlier ==> DistanceOf(scc', distance', x) == DistanceOf(scc, distance, x)
    ensures forall x :: x in component ==> DistanceOf(scc', distance', x) == distance'[sccIdx]
  {
    ComponentFound(g, t, u, earlier, component, entries, scc, distance, sccIdx, distance'[sccIdx]);
    Absorb(g, u, earlier, component, scc, scc', distance, distance', sccIdx);
  }

  /** There is an unused component number while a node is unvisited. */
  lemma {:induction false} NodeCount(n: nat, s: set<nat>)
    requires n > 0 && forall x :: x in s ==> 1 <= x < n
    ensures |s| < n
  {
    if n == 1 {
      assert s == {};
    } else {
      NodeCount(n - 1, s - {n - 1});
    }
  }

  /** An earlier node found to have an edge into the component raises the distance. */
  lemma AddEntry(scc: seq<int>, distance: seq<int>, entries: set<nat>, d: int, next: nat)
    requires BestEntry(scc, distance, entries, d)
    ensures var here := DistanceOf(scc, distance, next) + 1;
            BestEntry(scc, distance, entries + {next}, if d < here then here else d)
  {
    if d != 0 {
      var y :| y in entries && d == DistanceOf(scc, distance, y) + 1;
      assert y in entries + {next};
    }
    assert next in entries + {next};
  }

  /** The state between two nodes of one visit. */
  ghost predicate Visiting(t: Graph, u: nat, earlier: set<nat>, scope: set<nat>, component: set<nat>,
                           stack: seq<nat>, entries: set<nat>) {
    && Exploring(u, scope, component, stack)
    && Covered(t, component, stack, entries) && Entering(t, earlier, component, entries)
  }

  lemma TopInScope(t: Graph, u: nat, earlier: set<nat>, scope: set<nat>, component: set<nat>, stack: seq<nat>, cur: nat,
                   entries: set<nat>)
    requires Scope(t, u, earlier, scope) && Visiting(t, u, earlier, scope, component, stack + [cur], entries)
    ensures cur in scope && Node(t, cur) && cur in Nodes(t) && cur !in earlier
  {
    assert cur in stack + [cur];
  }

  lemma StartVisit(t: Graph, u: nat, earlier: set<nat>, scope: set<nat>)
    requires Scope(t, u, earlier, scope)
    ensures Visiting(t, u, earlier, scope, {}, [u], {}) && earlier !! scope
  {
  }

  lemma EndVisit(t: Graph, u: nat, earlier: set<nat>, scope: set<nat>, component: set<nat>, entries: set<nat>)
    requires Visiting(t, u, earlier, scope, component, [], entries)
    ensures u in component && component <= scope && Covered(t, component, [], entries) &&
            Entering(t, earlier, component, entries)
  {
  }

  lemma SkipTop(t: Graph, u: nat, earlier: set<nat>, scope: set<nat>, component: set<nat>, stack: seq<nat>, cur: nat,
                entries: set<nat>)
    requires Visiting(t, u, earlier, scope, component, stack + [cur], entries) && cur in component
    ensures Visiting(t, u, earlier, scope, component, stack, entries)
  {
  }

  /** The node on top joins the component once all edges into it have been examined. */
  lemma ExpandTop(t: Graph, u: nat, earlier: set<nat>, scope: set<nat>, component: set<nat>, stack: seq<nat>, cur: nat,
                  entries: set<nat>, pushed: seq<nat>, entries': set<nat>)
    requires Scope(t, u, earlier, scope)
    requires Visiting(t, u, earlier, scope, component, stack + [cur], entries)
    requires entries <= entries' && Entering(t, earlier, component + {cur}, entries')
    requires forall y :: y in pushed ==> HasEdge(t, cur, y) && y !in earlier
    requires forall y: nat :: HasEdge(t, cur, y) ==> y in entries' || y in component + {cur} || y in stack + pushed
    ensures Visiting(t, u, earlier, scope, component + {cur}, stack + pushed, entries')
  {
    assert cur in stack + [cur];
  }

  lemma NumberLeft(g: Graph, visited: set<nat>, u: nat)
    requires |g| > 0 && visited <= Nodes(g) && Node(g, u) && u !in visited
    ensures |visited| + 1 < |g|
  {
    NodeCount(|g|, visited + {u});
  }

  /** The edges into cur, one by one: unvisited ends are pushed, ends in earlier components raise the distance. */
  method ExamineEdges(transposed: Graph, cur: nat, sccIdx: nat, scc: array<int>, distance: array<int>,
                      visited: array<bool>, traversal: seq<nat>, ghost earlier: set<nat>, ghost component: set<nat>,
                      ghost entries: set<nat>, ghost scc0: seq<int>, ghost distance0: seq<int>)
    returns (traversal': seq<nat>, ghost entries': set<nat>, ghost pushed: seq<nat>)
    requires WellFormed(transposed) && Node(transposed, cur) && cur in component
    requires scc.Length == distance.Length == visited.Length == |transposed| && scc != distance
    requires On(visited[..]) == earlier + component && earlier !! component
    requires Numbering(|transposed|, earlier, component, scc0, scc[..], distance0, distance[..], sccIdx)
    requires forall x :: x in earlier ==> 0 <= scc0[x] < sccIdx
    requires Entering(transposed, earlier, component, entries) && BestEntry(scc0, distance0, entries, distance[sccIdx])
    modifies distance
    ensures distance[..] == old(distance[..])[sccIdx := distance[sccIdx]]
    ensures entries <= entries' && traversal' == traversal + pushed
    ensures Entering(transposed, earlier, component, entries') && BestEntry(scc0, distance0, entries', distance[sccIdx])
    ensures forall y :: y in pushed ==> HasEdge(transposed, cur, y) && y !in earlier
    ensures forall y: nat :: HasEdge(transposed, cur, y) ==> y in entries' || y in component || y in traversal'
  {
    traversal', entries', pushed := traversal, entries, [];
    for it := 0 to |transposed[cur]|
      invariant distance[..] == old(distance[..])[sccIdx := distance[sccIdx]]
      invariant entries <= entries' && traversal' == traversal + pushed
      invariant Entering(transposed, earlier, component, entries') &&
                BestEntry(scc0, distance0, entries', distance[sccIdx])
      invariant forall y :: y in pushed ==> HasEdge(transposed, cur, y) && y !in earlier
      invariant forall i :: 0 <= i < it ==>
                  transposed[cur][i] in entries' || transposed[cur][i] in component || transposed[cur][i] in traversal'
    {
      var next := transposed[cur][it];
      assert HasEdge(transposed, cur, next);
      assert visited[next] <==> next in On(visited[..]);
      if !visited[next] {
        traversal', pushed := traversal' + [next], pushed + [next];
        continue;
      }
      if scc[next] != scc[cur] {
        AddEntry(scc0, distance0, entries', distance[sccIdx], next);
        entries' := entries' + {next};
        distance[sccIdx] := if distance[sccIdx] < distance[scc[next]] + 1 then distance[scc[next]] + 1
                            else distance[sccIdx];
      }
    }
  }

  /** Numbers an unvisited node and looks at the edges into it. */
  method VisitNode(transposed: Graph, cur: nat, sccIdx: nat, scc: array<int>, distance: array<int>,
                   visited: array<bool>, traversal: seq<nat>, ghost u: nat, ghost scope: set<nat>,
                   ghost earlier: set<nat>, ghost component: set<nat>, ghost entries: set<nat>, ghost scc0: seq<int>,
                   ghost distance0: seq<int>)
    returns (traversal': seq<nat>, ghost entries': set<nat>)
    requires WellFormed(transposed) && Node(transposed, cur) && Scope(transposed, u, earlier, scope) && cur in scope
    requires scc.Length == distance.Length == visited.Length == |transposed| && scc != distance
    requires On(visited[..]) == earlier + component && earlier !! component && cur !in earlier + component
    requires Visiting(transposed, u, earlier, scope, component, traversal + [cur], entries)
    requires Numbering(|transposed|, earlier, component, scc0, scc[..], distance0, distance[..], sccIdx)
    requires forall x :: x in earlier ==> 0 <= scc0[x] < sccIdx
    requires BestEntry(scc0, distance0, entries, distance[sccIdx])
    modifies scc, distance, visited
    ensures On(visited[..]) == old(On(visited[..])) + {cur}
    ensures Visiting(transposed, u, earlier, scope, component + {cur}, traversal', entries')
    ensures Numbering(|transposed|, earlier, component + {cur}, scc0, scc[..], distance0, distance[..], sccIdx)
    ensures BestEntry(scc0, distance0, entries', distance[sccIdx])
  {
    ghost var v := visited[..];
    scc[cur] := sccIdx;
    visited[cur] := true;
    OnUpdate(v, cur);
    assert visited[..] == v[cur := true];
    assert Entering(transposed, earlier, component + {cur}, entries);
    hide Scope, BestEntry, Entering, Covered, Exploring, Visiting;
    ghost var pushed;
    traversal', entries', pushed := ExamineEdges(transposed, cur, sccIdx, scc, distance, visited, traversal,
                                                 earlier, component + {cur}, entries, scc0, distance0);
    ExpandTop(transposed, u, earlier, scope, component, traversal, cur, entries, pushed, entries');
  }

  /** The traversal loop: visits what is left of the scope of u along the reversed edges, numbering it sccIdx;
      the distance becomes the largest of 0 and the distances, plus one, of the components with an edge into it. */
  method VisitScope(transposed: Graph, u: nat, sccIdx: nat, scc: array<int>, distance: array<int>,
                          visited: array<bool>, ghost scope: set<nat>)
    returns (ghost component: set<nat>, ghost entries: set<nat>)
    requires WellFormed(transposed)
    requires scc.Length == distance.Length == visited.Length == |transposed| && scc != distance
    requires 0 <= sccIdx < |transposed| && distance[sccIdx] == 0
    requires Scope(transposed, u, On(visited[..]), scope)
    requires forall x :: x in On(visited[..]) ==> 0 <= scc[x] < sccIdx
    modifies scc, distance, visited
    ensures On(visited[..]) == old(On(visited[..])) + component && u in component && component <= scope
    ensures Covered(transposed, component, [], entries)
    ensures Entering(transposed, old(On(visited[..])), component, entries)
    ensures Numbering(|transposed|, old(On(visited[..])), component, old(scc[..]), scc[..], old(distance[..]),
                      distance[..], sccIdx)
    ensures BestEntry(old(scc[..]), old(distance[..]), entries, distance[sccIdx])
  {
    ghost var earlier, scc0, distance0 := On(visited[..]), scc[..], distance[..];
    component, entries := {}, {};
    var traversal := [u];
    StartVisit(transposed, u, earlier, scope);
    assert BestEntry(scc0, distance0, entries, distance[sccIdx]);
    hide Visiting, Scope, BestEntry, Exploring, Covered, Entering;
    while |traversal| > 0
      invariant On(visited[..]) == earlier + component
      invariant Visiting(transposed, u, earlier, scope, component, traversal, entries)
      invariant Numbering(|transposed|, earlier, component, scc0, scc[..], distance0, distance[..], sccIdx)
      invariant BestEntry(scc0, distance0, entries, distance[sccIdx])
      decreases Nodes(transposed) - On(visited[..]), |traversal|
    {
      var cur := traversal[|traversal| - 1];
      assert traversal == traversal[..|traversal| - 1] + [cur];
      TopInScope(transposed, u, earlier, scope, component, traversal[..|traversal| - 1], cur, entries);
      traversal := traversal[..|traversal| - 1];
      ghost var below := traversal;
      if visited[cur] {
        SkipTop(transposed, u, earlier, scope, component, below, cur, entries);
        continue;
      }
      traversal, entries := VisitNode(transposed, cur, sccIdx, scc, distance, visited, traversal,
                                      u, scope, earlier, component, entries, scc0, distance0);
      component := component + {cur};
    }
    EndVisit(transposed, u, earlier, scope, component, entries);
  }

  /** Visits exactly the component of u, numbering it sccIdx; returns the length of the longest chain that ends
      in it. */
  method DFSMaxJumpsVisit(transposed: Graph, u: nat, sccIdx: nat, scc: array<int>, distance: array<int>,
                          visited: array<bool>, ghost g: Graph, ghost topo: seq<nat>, ghost k: nat)
    returns (jumps: int, ghost component: set<nat>)
    requires WellFormed(transposed) && Transposes(g, transposed)
    requires scc.Length == distance.Length == visited.Length == |transposed| && scc != distance
    requires ComponentsOrdered(g, topo) && NoDuplicates(topo) && forall x: nat :: x in topo <==> Node(g, x)
    requires k < |topo| && topo[k] == u && u !in On(visited[..])
    requires forall i :: 0 <= i < k ==> topo[i] in On(visited[..])
    requires Swept(g, On(visited[..]), scc[..], distance[..], sccIdx)
    modifies scc, distance, visited
    ensures On(visited[..]) == old(On(visited[..])) + component && old(On(visited[..])) !! component && u in component
    ensures IsComponent(g, u, component)
    ensures Swept(g, On(visited[..]), scc[..], distance[..], sccIdx + 1)
    ensures forall x :: x in old(On(visited[..])) ==>
              DistanceOf(scc[..], distance[..], x) == old(DistanceOf(scc[..], distance[..], x))
    ensures forall x :: x in component ==> DistanceOf(scc[..], distance[..], x) == jumps
  {
    ghost var earlier, scc0, distance0 := On(visited[..]), scc[..], distance[..];
    NumberLeft(g, earlier, u);
    ghost var scope := ComponentIsScope(g, transposed, topo, k, earlier);
    ghost var entries;
    component, entries := VisitScope(transposed, u, sccIdx, scc, distance, visited, scope);
    jumps := distance[sccIdx];
    VisitedOne(g, transposed, u, earlier, component, entries, scc0, scc[..], distance0, distance[..], sccIdx);
  }

  /** What the loop of MaxJumps knows before it looks at node number n of the listing. */
  ghost predicate SweptTo(g: Graph, topo: seq<nat>, n: nat, visited: set<nat>, scc: seq<int>, distance: seq<int>,
                          sccIdx: nat, max: int, best: nat)
  {
    && n <= |topo| && Swept(g, visited, scc, distance, sccIdx) && MaxSoFar(visited, scc, distance, max, best)
    && forall i :: 0 <= i < n ==> topo[i] in visited
  }

  lemma SweptOne(g: Graph, topo: seq<nat>, n: nat, earlier: set<nat>, component: set<nat>, visited: set<nat>,
                 scc: seq<int>, scc': seq<int>, distance: seq<int>, distance': seq<int>, sccIdx: nat, jumps: int,
                 max: int, best: nat)
    requires n < |topo| && SweptTo(g, topo, n, earlier, scc, distance, sccIdx, max, best)
    requires visited == earlier + component && topo[n] in component && Swept(g, visited, scc', distance', sccIdx + 1)
    requires forall x :: x in earlier ==> DistanceOf(scc', distance', x) == DistanceOf(scc, distance, x)
    requires forall x :: x in component ==> DistanceOf(scc', distance', x) == jumps
    ensures SweptTo(g, topo, n + 1, visited, scc', distance', sccIdx + 1, if max < jumps then jumps else max,
                    if max < jumps then topo[n] else best)
  {
    hide Swept;
    MaxAfter(earlier, component, visited, topo[n], scc, scc', distance, distance', jumps, max, best);
  }

  lemma SweptAll(g: Graph, topo: seq<nat>, visited: set<nat>, scc: seq<int>, distance: seq<int>, sccIdx: nat, max: int,
                 best: nat)
    requires |g| > 0 && (forall u: nat :: u in topo <==> Node(g, u)) &&
             SweptTo(g, topo, |topo|, visited, scc, distance, sccIdx, max, best)
    ensures LongestChain(g, max)
  {
    AllVisited(g, topo, visited);
    Conclude(g, scc, distance, sccIdx, max, best);
  }

  /** The loop of MaxJumps over the first pass's listing, on fresh arrays. */
  method Sweep(transposed: Graph, topo: seq<nat>, scc: array<int>, distance: array<int>, visited: array<bool>,
               ghost g: Graph)
    returns (max: int)
    requires WellFormed(transposed) && Transposes(g, transposed)
    requires scc.Length == distance.Length == visited.Length == |transposed| && scc != distance
    requires NoDuplicates(topo) && (forall u: nat :: u in topo <==> Node(g, u)) && ComponentsOrdered(g, topo)
    requires Swept(g, On(visited[..]), scc[..], distance[..], 1) && On(visited[..]) == {}
    modifies scc, distance, visited
    ensures LongestChain(g, max)
  {
    var sccIdx := 1;
    max := 0;
    ghost var best := 0;
    assert SweptTo(g, topo, 0, On(visited[..]), scc[..], distance[..], sccIdx, max, best);
    for it := 0 to |topo|
      invariant SweptTo(g, topo, it, On(visited[..]), scc[..], distance[..], sccIdx, max, best)
    {
      assert Node(g, topo[it]);
      if !visited[topo[it]] {
        ghost var earlier, scc0, distance0 := On(visited[..]), scc[..], distance[..];
        var jumps;
        ghost var component;
        jumps, component := DFSMaxJumpsVisit(transposed, topo[it], sccIdx, scc, distance, visited, g, topo, it);
        hide *;
        SweptOne(g, topo, it, earlier, component, On(visited[..]), scc0, scc[..], distance0, distance[..], sccIdx,
                 jumps, max, best);
        best := if max < jumps then topo[it] else best;
        max := if max < jumps then jumps else max;
        sccIdx := sccIdx + 1;
      }
    }
    SweptAll(g, topo, On(visited[..]), scc[..], distance[..], sccIdx, max, best);
  }

  /** The number of edges of the longest path of the condensation. */
  method MaxJumps(transposed: Graph, topo: seq<nat>, ghost g: Graph) returns (max: int)
    requires WellFormed(g) && WellFormed(transposed) && Transposes(g, transposed)
    requires NoDuplicates(topo) && (forall u: nat :: u in topo <==> Node(g, u)) && ComponentsOrdered(g, topo)
    ensures LongestChain(g, max)
  {
    var scc := new int[|transposed|](_ => 0);
    var distance := new int[|transposed|](_ => 0);
    var visited := new bool[|transposed|](_ => false);
    distance[0] := -1;
    assert On(visited[..]) == {};
    SweptInitially(g, scc[..], distance[..]);
    max := Sweep(transposed, topo, scc, distance, visited, g);
  }

  predicate InRange(size: nat, edges: seq<(nat, nat)>) {
    forall i :: 0 <= i < |edges| ==> 1 <= edges[i].0 <= size && 1 <= edges[i].1 <= size
  }

  /** The graph of a list of edges, as it is read. */
  function GraphOf(size: nat, edges: seq<(nat, nat)>): (g: Graph)
    requires InRange(size, edges)
    ensures |g| == size + 1
  {
    if edges == [] then seq(size + 1, _ => [])
    else
      var g, e := GraphOf(size, edges[..|edges| - 1]), edges[|edges| - 1];
      g[e.0 := g[e.0] + [e.1]]
  }

  lemma AddEdge(g: Graph, u: nat, v: nat)
    requires WellFormed(g) && Node(g, u) && Node(g, v)
    ensures WellFormed(g[u := g[u] + [v]])
    ensures forall a: nat, b: nat :: HasEdge(g[u := g[u] + [v]], a, b) <==> HasEdge(g, a, b) || (a == u && b == v)
  {
    forall a: nat, b: nat
      ensures HasEdge(g[u := g[u] + [v]], a, b) <==> HasEdge(g, a, b) || (a == u && b == v)
    {
      assert b in g[u] + [v] <==> b in g[u] || b == v;
    }
  }

  /** Its edges are exactly those of the list. */
  lemma {:induction false} EdgesOfGraph(size: nat, edges: seq<(nat, nat)>)
    requires InRange(size, edges)
    ensures WellFormed(GraphOf(size, edges))
    ensures forall u: nat, v: nat :: HasEdge(GraphOf(size, edges), u, v) <==> (u, v) in edges
  {
    if edges != [] {
      var n := |edges| - 1;
      EdgesOfGraph(size, edges[..n]);
      AddEdge(GraphOf(size, edges[..n]), edges[n].0, edges[n].1);
      assert edges == edges[..n] + [edges[n]];
      forall u: nat, v: nat
        ensures HasEdge(GraphOf(size, edges), u, v) <==> (u, v) in edges
      {
        assert (u, v) in edges <==> (u, v) in edges[..n] || (u, v) == edges[n];
      }
    }
  }

  lemma AddToBoth(g: Graph, t: Graph, u: nat, v: nat)
    requires WellFormed(g) && WellFormed(t) && Transposes(g, t) && Node(g, u) && Node(g, v)
    ensures WellFormed(g[u := g[u] + [v]]) && WellFormed(t[v := t[v] + [u]])
    ensures Transposes(g[u := g[u] + [v]], t[v := t[v] + [u]])
  {
    AddEdge(g, u, v);
    AddEdge(t, v, u);
    hide HasEdge, WellFormed;
    var g', t' := g[u := g[u] + [v]], t[v := t[v] + [u]];
    forall a: nat, b: nat
      ensures HasEdge(g', a, b) <==> HasEdge(t', b, a)
    {
      assert HasEdge(g, a, b) <==> HasEdge(t, b, a);
    }
  }

  /** The program: reads the edges into the graph and its transpose, sorts, and sweeps. */
  method LongestJumps(size: nat, edges: seq<(nat, nat)>) returns (max: int)
    requires InRange(size, edges)
    ensures LongestChain(GraphOf(size, edges), max)
  {
    var graph: Graph := seq(size + 1, _ => []);
    var transposed: Graph := seq(size + 1, _ => []);
    for i := 0 to |edges|
      invariant graph == GraphOf(size, edges[..i]) && WellFormed(graph)
      invariant WellFormed(transposed) && Transposes(graph, transposed)
    {
      var (u, v) := edges[i];
      assert edges[..i + 1][..i] == edges[..i];
      AddToBoth(graph, transposed, u, v);
      graph := graph[u := graph[u] + [v]];
      transposed := transposed[v := transposed[v] + [u]];
    }
    assert edges[..|edges|] == edges;
    var topo := DFSTopo(graph);
    max := MaxJumps(transposed, topo, graph);
  }
}
