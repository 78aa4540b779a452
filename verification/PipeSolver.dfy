/** The depth-first tree search of the pipe puzzle over its goal test, actions and results. */
module PipeSolver {
  import opened Wrappers
  import opened PipePiece
  import opened PipeBoard
  import opened PipeCount
  import opened PipeSearch
  import opened PipeGrid
  import opened PipeMania

  // ---------- the states that wait, as values ----------

  ghost predicate Within(g0: Grid, g: Grid)
    requires Rectangle(g0)
  {
    forall s :: Solves(g, s) ==> IsSolution(g0, s)
  }

  /** Every solution of g0 is one of some board in the list. */
  ghost predicate Complete(g0: Grid, grids: seq<Grid>)
    requires Rectangle(g0)
  {
    forall s :: IsSolution(g0, s) ==> SomeSolves(grids, s)
  }

  /** What is known of the boards on the frontier. A pair of F is never branched on. */
  ghost predicate Frontier(g0: Grid, grids: seq<Grid>)
    requires Rectangle(g0)
  {
    && (forall i :: 0 <= i < |grids| ==> Rectangle(grids[i]) && SameTypes(g0, grids[i]) && Within(g0, grids[i]))
    && (if PairOfF(g0) then grids == [g0] || (grids == [] && !IsSolution(g0, Shown(g0))) else Complete(g0, grids))
  }

  function Power(n: nat): nat {
    if n == 0 then 1 else 5 * Power(n - 1)
  }

  lemma {:induction false} PowerGrows(m: nat, n: nat)
    requires m <= n
    ensures 1 <= Power(m) <= Power(n)
  {
    if m < n {
      PowerGrows(m, n - 1);
    } else if n > 0 {
      PowerGrows(m - 1, n - 1);
    }
  }

  /** Bounds the states still to be tested, given how many cells wait in each one on the frontier. */
  function Effort(sizes: seq<nat>): nat {
    if sizes == [] then 0 else Effort(sizes[..|sizes| - 1]) + Power(sizes[|sizes| - 1])
  }

  lemma {:induction false} EffortAppend(a: seq<nat>, b: seq<nat>)
    ensures Effort(a + b) == Effort(a) + Effort(b)
  {
    if b == [] {
      assert a + b == a;
    } else {
      var n := |b| - 1;
      EffortAppend(a, b[..n]);
      assert (a + b)[..|a + b| - 1] == a + b[..n];
    }
  }

  lemma {:induction false} EffortBound(sizes: seq<nat>, n: nat)
    requires forall i :: 0 <= i < |sizes| ==> sizes[i] <= n
    ensures Effort(sizes) <= |sizes| * Power(n)
  {
    if sizes != [] {
      EffortBound(sizes[..|sizes| - 1], n);
      PowerGrows(sizes[|sizes| - 1], n);
      hide Power;
      assert |sizes| * Power(n) == (|sizes| - 1) * Power(n) + Power(n);
    }
  }

  /** At most four children with fewer cells waiting cost less than their parent. */
  lemma ChildrenCheaper(sizes: seq<nat>, n: nat)
    requires |sizes| <= 4 && forall i :: 0 <= i < |sizes| ==> sizes[i] < n
    ensures Effort(sizes) < Power(n)
  {
    if n == 0 {
      assert sizes == [];
    } else {
      EffortBound(sizes, n - 1);
      PowerGrows(0, n - 1);
      assert |sizes| * Power(n - 1) <= 4 * Power(n - 1);
    }
  }

  // ---------- one step of the search on the boards ----------

  lemma TypesChain(g0: Grid, g: Grid, g': Grid)
    requires Rectangle(g0) && Rectangle(g) && Rectangle(g') && SameTypes(g0, g) && SameTypes(g, g')
    ensures SameTypes(g0, g')
  {
    assert forall c :: On(g, c) <==> On(g0, c);
  }

  /** A board without solutions may be dropped. */
  lemma Dropped(g0: Grid, grids: seq<Grid>)
    requires Rectangle(g0) && grids != [] && Frontier(g0, grids) && Hopeless(grids[|grids| - 1])
    requires !IsSolution(grids[|grids| - 1], Shown(grids[|grids| - 1]))
    ensures Frontier(g0, grids[..|grids| - 1])
  {
    var n := |grids| - 1;
    SamePair(g0, grids[n]);
    if !PairOfF(g0) {
      forall s | IsSolution(g0, s)
        ensures SomeSolves(grids[..n], s)
      {
        var i :| 0 <= i < |grids| && Solves(grids[i], s);
        assert i != n && grids[..n][i] == grids[i];
      }
    }
  }

  lemma BranchWithin(g0: Grid, top: Grid, g: Grid, c: Coord, child: Grid)
    requires Rectangle(g0) && Rectangle(top) && Rectangle(g) && On(g, c)
    requires SameTypes(g0, top) && Within(g0, top) && Forced(top, g) && !PairOfF(g0)
    requires Consistent(g) && Settled(g, c) && SomeBranch(g, c, child)
    ensures Rectangle(child) && SameTypes(g0, child) && Within(g0, child)
  {
    var x :| IsBranch(g, c, x, child);
    LockedTypes(g, c, x);
    TypesChain(g0, top, g);
    TypesChain(g0, g, Locking(g, c, x));
    TypesChain(g0, Locking(g, c, x), child);
    SamePair(g0, g);
    forall s | Solves(child, s)
      ensures IsSolution(g0, s)
    {
      BranchesShare(g, c, s);
      assert Offered(g, c, x) && IsSolution(Locking(g, c, x), s);
      assert Solves(top, s);
    }
  }

  lemma ForcedSolves(g: Grid, g': Grid, s: Openings)
    requires Rectangle(g) && Rectangle(g') && Forced(g, g')
    ensures Solves(g, s) <==> IsSolution(g', s)
  {
  }

  lemma StillSomewhere(g0: Grid, grids: seq<Grid>, g: Grid, c: Coord, children: seq<Grid>, s: Openings)
    requires Rectangle(g0) && grids != [] && Complete(g0, grids) && IsSolution(g0, s)
    requires Rectangle(grids[|grids| - 1]) && Rectangle(g) && Forced(grids[|grids| - 1], g) && On(g, c) && !PairOfF(g)
    requires Consistent(g) && Settled(g, c) && AreBranches(g, c, children)
    ensures SomeSolves(grids[..|grids| - 1] + children, s)
  {
    hide IsSolution, Forced, Consistent, Settled, PairOfF, AreBranches, Solves;
    assert SomeSolves(grids, s);
    var n := |grids| - 1;
    var all := grids[..n] + children;
    var i :| 0 <= i < |grids| && Solves(grids[i], s);
    if i < n {
      assert all[i] == grids[i];
    } else {
      ForcedSolves(grids[n], g, s);
      NoBranchLost(g, c, children, s);
      var k :| 0 <= k < |children| && Solves(children[k], s);
      assert all[n + k] == children[k];
    }
  }

  /** The board on top becomes g, which only has forced cells locked, and then its branches. */
  lemma Branched(g0: Grid, grids: seq<Grid>, g: Grid, c: Coord, children: seq<Grid>)
    requires Rectangle(g0) && grids != [] && Frontier(g0, grids)
    requires Rectangle(g) && Forced(grids[|grids| - 1], g) && On(g, c)
    requires Consistent(g) && Settled(g, c) && !IsSolution(grids[|grids| - 1], Shown(grids[|grids| - 1]))
    requires AreBranches(g, c, children)
    ensures Frontier(g0, grids[..|grids| - 1] + children)
  {
    var n := |grids| - 1;
    var top, rest := grids[n], grids[..n];
    if PairOfF(g0) {
      assert top == g0 && g == g0 && rest == [];
      forall x
        ensures !Offered(g, c, x)
      {
        PairRefused(g, c, x);
      }
      assert |children| > 0 ==> SomeBranch(g, c, children[0]);
      assert rest + children == [];
    } else {
      TypesChain(g0, top, g);
      SamePair(g0, g);
      forall k | 0 <= k < |children|
        ensures Rectangle(children[k]) && SameTypes(g0, children[k]) && Within(g0, children[k])
      {
        BranchWithin(g0, top, g, c, children[k]);
      }
      forall s | IsSolution(g0, s)
        ensures SomeSolves(rest + children, s)
      {
        StillSomewhere(g0, grids, g, c, children, s);
      }
    }
  }

  // ---------- the states on the frontier ----------

  /** The state is valid; it has this board, and this number of cells wait in it. */
  ghost predicate Holds(state: PipeManiaState, grid: Grid, size: nat)
    reads state, state.board.board
  {
    state.Valid() && state.Grid() == grid && |Waiting(state.neighbourLocked)| == size
  }

  /** The states hold what is listed, lie in `owned`, and no two share a mutable part. */
  ghost predicate Stock(states: seq<PipeManiaState>, grids: seq<Grid>, sizes: seq<nat>, owned: set<object>)
    reads set i | 0 <= i < |states| :: states[i], set i | 0 <= i < |states| :: states[i].board.board
  {
    && |grids| == |sizes| == |states|
    && (forall i :: 0 <= i < |states| ==> Holds(states[i], grids[i], sizes[i]))
    && (forall i :: 0 <= i < |states| ==> states[i] in owned && states[i].board.board in owned)
    && forall i, j :: 0 <= i < j < |states| ==> states[i] != states[j] && states[i].board.board != states[j].board.board
  }

  // ---------- the search ----------

  function Inserted<T>(s: seq<T>, k: nat, x: T): (r: seq<T>)
    requires k <= |s|
    ensures |r| == |s| + 1 && forall i :: 0 <= i < |r| ==>
              r[i] == if i < k then s[i] else if i == k then x else s[i - 1]
  {
    s[..k] + [x] + s[k..]
  }

  lemma InsertedLast<T>(s: seq<T>, x: T)
    ensures Inserted(s, |s|, x) == s + [x]
  {
  }

  ghost predicate SharesNothing(states: seq<PipeManiaState>, other: PipeManiaState) {
    forall i :: 0 <= i < |states| ==> states[i] != other && states[i].board.board != other.board.board
  }

  lemma NewSharesNothing(states: seq<PipeManiaState>, grids: seq<Grid>, sizes: seq<nat>, owned: set<object>,
                         other: PipeManiaState)
    requires Stock(states, grids, sizes, owned) && other !in owned && other.board.board !in owned
    ensures SharesNothing(states, other)
  {
  }

  /** A state that shares nothing with the others may be put anywhere among them. */
  lemma PutAt(states: seq<PipeManiaState>, grids: seq<Grid>, sizes: seq<nat>, owned: set<object>, k: nat,
              other: PipeManiaState, grid: Grid, size: nat)
    requires Stock(states, grids, sizes, owned) && k <= |states| == |grids| == |sizes| && Holds(other, grid, size)
    requires SharesNothing(states, other) && other in owned && other.board.board in owned
    ensures Stock(Inserted(states, k, other), Inserted(grids, k, grid), Inserted(sizes, k, size), owned)
  {
    hide Holds;
  }

  lemma MoreOwned(states: seq<PipeManiaState>, grids: seq<Grid>, sizes: seq<nat>, owned: set<object>, more: set<object>)
    requires Stock(states, grids, sizes, owned) && owned <= more
    ensures Stock(states, grids, sizes, more)
  {
    hide Holds;
  }

  lemma FewerWaiting(a: set<Coord>, b: set<Coord>)
    requires a < b
    ensures |a| < |b|
  {
    assert b == a + (b - a) && b - a != {};
  }

  /** Cells wait in the state, n of them; its current cell is c of the board g. */
  ghost predicate Branching(node: PipeManiaState, g: Grid, c: Coord, n: nat)
    reads node, node.board.board
  {
    Holds(node, g, n) && node.currCoord == c && !node.ReachedEnd()
  }

  method Child(node: PipeManiaState, action: Piece, ghost g: Grid, ghost c: Coord, ghost n: nat)
    returns (child: PipeManiaState, ghost grid: Grid, ghost size: nat)
    requires Branching(node, g, c, n) && Rectangle(g) && On(g, c) && Offered(g, c, action)
    ensures fresh({child, child.board.board}) && Holds(child, grid, size)
    ensures IsBranch(g, c, action, grid) && size < n
  {
    hide Forced, Offered, Consistent, Covered, NoneCornered, Settled, Waiting;
    child := node.Result(action);
    FewerWaiting(Waiting(child.neighbourLocked), Waiting(node.neighbourLocked));
    grid, size := child.Grid(), |Waiting(child.neighbourLocked)|;
  }

  method ActionsAt(node: PipeManiaState, ghost g: Grid, ghost c: Coord, ghost n: nat) returns (actions: seq<Piece>)
    requires Branching(node, g, c, n) && Rectangle(g) && On(g, c)
    ensures |actions| <= 4 && forall x :: x in actions <==> Offered(g, c, x)
  {
    actions := node.Actions();
  }

  lemma NoStock()
    ensures Stock([], [], [], {})
  {
  }

  method AddChild(node: PipeManiaState, action: Piece, children: seq<PipeManiaState>, ghost g: Grid, ghost c: Coord,
                  ghost n: nat, ghost grids: seq<Grid>, ghost sizes: seq<nat>, ghost owned: set<object>)
    returns (more: seq<PipeManiaState>, ghost grid: Grid, ghost size: nat, ghost owned': set<object>)
    requires Branching(node, g, c, n) && Rectangle(g) && On(g, c) && Offered(g, c, action)
    requires Stock(children, grids, sizes, owned) && |children| == |grids| == |sizes|
    ensures Stock(more, grids + [grid], sizes + [size], owned') && fresh(owned' - owned) && |more| == |children| + 1
    ensures IsBranch(g, c, action, grid) && size < n
  {
    hide *;
    var child;
    child, grid, size := Child(node, action, g, c, n);
    owned' := owned + {child, child.board.board};
    NewSharesNothing(children, grids, sizes, owned, child);
    MoreOwned(children, grids, sizes, owned, owned');
    PutAt(children, grids, sizes, owned', |children|, child, grid, size);
    InsertedLast(children, child);
    InsertedLast(grids, grid);
    InsertedLast(sizes, size);
    more := children + [child];
  }

  lemma Branches(g: Grid, c: Coord, actions: seq<Piece>, children: seq<Grid>)
    requires Rectangle(g) && On(g, c) && |children| == |actions|
    requires forall x :: x in actions <==> Offered(g, c, x)
    requires forall i :: 0 <= i < |actions| ==> IsBranch(g, c, actions[i], children[i])
    ensures AreBranches(g, c, children)
  {
    hide IsBranch, Offered;
    forall x | Offered(g, c, x)
      ensures HasBranch(g, c, x, children)
    {
      var i :| 0 <= i < |actions| && actions[i] == x;
      assert IsBranch(g, c, actions[i], children[i]);
    }
    forall i | 0 <= i < |children|
      ensures SomeBranch(g, c, children[i])
    {
      assert IsBranch(g, c, actions[i], children[i]);
    }
  }

  /** The children of a state, one for each of its actions. */
  method Expand(node: PipeManiaState, ghost g: Grid, ghost c: Coord, ghost n: nat)
    returns (children: seq<PipeManiaState>, ghost grids: seq<Grid>, ghost sizes: seq<nat>, ghost owned: set<object>)
    requires Branching(node, g, c, n) && Rectangle(g) && On(g, c)
    ensures Stock(children, grids, sizes, owned) && fresh(owned) && |children| == |grids| == |sizes| <= 4
    ensures forall k :: 0 <= k < |sizes| ==> sizes[k] < n
    ensures AreBranches(g, c, grids)
  {
    hide *;
    var actions := ActionsAt(node, g, c, n);
    children, grids, sizes, owned := [], [], [], {};
    NoStock();
    for k := 0 to |actions|
      invariant Stock(children, grids, sizes, owned) && |children| == |grids| == |sizes| == k && fresh(owned)
      invariant forall i :: 0 <= i < k ==> sizes[i] < n && IsBranch(g, c, actions[i], grids[i])
    {
      assert actions[k] in actions;
      ghost var grid, size;
      children, grid, size, owned := AddChild(node, actions[k], children, g, c, n, grids, sizes, owned);
      grids, sizes := grids + [grid], sizes + [size];
    }
    Branches(g, c, actions, grids);
  }

  ghost predicate InOrder(states: seq<PipeManiaState>)
    reads set i | 0 <= i < |states| :: states[i]
  {
    forall i, j :: 0 <= i < j < |states| ==> states[i].locked <= states[j].locked
  }

  ghost predicate Permutes<T>(a: seq<T>, b: seq<T>) { multiset(a) == multiset(b) }

  lemma PermutesMore<T>(a: seq<T>, s: seq<T>, n: nat, k: nat)
    requires n < |s| && k <= |a| && Permutes(a, s[..n])
    ensures Permutes(Inserted(a, k, s[n]), s[..n + 1])
  {
    assert a == a[..k] + a[k..];
    assert s[..n + 1] == s[..n] + [s[n]];
  }

  lemma PermutesNone<T>(s: seq<T>)
    ensures Permutes([], s[..0])
  {
  }

  lemma PermutesAll<T>(a: seq<T>, s: seq<T>)
    requires Permutes(a, s[..|s|])
    ensures multiset(a) == multiset(s)
  {
    assert s[..|s|] == s;
  }

  lemma InsertedLength<T>(s: seq<T>, k: nat, x: T)
    requires k <= |s|
    ensures |Inserted(s, k, x)| == |s| + 1
  {
  }

  lemma NextSharesNothing(children: seq<PipeManiaState>, grids: seq<Grid>, sizes: seq<nat>, owned: set<object>,
                          n: nat, sorted: seq<PipeManiaState>)
    requires Stock(children, grids, sizes, owned) && n < |children| == |grids| == |sizes| &&
             Permutes(sorted, children[..n])
    ensures SharesNothing(sorted, children[n])
    ensures children[n] in owned && children[n].board.board in owned && Holds(children[n], grids[n], sizes[n])
  {
    hide Holds;
    forall i | 0 <= i < |sorted|
      ensures sorted[i] != children[n] && sorted[i].board.board != children[n].board.board
    {
      assert sorted[i] in multiset(sorted) && sorted[i] in children[..n];
    }
  }

  method InsertByLocked(sorted: seq<PipeManiaState>, ghost grids: seq<Grid>, ghost sizes: seq<nat>,
                        ghost owned: set<object>, child: PipeManiaState, ghost grid: Grid, ghost size: nat)
    returns (more: seq<PipeManiaState>, ghost k: nat)
    requires Stock(sorted, grids, sizes, owned) && |sorted| == |grids| == |sizes| && InOrder(sorted)
    requires SharesNothing(sorted, child) && child in owned && child.board.board in owned && Holds(child, grid, size)
    ensures k <= |sorted| && more == Inserted(sorted, k, child) && |more| == |sorted| + 1 && InOrder(more)
    ensures Stock(more, Inserted(grids, k, grid), Inserted(sizes, k, size), owned)
  {
    hide Stock, Holds;
    var i := |sorted|;
    while i > 0 && sorted[i - 1].locked > child.locked
      invariant 0 <= i <= |sorted|
      invariant forall j :: i <= j < |sorted| ==> sorted[j].locked > child.locked
    {
      i := i - 1;
    }
    PutAt(sorted, grids, sizes, owned, i, child, grid, size);
    more, k := Inserted(sorted, i, child), i;
  }

  /** Sorts the children by the number of locks. */
  method SortByLocked(children: seq<PipeManiaState>, ghost grids: seq<Grid>, ghost sizes: seq<nat>,
                      ghost owned: set<object>)
    returns (sorted: seq<PipeManiaState>, ghost grids': seq<Grid>, ghost sizes': seq<nat>)
    requires Stock(children, grids, sizes, owned) && |children| == |grids| == |sizes|
    ensures Stock(sorted, grids', sizes', owned) && |sorted| == |grids'| == |sizes'| == |children|
    ensures InOrder(sorted) && multiset(sorted) == multiset(children)
    ensures multiset(grids') == multiset(grids) && multiset(sizes') == multiset(sizes)
  {
    sorted, grids', sizes' := [], [], [];
    assert InOrder(sorted);
    hide *;
    NoStock();
    MoreOwned([], [], [], {}, owned);
    PermutesNone(children);
    PermutesNone(grids);
    PermutesNone(sizes);
    for n := 0 to |children|
      invariant Stock(sorted, grids', sizes', owned) && |sorted| == |grids'| == |sizes'| == n && InOrder(sorted)
      invariant Permutes(sorted, children[..n]) && Permutes(grids', grids[..n]) && Permutes(sizes', sizes[..n])
    {
      NextSharesNothing(children, grids, sizes, owned, n, sorted);
      ghost var k;
      ghost var sorted0 := sorted;
      sorted, k := InsertByLocked(sorted, grids', sizes', owned, children[n], grids[n], sizes[n]);
      PermutesMore(sorted0, children, n, k);
      PermutesMore(grids', grids, n, k);
      PermutesMore(sizes', sizes, n, k);
      InsertedLength(grids', k, grids[n]);
      InsertedLength(sizes', k, sizes[n]);
      grids', sizes' := Inserted(grids', k, grids[n]), Inserted(sizes', k, sizes[n]);
    }
    PermutesAll(sorted, children);
    PermutesAll(grids', grids);
    PermutesAll(sizes', sizes);
  }

  /** The order of the children does not matter. */
  lemma SameBranches(g: Grid, c: Coord, a: seq<Grid>, b: seq<Grid>)
    requires Rectangle(g) && On(g, c) && AreBranches(g, c, a) && multiset(b) == multiset(a)
    ensures AreBranches(g, c, b)
  {
    hide IsBranch, Offered;
    assert forall child :: child in a <==> child in b by {
      assert forall child :: (child in a <==> child in multiset(a)) && (child in b <==> child in multiset(b));
    }
    forall x | Offered(g, c, x)
      ensures HasBranch(g, c, x, b)
    {
      assert HasBranch(g, c, x, a);
      var k :| 0 <= k < |a| && IsBranch(g, c, x, a[k]);
      assert a[k] in b;
    }
    forall k | 0 <= k < |b|
      ensures SomeBranch(g, c, b[k])
    {
      assert b[k] in a;
    }
  }

  /** What the goal test tells about a state that held the board `top`: the board is g afterwards. */
  ghost predicate Outcome(node: PipeManiaState, top: Grid, size: nat, r: bool, g: Grid, n: nat)
    requires Rectangle(top) && Rectangle(g)
    reads node, node.board.board
  {
    if r then
      && node.board.Valid() && node.Grid() == g && IsSolution(top, Shown(g))
      && (PairOfF(top) ==> IsSolution(top, Shown(top)))
    else
      && Holds(node, g, n) && Forced(top, g) && n <= size && !IsSolution(top, Shown(top))
      && if n == 0 then Hopeless(top) else Branching(node, g, node.currCoord, n)
  }

  lemma NoMoreWaiting(a: set<Coord>, b: set<Coord>)
    requires a <= b
    ensures |a| <= |b| && (|a| == 0 <==> a == {})
  {
    assert b == a + (b - a);
  }

  method TestNode(node: PipeManiaState, ghost top: Grid, ghost size: nat) returns (r: bool, ghost g: Grid, ghost n: nat)
    requires Holds(node, top, size) && Rectangle(top)
    modifies node, node.board.board
    ensures Rectangle(g) && Outcome(node, top, size, r, g, n)
  {
    hide Forced, IsSolution, Hopeless, Consistent, Covered, NoneCornered, Settled, Waiting;
    ghost var waiting := Waiting(node.neighbourLocked);
    r := node.GoalTest();
    g, n := node.Grid(), 0;
    if !r {
      n := |Waiting(node.neighbourLocked)|;
      NoMoreWaiting(Waiting(node.neighbourLocked), waiting);
    }
  }

  lemma TopHolds(frontier: seq<PipeManiaState>, grids: seq<Grid>, sizes: seq<nat>, owned: set<object>)
    requires Stock(frontier, grids, sizes, owned) && 0 < |frontier| == |grids| == |sizes|
    ensures Holds(frontier[|frontier| - 1], grids[|grids| - 1], sizes[|sizes| - 1])
    ensures frontier[|frontier| - 1] in owned && frontier[|frontier| - 1].board.board in owned
    ensures Stock(frontier[..|frontier| - 1], grids[..|grids| - 1], sizes[..|sizes| - 1], owned)
    ensures SharesNothing(frontier[..|frontier| - 1], frontier[|frontier| - 1])
  {
    hide Holds;
  }

  /** The state on top of the stack is tested; the others stay as they are. */
  method TestTop(rest: seq<PipeManiaState>, node: PipeManiaState, ghost top: Grid, ghost size: nat,
                 ghost grids: seq<Grid>, ghost sizes: seq<nat>, ghost owned: set<object>)
    returns (r: bool, ghost g: Grid, ghost n: nat)
    requires Stock(rest, grids, sizes, owned) && SharesNothing(rest, node) && Holds(node, top, size) && Rectangle(top)
    modifies node, node.board.board
    ensures Rectangle(g) && Outcome(node, top, size, r, g, n)
    ensures Stock(rest, grids, sizes, owned)
  {
    hide Holds, Outcome;
    r, g, n := TestNode(node, top, size);
  }

  lemma Joined(a: seq<PipeManiaState>, grids: seq<Grid>, sizes: seq<nat>, owned: set<object>,
               b: seq<PipeManiaState>, grids': seq<Grid>, sizes': seq<nat>, owned': set<object>)
    requires Stock(a, grids, sizes, owned) && Stock(b, grids', sizes', owned') && owned !! owned'
    ensures Stock(a + b, grids + grids', sizes + sizes', owned + owned')
  {
    hide Holds;
    assert forall i, j :: 0 <= i < |a| && 0 <= j < |b| ==> a[i] in owned && b[j] in owned';
  }

  /** A state that is branched on costs more than its children. */
  lemma Cheaper(sizes: seq<nat>, n: nat, children: seq<nat>)
    requires sizes != [] && n <= sizes[|sizes| - 1] && |children| <= 4
    requires forall k :: 0 <= k < |children| ==> children[k] < n
    ensures Effort(sizes[..|sizes| - 1] + children) < Effort(sizes)
  {
    EffortAppend(sizes[..|sizes| - 1], children);
    ChildrenCheaper(children, n);
    PowerGrows(n, sizes[|sizes| - 1]);
  }

  lemma AllSmaller(sizes: seq<nat>, sizes': seq<nat>, n: nat)
    requires multiset(sizes') == multiset(sizes) && forall k :: 0 <= k < |sizes| ==> sizes[k] < n
    ensures forall k :: 0 <= k < |sizes'| ==> sizes'[k] < n
  {
    forall k | 0 <= k < |sizes'|
      ensures sizes'[k] < n
    {
      assert sizes'[k] in multiset(sizes') && sizes'[k] in sizes;
    }
  }

  /** The children of a state in the order in which they are pushed. */
  method SortedChildren(node: PipeManiaState, ghost g: Grid, ghost n: nat)
    returns (children: seq<PipeManiaState>, ghost grids: seq<Grid>, ghost sizes: seq<nat>, ghost owned: set<object>)
    requires Branching(node, g, node.currCoord, n) && Rectangle(g)
    ensures Stock(children, grids, sizes, owned) && fresh(owned) && |children| == |grids| == |sizes| <= 4
    ensures On(g, node.currCoord) && Consistent(g) && Settled(g, node.currCoord) &&
            AreBranches(g, node.currCoord, grids)
    ensures forall k :: 0 <= k < |sizes| ==> sizes[k] < n
  {
    assert On(g, node.currCoord) && Consistent(g) && Settled(g, node.currCoord);
    hide *;
    children, grids, sizes, owned := Expand(node, g, node.currCoord, n);
    ghost var grids0, sizes0 := grids, sizes;
    children, grids, sizes := SortByLocked(children, grids, sizes, owned);
    SameBranches(g, node.currCoord, grids0, grids);
    AllSmaller(sizes0, sizes, n);
  }

  lemma OneHeld(state: PipeManiaState, g: Grid, n: nat)
    requires Holds(state, g, n)
    ensures Stock([state], [g], [n], {state, state.board.board})
  {
    hide Holds;
  }

  lemma StartFrontier(g0: Grid)
    requires Rectangle(g0)
    ensures Frontier(g0, [g0])
  {
    hide IsSolution;
    forall s | IsSolution(g0, s)
      ensures SomeSolves([g0], s)
    {
      assert Solves([g0][0], s);
    }
  }

  lemma TopBoard(g0: Grid, grids: seq<Grid>)
    requires Rectangle(g0) && grids != [] && Frontier(g0, grids)
    ensures Rectangle(grids[|grids| - 1])
  {
  }

  lemma Succeeds(g0: Grid, grids: seq<Grid>, node: PipeManiaState, size: nat, g: Grid, n: nat)
    requires Rectangle(g0) && Rectangle(g) && grids != [] && Rectangle(grids[|grids| - 1]) && Frontier(g0, grids)
    requires Outcome(node, grids[|grids| - 1], size, true, g, n)
    ensures node.board.Valid() && node.Grid() == g && IsSolution(g0, Shown(g))
    ensures PairOfF(g0) ==> IsSolution(g0, Shown(g0))
  {
    hide IsSolution;
    assert Solves(grids[|grids| - 1], Shown(g));
  }

  lemma NothingFound(g0: Grid)
    requires Rectangle(g0) && Frontier(g0, [])
    ensures Hopeless(g0) && !IsSolution(g0, Shown(g0))
  {
    hide IsSolution;
    assert forall s :: !SomeSolves([], s);
  }

  lemma EndsAtZero(node: PipeManiaState, g: Grid, n: nat)
    requires Holds(node, g, n)
    ensures |node.neighbourLocked| == 4 && (node.ReachedEnd() <==> n == 0)
  {
    NoMoreWaiting(Waiting(node.neighbourLocked), Waiting(node.neighbourLocked));
  }

  /** The children of a state that failed the goal test; a state in which no cell waits has none. */
  method NextChildren(node: PipeManiaState, ghost g0: Grid, ghost grids: seq<Grid>, ghost size: nat, ghost g: Grid,
                      ghost n: nat)
    returns (children: seq<PipeManiaState>, ghost grids': seq<Grid>, ghost sizes': seq<nat>, ghost owned': set<object>)
    requires Rectangle(g0) && Rectangle(g) && grids != [] && Frontier(g0, grids) && Rectangle(grids[|grids| - 1])
    requires Outcome(node, grids[|grids| - 1], size, false, g, n)
    ensures Stock(children, grids', sizes', owned') && fresh(owned') && |children| == |grids'| == |sizes'| <= 4
    ensures n <= size && forall k :: 0 <= k < |sizes'| ==> sizes'[k] < n
    ensures Frontier(g0, grids[..|grids| - 1] + grids')
  {
    EndsAtZero(node, g, n);
    hide Frontier, Stock, Forced, IsSolution, Hopeless, AreBranches, Consistent, Settled, StateOk, Holds;
    if node.ReachedEnd() {
      NoStock();
      children, grids', sizes', owned' := [], [], [], {};
      Dropped(g0, grids);
      assert grids[..|grids| - 1] + grids' == grids[..|grids| - 1];
    } else {
      children, grids', sizes', owned' := SortedChildren(node, g, n);
      Branched(g0, grids, g, node.currCoord, grids');
    }
  }

  /** The depth-first search returns a state that shows a solution of the first one, or there is none to find. */
  method HeuristicDepthFirstTreeSearch(initial: PipeManiaState, ghost g0: Grid, ghost n0: nat)
    returns (found: Option<PipeManiaState>)
    requires Holds(initial, g0, n0) && Rectangle(g0)
    modifies initial, initial.board.board
    ensures found.Some? ==> found.value.board.Valid() && IsSolution(g0, Shown(found.value.Grid()))
    ensures found.Some? && PairOfF(g0) ==> IsSolution(g0, Shown(g0))
    ensures found.None? ==> Hopeless(g0) && !IsSolution(g0, Shown(g0))
  {
    hide *;
    var frontier := [initial];
    ghost var grids, owned := [g0], {initial, initial.board.board};
    ghost var sizes: seq<nat> := [n0];
    StartFrontier(g0);
    OneHeld(initial, g0, n0);
    while frontier != []
      invariant Stock(frontier, grids, sizes, owned) && |frontier| == |grids| == |sizes| && Frontier(g0, grids)
      invariant forall o :: o in owned ==> o == initial || o == initial.board.board || fresh(o)
      decreases Effort(sizes)
    {
      ghost var last := |frontier| - 1;
      var node := frontier[|frontier| - 1];
      TopHolds(frontier, grids, sizes, owned);
      TopBoard(g0, grids);
      frontier := frontier[..|frontier| - 1];
      var r;
      ghost var g, n;
      r, g, n := TestTop(frontier, node, grids[last], sizes[last], grids[..last], sizes[..last], owned);
      if r {
        Succeeds(g0, grids, node, sizes[last], g, n);
        return Some(node);
      }
      var children;
      ghost var grids', sizes', owned';
      children, grids', sizes', owned' := NextChildren(node, g0, grids, sizes[last], g, n);
      Cheaper(sizes, n, sizes');
      Joined(frontier, grids[..last], sizes[..last], owned, children, grids', sizes', owned');
      frontier, owned := frontier + children, owned + owned';
      grids, sizes := grids[..last] + grids', sizes[..last] + sizes';
    }
    NothingFound(g0);
    found := None;
  }

  lemma HopelessAlike(g: Grid, g0: Grid)
    requires Rectangle(g) && Rectangle(g0) && Forced(g, g0)
    ensures Hopeless(g0) <==> Hopeless(g)
    ensures PairOfF(g) ==> g0 == g
  {
    SamePair(g, g0);
  }

  /** The program without its input and output. It finds a solution exactly if there is one, except that on a board
      of two facing pieces with one opening each it only finds the one that the board shows from the start. */
  method Solve(board: Board) returns (found: Option<PipeManiaState>)
    requires board.Valid() && Fresh(board.Grid())
    modifies board.board
    ensures found.Some? ==> found.value.board.Valid() && IsSolution(old(board.Grid()), Shown(found.value.Grid()))
    ensures found.Some? <==>
      if PairOfF(old(board.Grid())) then IsSolution(old(board.Grid()), Shown(old(board.Grid())))
      else exists s :: IsSolution(old(board.Grid()), s)
  {
    ghost var g := board.Grid();
    var state := PipeManiaState.ParseInstance(board);
    state.Preprocess();
    ghost var g0, n0 := state.Grid(), |Waiting(state.neighbourLocked)|;
    hide Forced, IsSolution, StateOk;
    found := HeuristicDepthFirstTreeSearch(state, g0, n0);
    HopelessAlike(g, g0);
    if found.Some? {
      ForcedSolves(g, g0, Shown(found.value.Grid()));
    }
  }
}
