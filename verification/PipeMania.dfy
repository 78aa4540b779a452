/** The search state of the pipe puzzle: locking, propagation, the goal test and the children of a state. */
module PipeMania {
  import opened PipePiece
  import opened PipeBoard
  import opened PipeCount
  import opened PipeSearch
  import opened PipeGrid
  import opened PipeSpread

  // ---------- cells grouped by how many of their neighbours are locked ----------

  type Buckets = seq<set<Coord>>

  ghost predicate Apart(b: Buckets) {
    |b| == 4 && forall i, j :: 0 <= i < j < 4 ==> b[i] !! b[j]
  }

  ghost function Waiting(b: Buckets): set<Coord>
    requires |b| == 4
  {
    b[0] + b[1] + b[2] + b[3]
  }

  lemma TakenOut(b: Buckets, i: nat, c: Coord)
    requires Apart(b) && i < 4 && c in b[i]
    ensures Apart(b[i := b[i] - {c}]) && Waiting(b[i := b[i] - {c}]) == Waiting(b) - {c} && c in Waiting(b)
    ensures forall k: nat :: k < 4 && c in b[k] ==> k == i
  {
    assert forall k: nat :: k < 4 && k != i ==> c !in b[k];
  }

  ghost predicate SameBucket(b: Buckets, b': Buckets, c: Coord)
    requires |b| == 4 && |b'| == 4
  {
    && (c in b'[0] <==> c in b[0]) && (c in b'[1] <==> c in b[1])
    && (c in b'[2] <==> c in b[2]) && (c in b'[3] <==> c in b[3])
  }

  /** The cell moved one group up, unless it was in the last one. */
  ghost predicate NextBucket(b: Buckets, b': Buckets, c: Coord)
    requires |b| == 4 && |b'| == 4
  {
    && c !in b'[0] && (c in b'[1] <==> c in b[0]) && (c in b'[2] <==> c in b[1])
    && (c in b'[3] <==> c in b[2] || c in b[3])
  }

  ghost predicate IsSide(g: Grid, c: Coord, first: nat, x: Coord)
    requires Rectangle(g)
  {
    exists d: nat :: first <= d < 4 && x == c.Toward(d) && Unlocked(g, x)
  }

  /** Of the neighbours of c on sides `first` to 3, the unlocked ones moved one group up; nothing else moved. */
  ghost predicate Promoted(g: Grid, c: Coord, first: nat, b: Buckets, b': Buckets)
    requires Rectangle(g) && |b| == 4 && |b'| == 4
  {
    forall x :: if IsSide(g, c, first, x) then NextBucket(b, b', x) else SameBucket(b, b', x)
  }

  /** How the groups change when c is locked: each of its unlocked neighbours moves one group up. */
  ghost predicate GroupsAfter(g: Grid, c: Coord, b: Buckets, b': Buckets)
    requires Rectangle(g) && |b| == 4 && |b'| == 4
  {
    forall x :: x != c ==> if IsSide(g, c, 0, x) then NextBucket(b, b', x) else SameBucket(b, b', x)
  }

  lemma PromotedAfter(g: Grid, c: Coord, b: Buckets, removed: Buckets, b': Buckets)
    requires Rectangle(g) && |b| == 4 && |removed| == 4 && |b'| == 4
    requires Promoted(g, c, 0, removed, b') && forall x :: x != c ==> SameBucket(b, removed, x)
    ensures GroupsAfter(g, c, b, b')
  {
    forall x | x != c
      ensures if IsSide(g, c, 0, x) then NextBucket(b, b', x) else SameBucket(b, b', x)
    {
      assert SameBucket(b, removed, x);
    }
  }

  lemma PromoteOne(g: Grid, c: Coord, d: nat, b: Buckets, mid: Buckets, b': Buckets)
    requires Rectangle(g) && d < 4 && |b| == 4 && |mid| == 4 && |b'| == 4 && Promoted(g, c, d + 1, b, mid)
    requires Unlocked(g, c.Toward(d)) ==> NextBucket(mid, b', c.Toward(d))
    requires forall x :: x != c.Toward(d) || !Unlocked(g, x) ==> SameBucket(mid, b', x)
    ensures Promoted(g, c, d, b, b')
  {
    forall x
      ensures if IsSide(g, c, d, x) then NextBucket(b, b', x) else SameBucket(b, b', x)
    {
      assert if IsSide(g, c, d + 1, x) then NextBucket(b, mid, x) else SameBucket(b, mid, x);
      assert x != c.Toward(d) || !Unlocked(g, x) ==> SameBucket(mid, b', x);
      if x == c.Toward(d) {
        assert !IsSide(g, c, d + 1, x);
        assert IsSide(g, c, d, x) <==> Unlocked(g, x);
      } else {
        assert IsSide(g, c, d, x) <==> IsSide(g, c, d + 1, x);
      }
    }
  }

  // ---------- what every state keeps ----------

  /** The counter is the full recount, and only unlocked cells wait in the groups. */
  ghost predicate Tallied(g: Grid, left: int, b: Buckets)
    requires Rectangle(g)
  {
    && Unmarked(g) && left == TotalLeft(g)
    && Apart(b) && (forall c :: c in Waiting(b) ==> Unlocked(g, c))
  }

  /** Every unlocked cell waits or is the current one, as long as there is something to find. */
  ghost predicate Covered(g: Grid, b: Buckets, curr: Coord)
    requires Rectangle(g) && |b| == 4
  {
    Hopeless(g) || forall c :: Unlocked(g, c) && c != curr ==> c in Waiting(b)
  }

  ghost predicate NoneCornered(g: Grid)
    requires Rectangle(g)
  {
    Hopeless(g) || CorneredIn(g, [])
  }

  ghost predicate QueueOk(g: Grid, queue: seq<Coord>)
    requires Rectangle(g)
  {
    (forall c :: c in queue ==> On(g, c)) && (Hopeless(g) || CorneredIn(g, queue))
  }

  function Beside(c: Coord, height: int, width: int): (cells: seq<Coord>)
    ensures forall d: nat ::
              d < 4 && 0 <= c.Toward(d).row < height && 0 <= c.Toward(d).col < width && 0 <= c.row < height &&
              0 <= c.col < width ==>
                c.Toward(d) in cells
    ensures forall e :: e in cells && 0 <= c.row < height && 0 <= c.col < width ==>
              0 <= e.row < height && 0 <= e.col < width
  {
    (if c.row > 0 then [c.Toward(1)] else []) + (if c.row < height - 1 then [c.Toward(3)] else [])
    + (if c.col > 0 then [c.Toward(2)] else []) + (if c.col < width - 1 then [c.Toward(0)] else [])
  }

  ghost function UnlockedCells(g: Grid): set<Coord>
    requires Rectangle(g)
  {
    set c | c in Cells(g) && !IsLocked(At(g, c))
  }

  lemma LockTallied(g: Grid, c: Coord, x: Piece, left: int, left': int, b: Buckets, b': Buckets)
    requires Rectangle(g) && On(g, c) && Tallied(g, left, b) && Apart(b') && Waiting(b') == Waiting(b) - {c}
    requires left' == left + Left(Locking(g, c, x), Around(g, c)) - Left(g, Around(g, c))
    ensures Tallied(Locking(g, c, x), left', b')
  {
    RecountAround(g, c, Lock(Point(At(g, c), x)));
    LockedPiece(At(g, c), x, 0);
    LockedTypes(g, c, x);
  }

  lemma FewerUnlocked(g: Grid, c: Coord, x: Piece)
    requires Rectangle(g) && Unlocked(g, c)
    ensures UnlockedCells(Locking(g, c, x)) < UnlockedCells(g)
  {
    LockedTypes(g, c, x);
    assert c in UnlockedCells(g) && c !in UnlockedCells(Locking(g, c, x));
  }

  /** A forced lock keeps the current state covered. */
  lemma LockCovered(g: Grid, c: Coord, x: Piece, b: Buckets, b': Buckets, curr: Coord)
    requires Rectangle(g) && On(g, c) && |b| == 4 && |b'| == 4 && Waiting(b') == Waiting(b) - {c} && Covered(g, b, curr)
    requires Forced(g, Locking(g, c, x))
    ensures Covered(Locking(g, c, x), b', curr)
  {
    LockedTypes(g, c, x);
    if Hopeless(g) {
      StillHopeless(g, Locking(g, c, x));
    }
  }

  // ---------- one step of the worklist ----------

  lemma SkipLocked(g: Grid, queue: seq<Coord>)
    requires Rectangle(g) && QueueOk(g, queue) && queue != [] && !Cornered(g, queue[0])
    ensures QueueOk(g, queue[1..])
  {
    assert queue == [queue[0]] + queue[1..];
  }

  lemma QueueForced(g: Grid, queue: seq<Coord>, x: Piece)
    requires Rectangle(g) && QueueOk(g, queue) && queue != [] && Forced(g, Locking(g, queue[0], x))
    ensures QueueOk(Locking(g, queue[0], x), queue[1..] + Beside(queue[0], |g|, |g[0]|))
  {
    var c, rest := queue[0], queue[1..] + Beside(queue[0], |g|, |g[0]|);
    var g' := Locking(g, c, x);
    assert queue == [c] + queue[1..];
    if Hopeless(g) {
      StillHopeless(g, g');
    } else {
      forall e | Cornered(g', e)
        ensures e in rest
      {
        NewlyCornered(g, c, x, e);
      }
    }
  }

  lemma MaskNibble(w: Sides, d: nat)
    requires d < 4
    ensures w & NibbleMask(d) != 0 <==> Nibble(w, d) != 0
  {
  }

  /** The neighbour toward d is on the board and unlocked. */
  lemma OpenSide(g: Grid, c: Coord, d: nat, ori: Sides, locked: Sides, empty: Sides)
    requires Rectangle(g) && d < 4 && Describes(g, c, ori, locked, empty)
    ensures empty & NibbleMask(d) != 0 || locked & NibbleMask(d) != 0 <==> !Unlocked(g, c.Toward(d))
  {
    MaskNibble(locked, d);
    MaskNibble(empty, d);
  }

  /** What holds between any two steps of the search. */
  ghost predicate StateOk(g: Grid, left: int, b: Buckets, curr: Coord) {
    && Rectangle(g) && On(g, curr) && Tallied(g, left, b) && Consistent(g)
    && Covered(g, b, curr) && NoneCornered(g)
    && (Waiting(b) == {} || Settled(g, curr))
  }

  // ---------- between the steps of the search ----------

  /** Locking the current cell leaves only its neighbours to look at. */
  lemma NeighboursQueued(g: Grid, c: Coord, x: Piece)
    requires Rectangle(g) && On(g, c) && NoneCornered(g) && (Hopeless(g) ==> Hopeless(Locking(g, c, x)))
    ensures QueueOk(Locking(g, c, x), Beside(c, |g|, |g[0]|))
  {
    var g' := Locking(g, c, x);
    forall e | Cornered(g', e) && !Hopeless(g')
      ensures e in Beside(c, |g|, |g[0]|)
    {
      NewlyCornered(g, c, x, e);
    }
  }

  /** Any direction on offer may be tried: the board stays consistent, and hopeless if it was. */
  lemma TriedLock(g: Grid, c: Coord, x: Piece)
    requires Rectangle(g) && On(g, c) && Consistent(g) && Offered(g, c, x) && Settled(g, c)
    ensures Consistent(Locking(g, c, x)) && (Hopeless(g) ==> Hopeless(Locking(g, c, x)))
  {
    LockedTypes(g, c, x);
    if IsLocked(At(g, c)) {
      LockedSame(g, c, x);
    }
    LockConsistent(g, c, x);
    SamePair(g, Locking(g, c, x));
    forall s
      ensures IsSolution(Locking(g, c, x), s) ==> IsSolution(g, s)
    {
      LockedSolutions(g, c, x, s);
    }
  }

  lemma StateFacts(g: Grid, left: int, b: Buckets, curr: Coord)
    requires StateOk(g, left, b, curr)
    ensures Rectangle(g) && On(g, curr) && Tallied(g, left, b) && Consistent(g) && Apart(b)
    ensures Waiting(b) != {} ==> Settled(g, curr)
    ensures curr in Waiting(b) || Covered(g, b, curr)
  {
  }

  lemma StillLocked(g: Grid, g': Grid, c: Coord)
    requires Rectangle(g) && Rectangle(g') && Forced(g, g') && On(g, c) && IsLocked(At(g, c))
    ensures On(g', c) && IsLocked(At(g', c))
  {
  }

  /** Nothing needs to wait once there is nothing to find. */
  lemma Emptied(g: Grid, left: int, b: Buckets, b': Buckets, curr: Coord)
    requires Rectangle(g) && Tallied(g, left, b) && Hopeless(g) && b' == [{}, {}, {}, {}]
    ensures Tallied(g, left, b') && Covered(g, b', curr) && Waiting(b') == {}
    ensures Consistent(g) && On(g, curr) ==> StateOk(g, left, b', curr)
  {
  }

  /** Locking the current cell in a direction on offer keeps what propagation needs. */
  lemma TriedState(g: Grid, left: int, b: Buckets, curr: Coord, x: Piece, b': Buckets)
    requires StateOk(g, left, b, curr) && Waiting(b) != {} && Offered(g, curr, x)
    requires |b'| == 4 && Waiting(b') == Waiting(b) - {curr}
    ensures Consistent(Locking(g, curr, x)) && Covered(Locking(g, curr, x), b', curr)
    ensures QueueOk(Locking(g, curr, x), Beside(curr, |g|, |g[0]|))
    ensures IsLocked(At(Locking(g, curr, x), curr))
  {
    TriedLock(g, curr, x);
    LockedTypes(g, curr, x);
    NeighboursQueued(g, curr, x);
  }

  /** The state after the current cell was locked and the next one taken. */
  lemma NextStateOk(g: Grid, left: int, b: Buckets, b': Buckets, curr: Coord, curr': Coord)
    requires Rectangle(g) && On(g, curr) && IsLocked(At(g, curr)) && Tallied(g, left, b) && Consistent(g) && Apart(b')
    requires Covered(g, b, curr) && NoneCornered(g)
    requires Waiting(b) == {} ==> curr' == curr && b' == b
    requires Waiting(b) != {} ==> curr' in Waiting(b) && Waiting(b') == Waiting(b) - {curr'}
    ensures StateOk(g, left, b', curr')
  {
  }

  lemma NothingUnlocked(g: Grid, b: Buckets, curr: Coord)
    requires Rectangle(g) && On(g, curr) && |b| == 4 && Waiting(b) == {} && Covered(g, b, curr) && NoneCornered(g)
    requires !Hopeless(g)
    ensures forall c :: On(g, c) ==> IsLocked(At(g, c))
  {
    assert forall c :: Unlocked(g, c) ==> c == curr;
    forall d: nat | d < 4 && On(g, curr.Toward(d))
      ensures IsLocked(At(g, curr.Toward(d)))
    {
      TowardBack(curr, d);
      assert !Unlocked(g, curr.Toward(d));
    }
    assert Unlocked(g, curr) ==> Cornered(g, curr);
    forall c | On(g, c)
      ensures !Unlocked(g, c)
    {
      assert Unlocked(g, c) ==> c == curr;
    }
  }

  /** A state with no cell waiting has at most what it shows as a solution. */
  lemma EndOfSearch(g: Grid, left: int, b: Buckets, curr: Coord)
    requires StateOk(g, left, b, curr) && Waiting(b) == {}
    requires !(left == 0 && SingleComponent(g, Shown(g)))
    ensures Hopeless(g)
  {
    if !Hopeless(g) {
      NothingUnlocked(g, b, curr);
      var s :| IsSolution(g, s);
      AllLocked(g, s);
      NothingLeft(g);
    }
  }

  /** The counter decides whether the board as shown solves itself. */
  lemma LeftIs(g: Grid, left: int, b: Buckets, curr: Coord)
    requires StateOk(g, left, b, curr)
    ensures IsSolution(g, Shown(g)) <==> left == 0 && SingleComponent(g, Shown(g))
  {
    NothingLeft(g);
    if left == 0 && SingleComponent(g, Shown(g)) {
      ShownIsAllowed(g);
    }
  }

  lemma PairUnchanged(g: Grid, g': Grid)
    requires Rectangle(g) && Rectangle(g') && Forced(g, g')
    ensures PairOfF(g) ==> g' == g
  {
  }

  lemma SameShown(g: Grid, g': Grid)
    requires Rectangle(g) && Rectangle(g') && Forced(g, g') && IsSolution(g', Shown(g'))
    ensures IsSolution(g, Shown(g'))
  {
  }

  lemma HopelessBefore(g: Grid, g': Grid)
    requires Rectangle(g) && Rectangle(g') && Forced(g, g') && Hopeless(g')
    ensures Hopeless(g)
  {
    SamePair(g, g');
  }

  lemma FifthDirection(res: seq<Piece>)
    requires |res| > 4 && forall i, j :: 0 <= i < j < |res| ==> res[i] < res[j]
    ensures res[4] >= 4
  {
    assert res[0] < res[1] < res[2] < res[3] < res[4];
  }

  ghost predicate Solves(g: Grid, s: Openings) { Rectangle(g) && IsSolution(g, s) }

  /** The child points c in direction x and only locks forced cells further. */
  ghost predicate IsBranch(g: Grid, c: Coord, x: Piece, child: Grid)
    requires Rectangle(g) && On(g, c)
  {
    Offered(g, c, x) && Rectangle(child) && Forced(Locking(g, c, x), child)
  }

  ghost predicate SomeBranch(g: Grid, c: Coord, child: Grid)
    requires Rectangle(g) && On(g, c)
  {
    exists x :: IsBranch(g, c, x, child)
  }

  ghost predicate HasBranch(g: Grid, c: Coord, x: Piece, children: seq<Grid>)
    requires Rectangle(g) && On(g, c)
  {
    exists k :: 0 <= k < |children| && IsBranch(g, c, x, children[k])
  }

  /** The children are the branches of g over the directions of c, in any order. */
  ghost predicate AreBranches(g: Grid, c: Coord, children: seq<Grid>)
    requires Rectangle(g) && On(g, c)
  {
    && (forall k :: 0 <= k < |children| ==> SomeBranch(g, c, children[k]))
    && (forall x :: Offered(g, c, x) ==> HasBranch(g, c, x, children))
  }

  ghost predicate SomeSolves(grids: seq<Grid>, s: Openings) {
    exists k :: 0 <= k < |grids| && Solves(grids[k], s)
  }

  lemma BranchSolves(g: Grid, c: Coord, x: Piece, child: Grid, s: Openings)
    requires Rectangle(g) && On(g, c) && IsBranch(g, c, x, child)
    ensures Solves(child, s) <==> IsSolution(Locking(g, c, x), s)
  {
  }

  /** If each child only locks forced cells further, no solution is lost and none is gained by branching. */
  lemma NoBranchLost(g: Grid, c: Coord, children: seq<Grid>, s: Openings)
    requires Rectangle(g) && On(g, c) && !PairOfF(g) && Consistent(g) && Settled(g, c) && AreBranches(g, c, children)
    ensures IsSolution(g, s) <==> SomeSolves(children, s)
  {
    BranchesShare(g, c, s);
    hide IsSolution, Consistent, Settled, PairOfF, Solves;
    if x :| Offered(g, c, x) && IsSolution(Locking(g, c, x), s) {
      assert HasBranch(g, c, x, children);
      var k :| 0 <= k < |children| && IsBranch(g, c, x, children[k]);
      BranchSolves(g, c, x, children[k], s);
    }
    forall k | 0 <= k < |children| && Solves(children[k], s)
      ensures IsSolution(g, s)
    {
      assert SomeBranch(g, c, children[k]);
      var x :| IsBranch(g, c, x, children[k]);
      BranchSolves(g, c, x, children[k], s);
    }
  }

  // ---------- the parsed board ----------

  ghost predicate Fresh(g: Grid)
    requires Rectangle(g)
  {
    forall c :: On(g, c) ==> !IsMarked(At(g, c)) && !IsLocked(At(g, c))
  }

  /** The cells before (i, j), row by row. */
  ghost function CellsBefore(g: Grid, i: int, j: int): (cells: set<Coord>)
    requires Rectangle(g)
    ensures forall c :: c in cells <==> On(g, c) && (c.row < i || (c.row == i && c.col < j))
  {
    set c | c in Cells(g) && (c.row < i || (c.row == i && c.col < j))
  }

  lemma NextCell(g: Grid, i: int, j: int)
    requires Rectangle(g) && On(g, Coord(i, j))
    ensures CellsBefore(g, i, j + 1) == CellsBefore(g, i, j) + {Coord(i, j)} && Coord(i, j) !in CellsBefore(g, i, j)
    ensures Left(g, CellsBefore(g, i, j + 1)) == Left(g, CellsBefore(g, i, j)) + LeftAt(g, Coord(i, j))
  {
    var c := Coord(i, j);
    assert CellsBefore(g, i, j + 1) == CellsBefore(g, i, j) + {c};
    Remove(g, CellsBefore(g, i, j + 1), c);
    assert CellsBefore(g, i, j + 1) - {c} == CellsBefore(g, i, j);
  }

  lemma NoCells(g: Grid)
    requires Rectangle(g)
    ensures CellsBefore(g, 0, 0) == {} && Left(g, {}) == 0
  {
  }

  lemma NothingCornered(g: Grid)
    requires Rectangle(g) && Fresh(g)
    ensures NoneCornered(g)
  {
    if |g| * |g[0]| <= 1 {
      forall s
        ensures !IsSolution(g, s)
      {
        if IsSolution(g, s) {
          SmallBoards(g, s);
        }
      }
    } else {
      forall c | On(g, c)
        ensures !Cornered(g, c)
      {
        assert |g| > 1 || |g[0]| > 1;
        var d: nat := if c.col + 1 < |g[0]| then 0 else if c.row > 0 then 1 else if c.col > 0 then 2 else 3;
        assert On(g, c.Toward(d));
      }
    }
  }

  lemma ParsedOk(g: Grid, left: int, b: Buckets)
    requires Rectangle(g) && Fresh(g) && Apart(b)
    requires left == Left(g, CellsBefore(g, |g|, 0)) && Waiting(b) == CellsBefore(g, |g|, 0)
    ensures StateOk(g, left, b, Coord(0, 0))
  {
    assert CellsBefore(g, |g|, 0) == Cells(g);
    NothingCornered(g);
  }

  /** The group a cell starts in: 2 for a corner, 1 for another border cell, 0 inside. */
  function StartGroup(c: Coord, height: int, width: int): nat {
    (if c.row == 0 || c.row == height - 1 then 1 else 0) + (if c.col == 0 || c.col == width - 1 then 1 else 0)
  }

  lemma StartGroupRange(c: Coord, height: int, width: int)
    ensures StartGroup(c, height, width) < 4
  {
  }

  ghost predicate Grouped(b: Buckets, cells: set<Coord>, height: int, width: int) {
    |b| == 4 && forall c :: c in cells ==> c in b[StartGroup(c, height, width)]
  }

  lemma GroupedMore(b: Buckets, cells: set<Coord>, c: Coord, height: int, width: int)
    requires Grouped(b, cells, height, width)
    ensures var k := StartGroup(c, height, width);
            k < 4 && Grouped(b[k := b[k] + {c}], cells + {c}, height, width)
  {
  }

  class PipeManiaState {
    const board: Board
    var left: int
    var locked: int
    var currCoord: Coord
    var neighbourLocked: Buckets

    ghost function Grid(): (g: Grid)
      requires board.Valid()
      reads board.board
      ensures Rectangle(g) && |g| == board.board.Length0 && |g[0]| == board.board.Length1
    {
      board.Grid()
    }

    ghost predicate Valid()
      reads this, board.board
    {
      board.Valid() && StateOk(Grid(), left, neighbourLocked, currCoord)
    }

    constructor (board: Board, connectionsLeft: int, pLocked: int)
      ensures this.board == board && left == connectionsLeft && locked == pLocked
      ensures currCoord == Coord(0, 0) && neighbourLocked == [{}, {}, {}, {}]
    {
      this.board, left, locked := board, connectionsLeft, pLocked;
      currCoord, neighbourLocked := Coord(0, 0), [{}, {}, {}, {}];
    }

    // ---------- the groups ----------

    method NoSolution()
      modifies this`neighbourLocked
      ensures neighbourLocked == [{}, {}, {}, {}]
    {
      neighbourLocked := [{}, {}, {}, {}];
    }

    function ReachedEnd(): (r: bool)
      requires |neighbourLocked| == 4
      reads this
      ensures r <==> Waiting(neighbourLocked) == {}
    {
      |neighbourLocked[0]| == 0 && |neighbourLocked[1]| == 0 && |neighbourLocked[2]| == 0 && |neighbourLocked[3]| == 0
    }

    /** Takes the next cell from the last group that has one. */
    method GoToNextCoord()
      requires Apart(neighbourLocked)
      modifies this`currCoord, this`neighbourLocked
      ensures Apart(neighbourLocked)
      ensures old(ReachedEnd()) ==> currCoord == old(currCoord) && neighbourLocked == old(neighbourLocked)
      ensures !old(ReachedEnd()) ==> currCoord in old(Waiting(neighbourLocked))
      ensures !old(ReachedEnd()) ==> Waiting(neighbourLocked) == old(Waiting(neighbourLocked)) - {currCoord}
      ensures forall i, j :: 0 <= i < j < 4 && !old(ReachedEnd()) && currCoord in old(neighbourLocked)[i]
                ==> old(neighbourLocked)[j] == {}
    {
      for i := 4 downto 0
        invariant neighbourLocked == old(neighbourLocked) && currCoord == old(currCoord)
        invariant forall j :: i <= j < 4 ==> neighbourLocked[j] == {}
      {
        if |neighbourLocked[i]| != 0 {
          var c :| c in neighbourLocked[i];
          TakenOut(neighbourLocked, i, c);
          hide Apart, Waiting;
          currCoord := c;
          neighbourLocked := neighbourLocked[i := neighbourLocked[i] - {c}];
          return;
        }
      }
    }

    method RemoveFromGroups(c: Coord)
      requires Apart(neighbourLocked)
      modifies this`neighbourLocked
      ensures Apart(neighbourLocked) && Waiting(neighbourLocked) == old(Waiting(neighbourLocked)) - {c}
      ensures forall x :: x != c ==> SameBucket(old(neighbourLocked), neighbourLocked, x)
    {
      for i := 0 to 4
        invariant neighbourLocked == old(neighbourLocked)
        invariant forall j :: 0 <= j < i ==> c !in neighbourLocked[j]
      {
        if c in neighbourLocked[i] {
          neighbourLocked := neighbourLocked[i := neighbourLocked[i] - {c}];
          return;
        }
      }
    }

    method GoToNextGroup(c: Coord)
      requires Apart(neighbourLocked)
      modifies this`neighbourLocked
      ensures Apart(neighbourLocked) && Waiting(neighbourLocked) == old(Waiting(neighbourLocked))
      ensures NextBucket(old(neighbourLocked), neighbourLocked, c)
      ensures forall x :: x != c ==> SameBucket(old(neighbourLocked), neighbourLocked, x)
    {
      for j := 0 to 3
        invariant neighbourLocked == old(neighbourLocked)
        invariant forall i :: 0 <= i < j ==> c !in neighbourLocked[i]
      {
        if c in neighbourLocked[j] {
          neighbourLocked := neighbourLocked[j := neighbourLocked[j] - {c}][j + 1 := neighbourLocked[j + 1] + {c}];
          return;
        }
      }
    }

    /** Each unlocked neighbour of a cell that was locked moves one group up. */
    method PromoteNeighbours(c: Coord, ghost ori: Sides, lockedSides: Sides, empty: Sides)
      requires board.Valid() && Apart(neighbourLocked) && Describes(Grid(), c, ori, lockedSides, empty)
      modifies this`neighbourLocked
      ensures Apart(neighbourLocked) && Waiting(neighbourLocked) == old(Waiting(neighbourLocked))
      ensures Promoted(Grid(), c, 0, old(neighbourLocked), neighbourLocked)
    {
      for d := 4 downto 0
        invariant Apart(neighbourLocked) && Waiting(neighbourLocked) == old(Waiting(neighbourLocked))
        invariant Promoted(Grid(), c, d, old(neighbourLocked), neighbourLocked)
      {
        ghost var mid := neighbourLocked;
        OpenSide(Grid(), c, d, ori, lockedSides, empty);
        if !(empty & NibbleMask(d) != 0 || lockedSides & NibbleMask(d) != 0) {
          GoToNextGroup(c.Toward(d));
        }
        PromoteOne(Grid(), c, d, old(neighbourLocked), mid, neighbourLocked);
      }
    }

    // ---------- locking and propagating ----------

    method UpdateGroups(row: int, col: int)
      requires board.Valid() && On(Grid(), Coord(row, col)) && Apart(neighbourLocked)
      modifies this`neighbourLocked
      ensures Apart(neighbourLocked) && Waiting(neighbourLocked) == old(Waiting(neighbourLocked)) - {Coord(row, col)}
      ensures GroupsAfter(Grid(), Coord(row, col), old(neighbourLocked), neighbourLocked)
    {
      RemoveFromGroups(Coord(row, col));
      ghost var removed := neighbourLocked;
      var ori, lockedSides, empty := board.GetNeighbourInfo(row, col);
      PromoteNeighbours(Coord(row, col), ori, lockedSides, empty);
      PromotedAfter(Grid(), Coord(row, col), old(neighbourLocked), removed, neighbourLocked);
    }

    /** Points a cell and locks it; the counter is corrected around the cell only. */
    method PointAndLock(row: int, col: int, direction: Piece)
      requires board.Valid() && On(Grid(), Coord(row, col)) && Tallied(Grid(), left, neighbourLocked)
      modifies this`left, this`locked, this`neighbourLocked, board.board
      ensures Grid() == Locking(old(Grid()), Coord(row, col), direction)
      ensures Tallied(Grid(), left, neighbourLocked) && Apart(neighbourLocked) && locked == old(locked) + 1
      ensures Waiting(neighbourLocked) == old(Waiting(neighbourLocked)) - {Coord(row, col)}
      ensures GroupsAfter(Grid(), Coord(row, col), old(neighbourLocked), neighbourLocked)
    {
      ghost var g, c := Grid(), Coord(row, col);
      var before := board.ConnectionsLeftInNeighbourhood(row, col);
      var piece := board.GetValue(row, col);
      board.SetValue(row, col, Lock(Point(piece, direction)));
      var after := board.ConnectionsLeftInNeighbourhood(row, col);
      left := left + (after - before);
      RecountAround(g, c, Lock(Point(piece, direction)));
      locked := locked + 1;
      UpdateGroups(row, col);
      LockTallied(g, c, direction, old(left), left, old(neighbourLocked), neighbourLocked);
    }

    /** The directions a cell may still point in. */
    method InferAt(row: int, col: int) returns (res: seq<Piece>)
      requires board.Valid() && On(Grid(), Coord(row, col))
      ensures forall x :: x in res <==> Offered(Grid(), Coord(row, col), x)
      ensures forall i, j :: 0 <= i < j < |res| ==> res[i] < res[j]
      ensures |res| <= 1 <==> OneOffer(Grid(), Coord(row, col))
    {
      var piece := board.GetValue(row, col);
      var ori, lockedSides, empty := board.GetNeighbourInfo(row, col);
      res := Infer(piece, ori, lockedSides, empty);
      forall x
        ensures x in res <==> Offered(Grid(), Coord(row, col), x)
      {
        FitsByBoard(Grid(), Coord(row, col), x, ori, lockedSides, empty);
      }
      assert |res| == 1 ==> forall x :: x in res ==> x == res[0];
      assert |res| > 1 ==>
               res[0] < res[1] && Offered(Grid(), Coord(row, col), res[0]) && Offered(Grid(), Coord(row, col), res[1]);
    }

    /** What propagation keeps. */
    ghost predicate Sound()
      reads this, board.board
    {
      && board.Valid() && Tallied(Grid(), left, neighbourLocked) && Consistent(Grid())
      && Covered(Grid(), neighbourLocked, currCoord)
    }

    /** Locks a cell that can point one way only. */
    method LockForced(c: Coord, direction: Piece)
      requires Sound() && On(Grid(), c) && Offered(Grid(), c, direction) && OneOffer(Grid(), c)
      modifies this`left, this`locked, this`neighbourLocked, board.board
      ensures Sound() && Grid() == Locking(old(Grid()), c, direction) && Forced(old(Grid()), Grid())
      ensures Waiting(neighbourLocked) == old(Waiting(neighbourLocked)) - {c}
    {
      ghost var g, b := Grid(), neighbourLocked;
      ForcedLock(g, c, direction);
      PointAndLock(c.row, c.col, direction);
      LockCovered(g, c, direction, b, neighbourLocked, currCoord);
    }

    method ProcessNext(queue: seq<Coord>, ghost g0: Grid) returns (contradiction: bool, rest: seq<Coord>)
      requires Sound() && QueueOk(Grid(), queue) && queue != []
      requires Rectangle(g0) && Forced(g0, Grid())
      modifies this`left, this`locked, this`neighbourLocked, board.board
      ensures Sound() && Forced(g0, Grid())
      ensures contradiction ==> Hopeless(Grid())
      ensures !contradiction ==> QueueOk(Grid(), rest)
      ensures Waiting(neighbourLocked) <= old(Waiting(neighbourLocked))
      ensures !contradiction ==>
                UnlockedCells(Grid()) < old(UnlockedCells(Grid())) || (Grid() == old(Grid()) && |rest| < |queue|)
    {
      var curr := queue[0];
      contradiction, rest := false, queue[1..];
      var piece := board.GetValue(curr.row, curr.col);
      if IsLocked(piece) {
        SkipLocked(Grid(), queue);
        return;
      }
      var alignments := InferAt(curr.row, curr.col);
      if |alignments| == 1 {
        assert alignments[0] in alignments;
        ghost var g := Grid();
        LockForced(curr, alignments[0]);
        ForcedTrans(g0, g, Grid());
        QueueForced(g, queue, alignments[0]);
        FewerUnlocked(g, curr, alignments[0]);
        rest := rest + Beside(curr, board.board.Length0, board.board.Length1);
      } else if |alignments| == 0 {
        NoOffer(Grid(), curr);
        contradiction := true;
      } else {
        if Cornered(Grid(), curr) {
          CorneredOneOffer(Grid(), curr);
        }
        SkipLocked(Grid(), queue);
      }
    }

    /** The worklist: infers the cells of the queue, locks a forced one and queues its neighbours;
        stops at the first cell with no direction left. */
    method LockProcessing(start: seq<Coord>) returns (contradiction: bool)
      requires Sound() && QueueOk(Grid(), start)
      modifies this`left, this`locked, this`neighbourLocked, board.board
      ensures Sound() && Forced(old(Grid()), Grid())
      ensures contradiction ==> Hopeless(Grid())
      ensures NoneCornered(Grid())
      ensures Waiting(neighbourLocked) <= old(Waiting(neighbourLocked))
    {
      var queue := start;
      ForcedRefl(Grid());
      while queue != []
        invariant Sound() && Forced(old(Grid()), Grid()) && QueueOk(Grid(), queue)
        invariant Waiting(neighbourLocked) <= old(Waiting(neighbourLocked))
        decreases UnlockedCells(Grid()), |queue|
      {
        contradiction, queue := ProcessNext(queue, old(Grid()));
        if contradiction {
          return;
        }
      }
      contradiction := false;
    }

    method BfsLockProcessing(row: int, col: int) returns (contradiction: bool)
      requires Valid() && On(Grid(), Coord(row, col))
      modifies this`left, this`locked, this`neighbourLocked, board.board
      ensures Valid() && Forced(old(Grid()), Grid())
      ensures contradiction ==> Hopeless(Grid())
    {
      assert forall c :: Cornered(Grid(), c) && !Hopeless(Grid()) ==> c in [];
      contradiction := LockProcessing([Coord(row, col)]);
    }

    method NeighbourhoodBfsLockProcessing(row: int, col: int) returns (contradiction: bool)
      requires Sound() && On(Grid(), Coord(row, col))
      requires QueueOk(Grid(), Beside(Coord(row, col), |Grid()|, |Grid()[0]|))
      modifies this`left, this`locked, this`neighbourLocked, board.board
      ensures Sound() && NoneCornered(Grid()) && Forced(old(Grid()), Grid())
      ensures contradiction ==> Hopeless(Grid())
      ensures Waiting(neighbourLocked) <= old(Waiting(neighbourLocked))
    {
      contradiction := LockProcessing(Beside(Coord(row, col), board.board.Length0, board.board.Length1));
    }

    method Propagate(row: int, col: int, ghost g0: Grid)
      requires Valid() && On(Grid(), Coord(row, col)) && Rectangle(g0) && Forced(g0, Grid())
      modifies this`left, this`locked, this`neighbourLocked, board.board
      ensures Valid() && Forced(g0, Grid())
    {
      ghost var g := Grid();
      var contradiction := BfsLockProcessing(row, col);
      ForcedTrans(g0, g, Grid());
    }

    method PreprocessTopRight()
      requires Valid()
      modifies this`left, this`locked, this`neighbourLocked, board.board
      ensures Valid() && Forced(old(Grid()), Grid())
    {
      ForcedRefl(Grid());
      for j := 0 to board.board.Length1
        invariant Valid() && Forced(old(Grid()), Grid())
      {
        Propagate(0, j, old(Grid()));
      }
      for i := 0 to board.board.Length0
        invariant Valid() && Forced(old(Grid()), Grid())
      {
        Propagate(i, board.board.Length1 - 1, old(Grid()));
      }
    }

    method PreprocessBottomLeft()
      requires Valid()
      modifies this`left, this`locked, this`neighbourLocked, board.board
      ensures Valid() && Forced(old(Grid()), Grid())
    {
      ForcedRefl(Grid());
      for j := board.board.Length1 downto 0
        invariant Valid() && Forced(old(Grid()), Grid())
      {
        Propagate(board.board.Length0 - 1, j, old(Grid()));
      }
      for i := board.board.Length0 downto 0
        invariant Valid() && Forced(old(Grid()), Grid())
      {
        Propagate(i, 0, old(Grid()));
      }
    }

    /** Propagates from every border cell, whatever the outcome. */
    method Preprocess()
      requires Valid()
      modifies this`left, this`locked, this`neighbourLocked, board.board
      ensures Valid() && Forced(old(Grid()), Grid())
    {
      PreprocessTopRight();
      ghost var g := Grid();
      PreprocessBottomLeft();
      ForcedTrans(old(Grid()), g, Grid());
    }

    // ---------- the goal test ----------

    /** The pipes of a board without leaks form one component; the marks are taken off again if they do not. */
    method IsSingleScc() returns (r: bool)
      requires Valid() && left == 0
      modifies board.board
      ensures r <==> SingleComponent(old(Grid()), Shown(old(Grid())))
      ensures !r ==> Grid() == old(Grid())
      ensures r ==> Paints(old(Grid()), Grid(), Cells(old(Grid())))
    {
      ghost var g := Grid();
      NothingLeft(g);
      var done;
      ghost var marked;
      done, marked := MarkConnected(board, g);
      if done == board.board.Length1 * board.board.Length0 {
        return true;
      }
      UnmarkAll(board, g, marked);
      return false;
    }

    method PropagateAround()
      requires Sound() && On(Grid(), currCoord) && IsLocked(At(Grid(), currCoord))
      requires QueueOk(Grid(), Beside(currCoord, |Grid()|, |Grid()[0]|))
      modifies this`left, this`locked, this`neighbourLocked, board.board
      ensures Sound() && Apart(neighbourLocked) && NoneCornered(Grid()) && Forced(old(Grid()), Grid())
      ensures On(Grid(), currCoord) && IsLocked(At(Grid(), currCoord))
      ensures Waiting(neighbourLocked) <= old(Waiting(neighbourLocked))
    {
      ghost var g := Grid();
      var contradiction := NeighbourhoodBfsLockProcessing(currCoord.row, currCoord.col);
      StillLocked(g, Grid(), currCoord);
      hide Forced, Hopeless, Consistent, Covered, QueueOk, NoneCornered;
      if contradiction {
        Emptied(Grid(), left, neighbourLocked, [{}, {}, {}, {}], currCoord);
        NoSolution();
      }
    }

    /** Points the current cell as decided, propagates from its neighbours and takes the next cell;
        a contradiction empties the groups. */
    method LockAndGo(direction: Piece)
      requires Valid() && !ReachedEnd() && Offered(Grid(), currCoord, direction)
      modifies this, board.board
      ensures Valid() && Forced(Locking(old(Grid()), old(currCoord), direction), Grid())
      ensures Waiting(neighbourLocked) < old(Waiting(neighbourLocked))
    {
      hide Forced, Hopeless, Consistent, Covered, QueueOk, NoneCornered, Offered, Settled, StateOk, Tallied, Waiting;
      ghost var g, l, b := Grid(), left, neighbourLocked;
      StateFacts(g, l, b, currCoord);
      PointAndLock(currCoord.row, currCoord.col, direction);
      TriedState(g, l, b, currCoord, direction, neighbourLocked);
      PropagateAround();
      ghost var b', curr := neighbourLocked, currCoord;
      GoToNextCoord();
      NextStateOk(Grid(), left, b', neighbourLocked, curr, currCoord);
    }

    /** One round of the goal test: goes on while the current cell is forced; an uncertain cell is left
        for branching, a contradiction empties the groups. */
    method Advance() returns (stop: bool)
      requires Valid() && !ReachedEnd()
      modifies this, board.board
      ensures Valid() && Forced(old(Grid()), Grid())
      ensures Waiting(neighbourLocked) <= old(Waiting(neighbourLocked))
      ensures !stop ==> Waiting(neighbourLocked) != old(Waiting(neighbourLocked))
    {
      hide Forced, Hopeless, Consistent, OneOffer, Offered, StateOk, Tallied, Settled, Covered, Waiting;
      ghost var g, curr := Grid(), currCoord;
      ForcedRefl(g);
      StateFacts(g, left, neighbourLocked, curr);
      var inferred := InferAt(currCoord.row, currCoord.col);
      stop := |inferred| != 1;
      if |inferred| == 1 {
        assert inferred[0] in inferred;
        ForcedLock(g, curr, inferred[0]);
        LockAndGo(inferred[0]);
        ForcedTrans(g, Locking(g, curr, inferred[0]), Grid());
      } else if |inferred| == 0 {
        NoOffer(Grid(), currCoord);
        Emptied(Grid(), left, neighbourLocked, [{}, {}, {}, {}], currCoord);
        NoSolution();
      }
    }

    /** Locks what is forced for as long as cells wait and openings leak. */
    method Settle()
      requires Valid()
      modifies this, board.board
      ensures Valid() && Forced(old(Grid()), Grid())
      ensures Waiting(neighbourLocked) <= old(Waiting(neighbourLocked))
      ensures old(left) == 0 ==> left == 0 && Grid() == old(Grid())
    {
      ghost var g := Grid();
      ForcedRefl(g);
      hide Forced, StateOk, Waiting;
      var stop := false;
      while !stop && !ReachedEnd() && left != 0
        invariant Valid() && Forced(g, Grid()) && Waiting(neighbourLocked) <= old(Waiting(neighbourLocked))
        invariant old(left) == 0 ==> left == 0 && Grid() == g
        decreases !stop, Waiting(neighbourLocked)
      {
        ghost var before := Grid();
        stop := Advance();
        ForcedTrans(g, before, Grid());
      }
    }

    /** Tests for a leak-free board in one component, after cells of g were locked. */
    method TestShown(ghost g: Grid) returns (r: bool)
      requires Valid() && Rectangle(g) && Forced(g, Grid())
      modifies board.board
      ensures board.Valid() && (r <==> IsSolution(old(Grid()), Shown(old(Grid()))))
      ensures r ==> IsSolution(g, Shown(Grid())) && (PairOfF(g) ==> IsSolution(g, Shown(g)))
      ensures !r ==> Grid() == old(Grid())
    {
      ghost var last := Grid();
      PairUnchanged(g, last);
      LeftIs(last, left, neighbourLocked, currCoord);
      hide Forced, IsSolution, SingleComponent, Paints, PairOfF, Unmarked, Covered, Consistent, NoneCornered, Settled;
      r := false;
      if left == 0 {
        r := IsSingleScc();
      }
      if r {
        MarksShow(last, Grid(), Cells(last));
        SameShown(g, last);
      }
    }

    /** Locks what is forced, then tests for a leak-free board in one component. */
    method GoalTest() returns (r: bool)
      requires Valid()
      modifies this, board.board
      ensures board.Valid() && (r ==> IsSolution(old(Grid()), Shown(Grid())))
      ensures !r ==> Valid() && Forced(old(Grid()), Grid()) && Waiting(neighbourLocked) <= old(Waiting(neighbourLocked))
      ensures !r && ReachedEnd() ==> Hopeless(old(Grid()))
      ensures IsSolution(old(Grid()), Shown(old(Grid()))) ==> r
      ensures r && PairOfF(old(Grid())) ==> IsSolution(old(Grid()), Shown(old(Grid())))
    {
      ghost var g := Grid();
      LeftIs(g, left, neighbourLocked, currCoord);
      Settle();
      ghost var last := Grid();
      LeftIs(last, left, neighbourLocked, currCoord);
      hide Forced, Hopeless, IsSolution, StateOk, Waiting, SingleComponent, PairOfF;
      r := TestShown(g);
      if !r && ReachedEnd() {
        EndOfSearch(last, left, neighbourLocked, currCoord);
        HopelessBefore(g, last);
      }
    }

    /** The actions of a state: the directions inferred for the current cell. */
    method Actions() returns (res: seq<Piece>)
      requires Valid()
      ensures |res| <= 4 && (ReachedEnd() ==> res == [])
      ensures !ReachedEnd() ==> forall x :: x in res <==> Offered(Grid(), currCoord, x)
    {
      if ReachedEnd() {
        return [];
      }
      res := InferAt(currCoord.row, currCoord.col);
      assert forall i :: 0 <= i < |res| ==> res[i] in res;
      if |res| > 4 {
        FifthDirection(res);
      }
    }

    /** A copy that shares no mutable part with the original. */
    method DeepCopy() returns (copy: PipeManiaState)
      requires board.Valid()
      ensures fresh(copy) && fresh(copy.board) && fresh(copy.board.board) && copy.board.Valid()
      ensures copy.Grid() == Grid() && copy.left == left && copy.locked == locked
      ensures copy.currCoord == currCoord && copy.neighbourLocked == neighbourLocked
    {
      var cells := new Piece[board.board.Length0, board.board.Length1]((i, j) reads board.board
        requires 0 <= i < board.board.Length0 && 0 <= j < board.board.Length1 => board.board[i, j]);
      var b := new Board(cells);
      SameCells(b.Grid(), Grid());
      copy := new PipeManiaState(b, left, locked);
      copy.currCoord, copy.neighbourLocked := currCoord, neighbourLocked;
    }

    /** The child of a state for one of its actions. The state itself stays as it is. */
    method Result(action: Piece) returns (copy: PipeManiaState)
      requires Valid() && !ReachedEnd() && Offered(Grid(), currCoord, action)
      ensures fresh(copy) && fresh(copy.board) && fresh(copy.board.board) && copy.Valid()
      ensures Forced(Locking(Grid(), currCoord, action), copy.Grid())
      ensures Waiting(copy.neighbourLocked) < Waiting(neighbourLocked)
    {
      hide Forced, StateOk, Offered, Waiting;
      copy := DeepCopy();
      copy.LockAndGo(action);
    }

    method AddTo(k: nat, c: Coord)
      requires Apart(neighbourLocked) && k < 4 && c !in Waiting(neighbourLocked)
      modifies this`neighbourLocked
      ensures Apart(neighbourLocked) && Waiting(neighbourLocked) == old(Waiting(neighbourLocked)) + {c}
      ensures neighbourLocked == old(neighbourLocked)[k := old(neighbourLocked)[k] + {c}]
    {
      neighbourLocked := neighbourLocked[k := neighbourLocked[k] + {c}];
    }

    /** One row of the initial state: its leaks are added and its cells grouped. */
    method ParseRow(i: int)
      requires board.Valid() && 0 <= i < board.board.Length0 && Apart(neighbourLocked)
      requires left == Left(Grid(), CellsBefore(Grid(), i, 0)) && Waiting(neighbourLocked) == CellsBefore(Grid(), i, 0)
      requires Grouped(neighbourLocked, CellsBefore(Grid(), i, 0), board.board.Length0, board.board.Length1)
      modifies this`left, this`neighbourLocked
      ensures Apart(neighbourLocked)
      ensures left == Left(Grid(), CellsBefore(Grid(), i, board.board.Length1))
      ensures Waiting(neighbourLocked) == CellsBefore(Grid(), i, board.board.Length1)
      ensures Grouped(neighbourLocked, CellsBefore(Grid(), i, board.board.Length1), board.board.Length0,
                      board.board.Length1)
    {
      hide Left, LeftAt, Grouped, StartGroup, Waiting;
      ghost var g := Grid();
      for j := 0 to board.board.Length1
        invariant Apart(neighbourLocked)
        invariant left == Left(g, CellsBefore(g, i, j)) && Waiting(neighbourLocked) == CellsBefore(g, i, j)
        invariant Grouped(neighbourLocked, CellsBefore(g, i, j), board.board.Length0, board.board.Length1)
      {
        var n := board.ConnectionsLeftAt(Coord(i, j));
        left := left + n;
        NextCell(g, i, j);
        StartGroupRange(Coord(i, j), board.board.Length0, board.board.Length1);
        GroupedMore(neighbourLocked, CellsBefore(g, i, j), Coord(i, j), board.board.Length0, board.board.Length1);
        AddTo(StartGroup(Coord(i, j), board.board.Length0, board.board.Length1), Coord(i, j));
      }
    }

    /** The initial state of a board of unlocked pieces: leaks counted cell by cell, corners, borders
        and inner cells grouped by the neighbours they lack. */
    static method ParseInstance(board: Board) returns (state: PipeManiaState)
      requires board.Valid() && Fresh(board.Grid())
      ensures fresh(state) && state.board == board && state.Valid() && state.Grid() == board.Grid() == old(board.Grid())
      ensures state.currCoord == Coord(0, 0) && state.locked == 0
      ensures Grouped(state.neighbourLocked, Cells(state.Grid()), board.board.Length0, board.board.Length1)
    {
      hide StateOk, Left;
      state := new PipeManiaState(board, 0, 0);
      ghost var g := board.Grid();
      NoCells(g);
      for i := 0 to board.board.Length0
        invariant state.board == board && fresh(state) && state.currCoord == Coord(0, 0) && Apart(state.neighbourLocked)
        invariant state.left == Left(g, CellsBefore(g, i, 0)) && Waiting(state.neighbourLocked) == CellsBefore(g, i, 0)
        invariant Grouped(state.neighbourLocked, CellsBefore(g, i, 0), board.board.Length0, board.board.Length1)
        invariant state.locked == 0
      {
        state.ParseRow(i);
        assert CellsBefore(g, i, board.board.Length1) == CellsBefore(g, i + 1, 0);
      }
      ParsedOk(g, state.left, state.neighbourLocked);
      assert CellsBefore(g, |g|, 0) == Cells(g);
    }
  }
}
