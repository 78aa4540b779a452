/** Boards of pipe pieces as values: surroundings, leaks, solutions, and why inferring loses no solution. */
module PipeBoard {
  import opened Paths
  import opened PipePiece

  datatype Coord = Coord(row: int, col: int) {
    function Toward(d: nat): Coord
      requires d < 4
    {
      if d == 0 then Coord(row, col + 1) else if d == 1 then Coord(row - 1, col)
      else if d == 2 then Coord(row, col - 1) else Coord(row + 1, col)
    }
  }

  lemma TowardBack(c: Coord, d: nat)
    requires d < 4
    ensures c.Toward(d).Toward(Opposite(d)) == c && c.Toward(d) != c
  {
  }

  type Grid = seq<seq<Piece>>

  ghost predicate Rectangle(g: Grid) {
    |g| > 0 && |g[0]| > 0 && forall r :: 0 <= r < |g| ==> |g[r]| == |g[0]|
  }

  predicate On(g: Grid, c: Coord) {
    |g| > 0 && 0 <= c.row < |g| && 0 <= c.col < |g[0]|
  }

  function At(g: Grid, c: Coord): Piece
    requires Rectangle(g) && On(g, c)
  {
    g[c.row][c.col]
  }

  function Update(g: Grid, c: Coord, piece: Piece): (g': Grid)
    requires Rectangle(g) && On(g, c)
    ensures Rectangle(g') && |g'| == |g| && |g'[0]| == |g[0]|
    ensures forall x :: On(g', x) <==> On(g, x)
    ensures forall x :: On(g, x) ==> At(g', x) == if x == c then piece else At(g, x)
  {
    g[c.row := g[c.row][c.col := piece]]
  }

  // ---------- the surroundings of a cell ----------

  /** The inverted openings at c, nothing past the border. */
  ghost function Inverted(g: Grid, c: Coord): Sides
    requires Rectangle(g)
  {
    if On(g, c) then InvertOrientation(GetOrientation(At(g, c))) else 0
  }

  /** The inverted openings of the neighbour toward d. */
  ghost function Facing(g: Grid, c: Coord, d: nat): Sides
    requires Rectangle(g) && d < 4
  {
    Inverted(g, c.Toward(d))
  }

  ghost function LockAt(g: Grid, c: Coord): Sides
    requires Rectangle(g)
  {
    if On(g, c) then LockStatus(At(g, c)) else 0
  }

  ghost function EmptyAt(g: Grid, c: Coord): Sides
    requires Rectangle(g)
  {
    if On(g, c) then 0 else 0xF
  }

  /** The three words describe the neighbours of c: their inverted openings, which are locked, which are missing. */
  ghost predicate Describes(g: Grid, c: Coord, neighbours: Sides, locked: Sides, empty: Sides)
    requires Rectangle(g)
  {
    forall d: nat :: d < 4 ==>
      && Nibble(neighbours, d) == Facing(g, c, d)
      && Nibble(locked, d) == LockAt(g, c.Toward(d))
      && Nibble(empty, d) == EmptyAt(g, c.Toward(d))
  }

  lemma DiagonalOfNibble(w: Sides, d: nat)
    requires d < 4
    ensures Diagonal(w, d) <==> Bit(Nibble(w, d), d)
  {
  }

  /** The neighbour toward d exists and opens toward c. */
  ghost predicate PointedAt(g: Grid, c: Coord, d: nat)
    requires Rectangle(g) && d < 4
  {
    On(g, c.Toward(d)) && Bit(GetOrientation(At(g, c.Toward(d))), Opposite(d))
  }

  lemma FullNibble(w: Sides, d: nat)
    requires d < 4 && Nibble(w, d) in {0, 0xF}
    ensures Diagonal(w, d) <==> Nibble(w, d) != 0
  {
  }

  lemma FacingBit(g: Grid, c: Coord, d: nat)
    requires Rectangle(g) && d < 4
    ensures Bit(Facing(g, c, d), d) <==> PointedAt(g, c, d)
  {
    if On(g, c.Toward(d)) {
      OrientationRange(At(g, c.Toward(d)));
      InvertBits(GetOrientation(At(g, c.Toward(d))), d);
    } else {
      assert !Bit(0, d);
    }
  }

  lemma DescribedPointing(g: Grid, c: Coord, neighbours: Sides, d: nat)
    requires Rectangle(g) && d < 4 && Nibble(neighbours, d) == Facing(g, c, d)
    ensures Diagonal(neighbours, d) <==> PointedAt(g, c, d)
  {
    DiagonalOfNibble(neighbours, d);
    FacingBit(g, c, d);
  }

  // ---------- solutions ----------

  /** A choice of openings for every cell. */
  type Openings = seq<seq<Sides>>

  ghost predicate SameShape(g: Grid, s: Openings) {
    |s| == |g| && forall r :: 0 <= r < |g| ==> |s[r]| == |g[r]|
  }

  ghost function Chosen(g: Grid, s: Openings, c: Coord): Sides
    requires Rectangle(g) && SameShape(g, s) && On(g, c)
  {
    s[c.row][c.col]
  }

  /** The cell's openings are those of its piece in some direction, and in its own direction when it is locked. */
  ghost predicate Allowed(g: Grid, s: Openings, c: Coord)
    requires Rectangle(g) && SameShape(g, s) && On(g, c)
  {
    && (exists x: Piece :: x < 4 && Chosen(g, s, c) == GetOrientation(Point(At(g, c), x)))
    && (IsLocked(At(g, c)) ==> Chosen(g, s, c) == GetOrientation(At(g, c)))
  }

  /** Every opening of c meets an opening of the neighbour on that side. */
  ghost predicate Answered(g: Grid, s: Openings, c: Coord, d: nat)
    requires Rectangle(g) && SameShape(g, s) && On(g, c) && d < 4
  {
    Bit(Chosen(g, s, c), d) ==> On(g, c.Toward(d)) && Bit(Chosen(g, s, c.Toward(d)), Opposite(d))
  }

  ghost predicate LeakFree(g: Grid, s: Openings)
    requires Rectangle(g) && SameShape(g, s)
  {
    forall c, d: nat :: On(g, c) && d < 4 ==> Answered(g, s, c, d)
  }

  ghost predicate Linked(g: Grid, s: Openings, c: Coord, e: Coord)
    requires Rectangle(g) && SameShape(g, s)
  {
    On(g, c) && On(g, e) && exists d: nat :: d < 4 && Bit(Chosen(g, s, c), d) && e == c.Toward(d)
  }

  ghost function Links(g: Grid, s: Openings): iset<(Coord, Coord)>
    requires Rectangle(g) && SameShape(g, s)
  {
    iset e: (Coord, Coord) | Linked(g, s, e.0, e.1)
  }

  /** Every cell is reached from the first one along the openings. */
  ghost predicate SingleComponent(g: Grid, s: Openings)
    requires Rectangle(g) && SameShape(g, s)
  {
    forall c :: On(g, c) ==> Reach(Links(g, s), Coord(0, 0), c)
  }

  ghost predicate IsSolution(g: Grid, s: Openings)
    requires Rectangle(g)
  {
    && SameShape(g, s)
    && (forall c :: On(g, c) ==> Allowed(g, s, c))
    && LeakFree(g, s) && SingleComponent(g, s)
  }

  /** On a board without locks a solution gives every cell a turn of its type's openings; nothing leaks and all
      cells hang together. */
  lemma SolutionByTurns(g: Grid, s: Openings)
    requires Rectangle(g) && forall c :: On(g, c) ==> !IsLocked(At(g, c))
    ensures IsSolution(g, s) <==>
            && SameShape(g, s) && (forall c :: On(g, c) ==> Turned(At(g, c), Chosen(g, s, c)))
            && LeakFree(g, s) && SingleComponent(g, s)
  {
    hide LeakFree, SingleComponent, Turned, GetOrientation;
    if SameShape(g, s) {
      forall c | On(g, c)
        ensures Allowed(g, s, c) <==> Turned(At(g, c), Chosen(g, s, c))
      {
        TableIsTurned(At(g, c), Chosen(g, s, c));
      }
    }
  }

  /** The openings the board shows. */
  ghost function Shown(g: Grid): (s: Openings)
    requires Rectangle(g)
    ensures SameShape(g, s)
    ensures forall c :: On(g, c) ==> Chosen(g, s, c) == GetOrientation(At(g, c))
  {
    seq(|g|, r requires 0 <= r < |g| => seq(|g[r]|, k requires 0 <= k < |g[r]| => GetOrientation(g[r][k])))
  }

  // ---------- two pieces with one opening each ----------

  /** The board is two cells holding pieces with one opening each. */
  ghost predicate PairOfF(g: Grid)
    requires Rectangle(g)
  {
    |g| * |g[0]| == 2 && forall c :: On(g, c) ==> IsF(At(g, c))
  }

  lemma ThirdCell(g: Grid, a: Coord, b: Coord) returns (c: Coord)
    requires Rectangle(g) && |g| * |g[0]| > 2
    ensures On(g, c) && c != a && c != b
  {
    var h, w := |g|, |g[0]|;
    if h == 1 || w == 1 {
      if h == 1 {
        c := if Coord(0, 0) != a && Coord(0, 0) != b then Coord(0, 0)
             else if Coord(0, 1) != a && Coord(0, 1) != b then Coord(0, 1) else Coord(0, 2);
      } else {
        c := if Coord(0, 0) != a && Coord(0, 0) != b then Coord(0, 0)
             else if Coord(1, 0) != a && Coord(1, 0) != b then Coord(1, 0) else Coord(2, 0);
      }
    } else {
      c := if Coord(0, 0) != a && Coord(0, 0) != b then Coord(0, 0)
           else if Coord(0, 1) != a && Coord(0, 1) != b then Coord(0, 1) else Coord(1, 0);
    }
  }

  lemma OnlyOpening(g: Grid, s: Openings, a: Coord, d: nat)
    requires Rectangle(g) && SameShape(g, s) && On(g, a) && Allowed(g, s, a) && d < 4
    requires IsF(At(g, a)) && Bit(Chosen(g, s, a), d)
    ensures forall e: nat :: e < 4 && Bit(Chosen(g, s, a), e) ==> e == d
  {
    var x: Piece :| x < 4 && Chosen(g, s, a) == GetOrientation(Point(At(g, a), x));
    PointKeeps(At(g, a), x);
    forall e: nat | e < 4 && Bit(Chosen(g, s, a), e)
      ensures e == d
    {
      SingleOpeningSide(Point(At(g, a), x), d, e);
    }
  }

  /** In a solution nothing but each other is linked to two F pieces that face each other. */
  lemma FacingPairIsolated(g: Grid, s: Openings, a: Coord, d: nat, x: Coord, y: Coord)
    requires Rectangle(g) && IsSolution(g, s) && On(g, a) && d < 4 && Bit(Chosen(g, s, a), d)
    requires On(g, a.Toward(d)) && IsF(At(g, a)) && IsF(At(g, a.Toward(d)))
    requires Linked(g, s, x, y)
    ensures (x == a || x == a.Toward(d)) <==> (y == a || y == a.Toward(d))
  {
    var b := a.Toward(d);
    TowardBack(a, d);
    assert Answered(g, s, a, d);
    assert Allowed(g, s, a) && Allowed(g, s, b);
    OnlyOpening(g, s, a, d);
    OnlyOpening(g, s, b, Opposite(d));
    var e: nat :| e < 4 && Bit(Chosen(g, s, x), e) && y == x.Toward(e);
    TowardBack(x, e);
    assert Answered(g, s, x, e);
  }

  /** On a board of more than two cells no solution joins two pieces with one opening each. */
  lemma FsDoNotFace(g: Grid, s: Openings, a: Coord, d: nat)
    requires Rectangle(g) && IsSolution(g, s) && |g| * |g[0]| > 2
    requires On(g, a) && d < 4 && On(g, a.Toward(d)) && IsF(At(g, a)) && IsF(At(g, a.Toward(d)))
    ensures !Bit(Chosen(g, s, a), d)
  {
    if Bit(Chosen(g, s, a), d) {
      var b := a.Toward(d);
      var c := ThirdCell(g, a, b);
      var pair := iset{a, b};
      var rest := iset x: Coord | x !in pair;
      forall x, y | (x, y) in Links(g, s)
        ensures x in pair <==> y in pair
      {
        FacingPairIsolated(g, s, a, d, x, y);
      }
      if Coord(0, 0) in pair {
        Paths.Closed(Links(g, s), pair, Coord(0, 0), c);
      } else {
        Paths.Closed(Links(g, s), rest, Coord(0, 0), a);
      }
    }
  }

  /** In a solution a piece with several openings has a neighbour on each of two sides. */
  lemma TwoNeighbours(g: Grid, s: Openings, c: Coord) returns (d: nat, e: nat)
    requires Rectangle(g) && IsSolution(g, s) && On(g, c) && !IsF(At(g, c))
    ensures d < 4 && e < 4 && d != e && On(g, c.Toward(d)) && On(g, c.Toward(e))
  {
    assert Allowed(g, s, c);
    var x: Piece :| x < 4 && Chosen(g, s, c) == GetOrientation(Point(At(g, c), x));
    PointKeeps(At(g, c), x);
    d, e := TwoOpenings(Point(At(g, c), x));
    assert Answered(g, s, c, d) && Answered(g, s, c, e);
  }

  lemma OneCell(h: nat, w: nat)
    requires h * w == 1
    ensures h == 1 && w == 1
  {
  }

  lemma SmallNeighbours(g: Grid, c: Coord)
    requires Rectangle(g) && On(g, c) && |g| * |g[0]| <= 2
    ensures forall d: nat, e: nat :: d < 4 && e < 4 && On(g, c.Toward(d)) && On(g, c.Toward(e)) ==> d == e
  {
    var h, w := |g|, |g[0]|;
    if h >= 2 {
      assert w == 1 && h == 2 by {
        assert h * w >= 2 * w;
        assert h * w >= h * 1;
      }
    } else {
      assert h == 1 && w <= 2;
    }
  }

  /** A board of at most two cells is solved only by two F pieces. */
  lemma SmallBoards(g: Grid, s: Openings)
    requires Rectangle(g) && IsSolution(g, s) && |g| * |g[0]| <= 2
    ensures PairOfF(g)
  {
    forall c | On(g, c)
      ensures IsF(At(g, c))
    {
      SmallNeighbours(g, c);
      if !IsF(At(g, c)) {
        var d, e := TwoNeighbours(g, s, c);
      }
    }
    var c := Coord(0, 0);
    assert On(g, c);
    var x: Piece :| x < 4 && Chosen(g, s, c) == GetOrientation(Point(At(g, c), x));
    OrientationRange(Point(At(g, c), x));
    var d: nat :| d < 4 && Bit(Chosen(g, s, c), d);
    assert Answered(g, s, c, d);
    if |g| * |g[0]| == 1 {
      OneCell(|g|, |g[0]|);
    }
  }

  // ---------- inferring is sound ----------

  /** The surroundings of c rule out neither opening nor closing side d as direction x does. */
  ghost predicate FitsToward(g: Grid, c: Coord, x: Piece, d: nat)
    requires Rectangle(g) && On(g, c) && d < 4
  {
    var e, opens := c.Toward(d), Bit(GetOrientation(Point(At(g, c), x)), d);
    if !On(g, e) then !opens
    else
      && (IsLocked(At(g, e)) ==> (opens <==> PointedAt(g, c, d)))
      && (IsF(At(g, c)) && IsF(At(g, e)) ==> !opens)
  }

  /** The cell can point in direction x, as far as its locked and missing neighbours can tell. */
  ghost predicate CellFits(g: Grid, c: Coord, x: Piece)
    requires Rectangle(g) && On(g, c)
  {
    forall d: nat :: d < 4 ==> FitsToward(g, c, x, d)
  }

  /** The masks rule out the same directions as the board does. */
  lemma FitsByBoard(g: Grid, c: Coord, x: Piece, neighbours: Sides, locked: Sides, empty: Sides)
    requires Rectangle(g) && On(g, c) && Describes(g, c, neighbours, locked, empty)
    ensures Fits(At(g, c), x, neighbours, locked, empty) <==> CellFits(g, c, x)
  {
    forall d: nat | d < 4
      ensures SideFits(At(g, c), x, neighbours, locked, empty, d) <==> FitsToward(g, c, x, d)
    {
      DescribedPointing(g, c, neighbours, d);
      FullNibble(locked, d);
      FullNibble(empty, d);
      if On(g, c.Toward(d)) {
        SingleOpening(At(g, c.Toward(d)));
      } else {
        assert ConnectionsNeeded(0) != 1;
      }
    }
  }

  /** The openings a solution gives a cell fit its surroundings. */
  lemma SolutionFits(g: Grid, s: Openings, c: Coord, x: Piece)
    requires Rectangle(g) && IsSolution(g, s) && !PairOfF(g) && On(g, c)
    requires Chosen(g, s, c) == GetOrientation(Point(At(g, c), x))
    ensures CellFits(g, c, x)
  {
    forall d: nat | d < 4
      ensures FitsToward(g, c, x, d)
    {
      var e := c.Toward(d);
      TowardBack(c, d);
      assert Answered(g, s, c, d);
      if On(g, e) {
        assert Allowed(g, s, e) && Answered(g, s, e, Opposite(d));
        if IsF(At(g, c)) && IsF(At(g, e)) {
          if |g| * |g[0]| <= 2 {
            SmallBoards(g, s);
          }
          FsDoNotFace(g, s, c, d);
        }
      }
    }
  }

  /** A direction that inferring offers, for the openings that a solution gives a cell. */
  lemma SolutionOffered(g: Grid, s: Openings, c: Coord) returns (x: Piece)
    requires Rectangle(g) && IsSolution(g, s) && !PairOfF(g) && On(g, c)
    ensures x < 4 && (IsL(At(g, c)) ==> x < 2) && CellFits(g, c, x)
    ensures Chosen(g, s, c) == GetOrientation(Point(At(g, c), x))
  {
    assert Allowed(g, s, c);
    x :| x < 4 && Chosen(g, s, c) == GetOrientation(Point(At(g, c), x));
    if IsL(At(g, c)) {
      StraightHalf(At(g, c), x);
      x := x & 1;
    }
    SolutionFits(g, s, c, x);
  }

  // ---------- locking a cell ----------

  ghost function Locking(g: Grid, c: Coord, x: Piece): Grid
    requires Rectangle(g) && On(g, c)
  {
    Update(g, c, Lock(Point(At(g, c), x)))
  }

  lemma LeaksUnchanged(g: Grid, g': Grid, s: Openings)
    requires Rectangle(g) && Rectangle(g') && SameShape(g, s) && SameShape(g', s)
    ensures LeakFree(g', s) <==> LeakFree(g, s)
  {
    assert forall c :: On(g, c) <==> On(g', c);
    forall c, d: nat | On(g, c) && d < 4
      ensures Answered(g', s, c, d) <==> Answered(g, s, c, d)
    {
    }
  }

  /** The solutions after a cell is pointed and locked are the earlier ones that agree with it. */
  lemma LockedSolutions(g: Grid, c: Coord, x: Piece, s: Openings)
    requires Rectangle(g) && On(g, c) && x < 4
    requires IsLocked(At(g, c)) ==> GetOrientation(Point(At(g, c), x)) == GetOrientation(At(g, c))
    ensures IsSolution(Locking(g, c, x), s) <==>
            IsSolution(g, s) && Chosen(g, s, c) == GetOrientation(Point(At(g, c), x))
  {
    var piece, piece' := At(g, c), Lock(Point(At(g, c), x));
    var g' := Locking(g, c, x);
    PointKeeps(piece, x);
    LockKeeps(Point(piece, x));
    assert SameShape(g', s) <==> SameShape(g, s);
    if SameShape(g, s) {
      assert Links(g', s) == Links(g, s) by {
        forall a, b
          ensures Linked(g', s, a, b) <==> Linked(g, s, a, b)
        {
        }
      }
      forall y: Piece
        ensures GetOrientation(Point(piece', y)) == GetOrientation(Point(piece, y))
      {
        PointTwice(piece, x, y);
      }
      LeaksUnchanged(g, g', s);
      forall e | On(g, e)
        ensures Allowed(g', s, e) <==>
                Allowed(g, s, e) && (e == c ==> Chosen(g, s, c) == GetOrientation(Point(piece, x)))
      {
      }
    }
  }
}
