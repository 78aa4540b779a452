/** What locking forced cells keeps: the solutions, the type of every piece, and no cell left cornered. */
module PipeSearch {
  import opened PipePiece
  import opened PipeBoard

  /** The directions that inferring offers a cell; a straight piece is only offered two. */
  ghost predicate Offered(g: Grid, c: Coord, x: Piece)
    requires Rectangle(g) && On(g, c)
  {
    x < 4 && (IsL(At(g, c)) ==> x < 2) && CellFits(g, c, x)
  }

  ghost predicate OneOffer(g: Grid, c: Coord)
    requires Rectangle(g) && On(g, c)
  {
    forall x: Piece, y: Piece :: Offered(g, c, x) && Offered(g, c, y) ==> x == y
  }

  ghost predicate Unlocked(g: Grid, c: Coord)
    requires Rectangle(g)
  {
    On(g, c) && !IsLocked(At(g, c))
  }

  /** A locked cell still fits its surroundings. */
  ghost predicate Consistent(g: Grid)
    requires Rectangle(g)
  {
    forall c :: On(g, c) && IsLocked(At(g, c)) ==> CellFits(g, c, At(g, c))
  }

  ghost predicate Settled(g: Grid, c: Coord)
    requires Rectangle(g) && On(g, c)
  {
    IsLocked(At(g, c)) ==> OneOffer(g, c)
  }

  /** Nothing is left to find. A pair of facing single openings counts as such: see PairRefused. */
  ghost predicate Hopeless(g: Grid)
    requires Rectangle(g)
  {
    PairOfF(g) || forall s :: !IsSolution(g, s)
  }

  ghost predicate SameTypes(g: Grid, g': Grid)
    requires Rectangle(g) && Rectangle(g')
  {
    |g'| == |g| && |g'[0]| == |g[0]| && forall c :: On(g, c) ==> At(g', c) & 12 == At(g, c) & 12
  }

  ghost predicate SameSolutions(g: Grid, g': Grid)
    requires Rectangle(g) && Rectangle(g')
  {
    forall s :: IsSolution(g', s) <==> IsSolution(g, s)
  }

  /** g' is g with forced cells locked: its solutions are those of g. On a pair of F nothing is locked. */
  ghost predicate Forced(g: Grid, g': Grid)
    requires Rectangle(g) && Rectangle(g')
  {
    && SameTypes(g, g') && SameSolutions(g, g') && (PairOfF(g) ==> g' == g)
    && (forall c :: On(g, c) && Settled(g, c) ==> Settled(g', c))
    && (forall c :: On(g, c) && IsLocked(At(g, c)) ==> IsLocked(At(g', c)))
  }

  lemma SamePair(g: Grid, g': Grid)
    requires Rectangle(g) && Rectangle(g') && SameTypes(g, g')
    ensures PairOfF(g') <==> PairOfF(g)
  {
    assert forall c :: On(g', c) <==> On(g, c);
  }

  lemma ForcedRefl(g: Grid)
    requires Rectangle(g)
    ensures Forced(g, g)
  {
  }

  lemma ForcedTrans(g: Grid, g': Grid, g'': Grid)
    requires Rectangle(g) && Rectangle(g') && Rectangle(g'') && Forced(g, g') && Forced(g', g'')
    ensures Forced(g, g'')
  {
    SamePair(g, g');
    assert forall c :: On(g', c) <==> On(g, c);
  }

  lemma StillHopeless(g: Grid, g': Grid)
    requires Rectangle(g) && Rectangle(g') && Forced(g, g') && Hopeless(g)
    ensures Hopeless(g')
  {
    SamePair(g, g');
  }

  // ---------- one lock ----------

  lemma LockedPiece(piece: Piece, x: Piece, y: Piece)
    ensures GetOrientation(Point(Lock(Point(piece, x)), y)) == GetOrientation(Point(piece, y))
    ensures GetOrientation(Lock(Point(piece, x))) == GetOrientation(Point(piece, x))
    ensures IsLocked(Lock(Point(piece, x))) && Lock(Point(piece, x)) & 12 == piece & 12
    ensures IsMarked(Lock(Point(piece, x))) <==> IsMarked(piece)
  {
    PointTwice(piece, x, y);
    PointKeeps(piece, x);
    LockKeeps(Point(piece, x));
  }

  lemma SideShrinks(g: Grid, c: Coord, x: Piece, e: Coord, y: Piece, d: nat)
    requires Rectangle(g) && On(g, c) && On(g, e) && d < 4
    requires IsLocked(At(g, c)) ==> GetOrientation(Point(At(g, c), x)) == GetOrientation(At(g, c))
    requires FitsToward(Locking(g, c, x), e, y, d)
    ensures FitsToward(g, e, y, d)
  {
    LockedPiece(At(g, c), x, y);
  }

  /** Where the neighbours were locked, they keep what they asked for; a lock only asks for more. */
  lemma OffersShrink(g: Grid, c: Coord, x: Piece, e: Coord, y: Piece)
    requires Rectangle(g) && On(g, c) && On(g, e) && x < 4
    requires IsLocked(At(g, c)) ==> GetOrientation(Point(At(g, c), x)) == GetOrientation(At(g, c))
    requires Offered(Locking(g, c, x), e, y)
    ensures Offered(g, e, y)
  {
    var g' := Locking(g, c, x);
    LockedPiece(At(g, c), x, y);
    forall d: nat | d < 4
      ensures FitsToward(g, e, y, d)
    {
      assert FitsToward(g', e, y, d);
      SideShrinks(g, c, x, e, y, d);
    }
  }

  lemma LockedTypes(g: Grid, c: Coord, x: Piece)
    requires Rectangle(g) && On(g, c)
    ensures SameTypes(g, Locking(g, c, x))
    ensures forall e :: On(g, e) && e != c ==> At(Locking(g, c, x), e) == At(g, e)
    ensures IsLocked(At(Locking(g, c, x), c))
  {
    LockedPiece(At(g, c), x, 0);
  }

  lemma PointOwn(piece: Piece)
    ensures GetOrientation(Point(piece, piece)) == GetOrientation(piece)
    ensures GetOrientation(Point(piece, piece & 3)) == GetOrientation(piece)
    ensures IsL(piece) ==> GetOrientation(Point(piece, piece & 1)) == GetOrientation(piece)
    ensures piece & 3 < 4 && piece & 1 < 2
  {
  }

  /** A cell that stayed as it was still fits its side d after c was locked. */
  lemma OtherFits(g: Grid, c: Coord, x: Piece, e: Coord, d: nat)
    requires Rectangle(g) && On(g, c) && CellFits(g, c, x) && d < 4
    requires IsLocked(At(g, c)) ==> GetOrientation(Point(At(g, c), x)) == GetOrientation(At(g, c))
    requires On(g, e) && IsLocked(At(g, e)) && e != c && FitsToward(g, e, At(g, e), d)
    ensures FitsToward(Locking(g, c, x), e, At(g, e), d)
  {
    if e.Toward(d) == c {
      LockedPiece(At(g, c), x, 0);
      PointOwn(At(g, e));
      TowardBack(e, d);
      assert c.Toward(Opposite(d)) == e && Opposite(Opposite(d)) == d;
      assert FitsToward(g, c, x, Opposite(d));
    }
  }

  lemma SelfFits(g: Grid, c: Coord, x: Piece, d: nat)
    requires Rectangle(g) && On(g, c) && d < 4 && FitsToward(g, c, x, d)
    ensures FitsToward(Locking(g, c, x), c, Lock(Point(At(g, c), x)), d)
  {
    LockedPiece(At(g, c), x, 0);
    PointOwn(Lock(Point(At(g, c), x)));
    TowardBack(c, d);
    assert At(Locking(g, c, x), c) == Lock(Point(At(g, c), x));
  }

  /** Locking a cell in a direction that fits keeps the board consistent. */
  lemma LockConsistent(g: Grid, c: Coord, x: Piece)
    requires Rectangle(g) && On(g, c) && Consistent(g) && CellFits(g, c, x)
    requires IsLocked(At(g, c)) ==> GetOrientation(Point(At(g, c), x)) == GetOrientation(At(g, c))
    ensures Consistent(Locking(g, c, x))
  {
    var g' := Locking(g, c, x);
    LockedTypes(g, c, x);
    forall e | On(g', e) && IsLocked(At(g', e))
      ensures CellFits(g', e, At(g', e))
    {
      forall d: nat | d < 4
        ensures FitsToward(g', e, At(g', e), d)
      {
        if e == c {
          SelfFits(g, c, x, d);
        } else {
          OtherFits(g, c, x, e, d);
        }
      }
    }
  }

  lemma StaysSettled(g: Grid, c: Coord, x: Piece, e: Coord)
    requires Rectangle(g) && On(g, c) && On(g, e) && x < 4 && OneOffer(g, c) && Settled(g, e)
    requires IsLocked(At(g, c)) ==> GetOrientation(Point(At(g, c), x)) == GetOrientation(At(g, c))
    ensures Settled(Locking(g, c, x), e)
  {
    var g' := Locking(g, c, x);
    LockedTypes(g, c, x);
    forall y: Piece, z: Piece | IsLocked(At(g', e)) && Offered(g', e, y) && Offered(g', e, z)
      ensures y == z
    {
      OffersShrink(g, c, x, e, y);
      OffersShrink(g, c, x, e, z);
    }
  }

  /** A locked cell is only offered what it already shows. */
  lemma LockedSame(g: Grid, c: Coord, x: Piece)
    requires Rectangle(g) && On(g, c) && Consistent(g) && Offered(g, c, x) && OneOffer(g, c)
    ensures IsLocked(At(g, c)) ==> GetOrientation(Point(At(g, c), x)) == GetOrientation(At(g, c))
  {
    var piece := At(g, c);
    if IsLocked(piece) {
      var y: Piece := if IsL(piece) then piece & 1 else piece & 3;
      PointOwn(piece);
      assert forall d: nat :: d < 4 && FitsToward(g, c, piece, d) ==> FitsToward(g, c, y, d);
      assert Offered(g, c, y);
    }
  }

  /** Two facing pieces with one opening each have a solution, and inferring refuses every direction of both. */
  lemma PairRefused(g: Grid, c: Coord, x: Piece)
    requires Rectangle(g) && PairOfF(g) && On(g, c)
    ensures !CellFits(g, c, x)
  {
    var piece := Point(At(g, c), x);
    OrientationRange(piece);
    PointKeeps(At(g, c), x);
    var d: nat :| d < 4 && Bit(GetOrientation(piece), d);
    assert CellFits(g, c, x) ==> FitsToward(g, c, x, d);
  }

  /** A cell that can only point one way loses no solution by being locked that way. */
  lemma ForcedLock(g: Grid, c: Coord, x: Piece)
    requires Rectangle(g) && On(g, c) && Consistent(g) && Offered(g, c, x) && OneOffer(g, c)
    ensures Forced(g, Locking(g, c, x)) && Consistent(Locking(g, c, x))
  {
    var g' := Locking(g, c, x);
    LockedTypes(g, c, x);
    LockedSame(g, c, x);
    LockConsistent(g, c, x);
    if PairOfF(g) {
      PairRefused(g, c, x);
    }
    forall s
      ensures IsSolution(g', s) <==> IsSolution(g, s)
    {
      LockedSolutions(g, c, x, s);
      if IsSolution(g, s) {
        var y := SolutionOffered(g, s, c);
        assert Offered(g, c, y);
      }
    }
    forall e | On(g, e) && Settled(g, e)
      ensures Settled(g', e)
    {
      StaysSettled(g, c, x, e);
    }
  }

  /** Where nothing is offered there is nothing to find. */
  lemma NoOffer(g: Grid, c: Coord)
    requires Rectangle(g) && On(g, c) && forall x :: !Offered(g, c, x)
    ensures Hopeless(g)
  {
    forall s | !PairOfF(g)
      ensures !IsSolution(g, s)
    {
      if IsSolution(g, s) {
        var x := SolutionOffered(g, s, c);
        assert Offered(g, c, x);
      }
    }
  }

  /** Among the directions offered, different ones show different openings. */
  lemma DirectionShown(piece: Piece, x: Piece, y: Piece)
    requires x < 4 && y < 4 && (IsL(piece) ==> x < 2 && y < 2)
    requires GetOrientation(Point(piece, x)) == GetOrientation(Point(piece, y))
    ensures x == y
  {
  }

  /** Branching over the offers of a cell splits the solutions among the branches. */
  lemma BranchesShare(g: Grid, c: Coord, s: Openings)
    requires Rectangle(g) && On(g, c) && !PairOfF(g)
    requires IsLocked(At(g, c)) ==> Consistent(g) && OneOffer(g, c)
    ensures IsSolution(g, s) <==> exists x :: Offered(g, c, x) && IsSolution(Locking(g, c, x), s)
    ensures forall x, y :: (Offered(g, c, x) && IsSolution(Locking(g, c, x), s)
                           && Offered(g, c, y) && IsSolution(Locking(g, c, y), s)) ==> x == y
  {
    forall x | Offered(g, c, x)
      ensures IsSolution(Locking(g, c, x), s) <==>
              IsSolution(g, s) && Chosen(g, s, c) == GetOrientation(Point(At(g, c), x))
    {
      if IsLocked(At(g, c)) {
        LockedSame(g, c, x);
      }
      LockedSolutions(g, c, x, s);
    }
    if IsSolution(g, s) {
      var x := SolutionOffered(g, s, c);
      assert Offered(g, c, x);
    }
    forall x, y | x < 4 && y < 4 && (IsL(At(g, c)) ==> x < 2 && y < 2)
                  && GetOrientation(Point(At(g, c), x)) == GetOrientation(Point(At(g, c), y))
      ensures x == y
    {
      DirectionShown(At(g, c), x, y);
    }
  }

  // ---------- cornered cells ----------

  /** Every neighbour of the cell is locked, the cell itself is not. */
  ghost predicate Cornered(g: Grid, c: Coord)
    requires Rectangle(g)
  {
    Unlocked(g, c) && forall d: nat :: d < 4 && On(g, c.Toward(d)) ==> IsLocked(At(g, c.Toward(d)))
  }

  ghost predicate CorneredIn(g: Grid, queue: seq<Coord>)
    requires Rectangle(g)
  {
    forall c :: Cornered(g, c) ==> c in queue
  }

  lemma SameOpenings(a: Sides, b: Sides)
    requires a < 16 && b < 16
    requires Bit(a, 0) == Bit(b, 0) && Bit(a, 1) == Bit(b, 1) && Bit(a, 2) == Bit(b, 2) && Bit(a, 3) == Bit(b, 3)
    ensures a == b
  {
  }

  /** A cornered cell has at most one way to point. */
  lemma CorneredOneOffer(g: Grid, c: Coord)
    requires Rectangle(g) && Cornered(g, c)
    ensures OneOffer(g, c)
  {
    forall x: Piece, y: Piece | Offered(g, c, x) && Offered(g, c, y)
      ensures x == y
    {
      var a, b := GetOrientation(Point(At(g, c), x)), GetOrientation(Point(At(g, c), y));
      forall d: nat | d < 4
        ensures Bit(a, d) == Bit(b, d)
      {
        assert FitsToward(g, c, x, d) && FitsToward(g, c, y, d);
      }
      OrientationRange(Point(At(g, c), x));
      OrientationRange(Point(At(g, c), y));
      SameOpenings(a, b);
      DirectionShown(At(g, c), x, y);
    }
  }

  /** A lock corners no one but the neighbours of the locked cell. */
  lemma NewlyCornered(g: Grid, c: Coord, x: Piece, e: Coord)
    requires Rectangle(g) && On(g, c) && Cornered(Locking(g, c, x), e)
    ensures e != c && (Cornered(g, e) || exists d: nat :: d < 4 && e == c.Toward(d))
  {
    var g' := Locking(g, c, x);
    LockedTypes(g, c, x);
    if forall d: nat :: d < 4 ==> e != c.Toward(d) {
      forall d: nat | d < 4 && On(g, e.Toward(d))
        ensures IsLocked(At(g, e.Toward(d)))
      {
        TowardBack(e, d);
        assert On(g', e.Toward(d));
      }
    }
  }

  /** Once every cell is locked, what the board shows is the only candidate. */
  lemma AllLocked(g: Grid, s: Openings)
    requires Rectangle(g) && IsSolution(g, s) && forall c :: On(g, c) ==> IsLocked(At(g, c))
    ensures LeakFree(g, Shown(g)) && SingleComponent(g, Shown(g))
  {
    var t := Shown(g);
    forall c | On(g, c)
      ensures Chosen(g, t, c) == Chosen(g, s, c)
    {
      assert Allowed(g, s, c);
    }
    assert forall r, k :: 0 <= r < |g| && 0 <= k < |g[0]| ==>
             On(g, Coord(r, k)) && s[r][k] == Chosen(g, s, Coord(r, k));
    forall r | 0 <= r < |g|
      ensures s[r] == t[r]
    {
      forall k | 0 <= k < |g[0]|
        ensures s[r][k] == t[r][k]
      {
        assert Chosen(g, t, Coord(r, k)) == Chosen(g, s, Coord(r, k));
      }
    }
    assert s == t;
  }

  /** What the board shows obeys every piece and lock. */
  lemma ShownIsAllowed(g: Grid)
    requires Rectangle(g) && LeakFree(g, Shown(g)) && SingleComponent(g, Shown(g))
    ensures IsSolution(g, Shown(g))
  {
    forall c | On(g, c)
      ensures Allowed(g, Shown(g), c)
    {
      PointOwn(At(g, c));
      assert Chosen(g, Shown(g), c) == GetOrientation(Point(At(g, c), At(g, c) & 3));
    }
  }

  // ---------- the pair of single openings ----------

  lemma SmallNeighboursSize(h: nat, w: nat)
    requires h * w == 2
    ensures (h == 1 && w == 2) || (h == 2 && w == 1)
  {
    assert w > 0;
    assert h >= 3 ==> h * w >= 3 * w;
  }

  lemma SinglePointing(piece: Piece, d: nat)
    requires IsF(piece) && d < 4
    ensures GetOrientation(Point(piece, d as Piece)) ==
              if d == 0 then 1 else if d == 1 then 2 else if d == 2 then 4 else 8
  {
    assert d == 0 || d == 1 || d == 2 || d == 3;
  }

  lemma PairSolvable(g: Grid) returns (s: Openings)
    requires Rectangle(g) && PairOfF(g) && forall c :: On(g, c) ==> !IsLocked(At(g, c))
    ensures IsSolution(g, s)
  {
    var h, w := |g|, |g[0]|;
    assert (h == 1 && w == 2) || (h == 2 && w == 1) by {
      SmallNeighboursSize(h, w);
    }
    var a, b := Coord(0, 0), if h == 1 then Coord(0, 1) else Coord(1, 0);
    var d: nat := if h == 1 then 0 else 3;
    assert b == a.Toward(d) && a == b.Toward(Opposite(d));
    s := if h == 1 then [[1, 4]] else [[8], [2]];
    assert forall c :: On(g, c) ==> c == a || c == b;
    assert IsF(At(g, a)) && IsF(At(g, b));
    SinglePointing(At(g, a), d);
    SinglePointing(At(g, b), Opposite(d));
    assert Chosen(g, s, a) == GetOrientation(Point(At(g, a), d as Piece));
    assert Chosen(g, s, b) == GetOrientation(Point(At(g, b), Opposite(d) as Piece));
    forall c, e: nat | On(g, c) && e < 4
      ensures Answered(g, s, c, e)
    {
      if c == a {
        assert Bit(Chosen(g, s, a), e) <==> e == d;
      } else {
        assert Bit(Chosen(g, s, b), e) <==> e == Opposite(d);
      }
    }
    assert Linked(g, s, a, b);
    Paths.Refl(Links(g, s), a);
    Paths.Step(Links(g, s), a, b);
  }

  ghost predicate OffersOpenings(g: Grid, c: Coord, openings: Sides)
    requires Rectangle(g) && On(g, c)
  {
    exists x :: Offered(g, c, x) && openings == GetOrientation(Point(At(g, c), x))
  }

  /** Inferring offers every cell the openings that any solution gives it. */
  ghost predicate OffersSolutions(g: Grid)
    requires Rectangle(g)
  {
    forall s: Openings, c: Coord :: IsSolution(g, s) && On(g, c) ==> OffersOpenings(g, c, Chosen(g, s, c))
  }

  /** On boards without locks inferring loses no solution exactly off the pairs of F. */
  lemma LosesOnlyPairs(g: Grid)
    requires Rectangle(g) && forall c :: On(g, c) ==> !IsLocked(At(g, c))
    ensures OffersSolutions(g) <==> !PairOfF(g)
  {
    if PairOfF(g) {
      var s := PairSolvable(g);
      forall x
        ensures !Offered(g, Coord(0, 0), x)
      {
        PairRefused(g, Coord(0, 0), x);
      }
      assert On(g, Coord(0, 0)) && !OffersOpenings(g, Coord(0, 0), Chosen(g, s, Coord(0, 0)));
    } else {
      forall s, c | IsSolution(g, s) && On(g, c)
        ensures OffersOpenings(g, c, Chosen(g, s, c))
      {
        var x := SolutionOffered(g, s, c);
        assert Offered(g, c, x);
      }
    }
  }
}
