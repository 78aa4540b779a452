/** The leak counter as a sum over cells, and how far one changed cell can move it. */
module PipeCount {
  import opened PipePiece
  import opened PipeBoard

  ghost function SideLeft(g: Grid, c: Coord, d: nat): nat
    requires Rectangle(g) && On(g, c) && d < 4
  {
    One(Bit(GetOrientation(At(g, c)), d) && !PointedAt(g, c, d))
  }

  /** The openings of c that lead nowhere or meet a closed side. */
  ghost function CellLeft(g: Grid, c: Coord): nat
    requires Rectangle(g) && On(g, c)
  {
    SideLeft(g, c, 0) + SideLeft(g, c, 1) + SideLeft(g, c, 2) + SideLeft(g, c, 3)
  }

  ghost function Cells(g: Grid): (cells: set<Coord>)
    requires Rectangle(g)
    ensures forall c :: c in cells <==> On(g, c)
  {
    set r, k | 0 <= r < |g| && 0 <= k < |g[0]| :: Coord(r, k)
  }

  ghost function Left(g: Grid, cells: set<Coord>): nat
    requires Rectangle(g) && cells <= Cells(g)
  {
    if cells == {} then 0 else
      var c :| c in cells;
      CellLeft(g, c) + Left(g, cells - {c})
  }

  /** The full recount over the board. */
  ghost function TotalLeft(g: Grid): nat
    requires Rectangle(g)
  {
    Left(g, Cells(g))
  }

  lemma {:induction false} Remove(g: Grid, cells: set<Coord>, c: Coord)
    requires Rectangle(g) && cells <= Cells(g) && c in cells
    ensures Left(g, cells) == CellLeft(g, c) + Left(g, cells - {c})
    decreases |cells|
  {
    var x :| x in cells && Left(g, cells) == CellLeft(g, x) + Left(g, cells - {x});
    if x != c {
      Remove(g, cells - {x}, c);
      Remove(g, cells - {c}, x);
      assert cells - {x} - {c} == cells - {c} - {x};
    }
  }

  lemma {:induction false} Split(g: Grid, cells: set<Coord>, part: set<Coord>)
    requires Rectangle(g) && cells <= Cells(g) && part <= cells
    ensures Left(g, cells) == Left(g, part) + Left(g, cells - part)
    decreases |part|
  {
    if part == {} {
      assert cells - part == cells;
    } else {
      var c :| c in part;
      Remove(g, cells, c);
      Remove(g, part, c);
      Split(g, cells - {c}, part - {c});
      assert cells - {c} - (part - {c}) == cells - part;
    }
  }

  lemma {:induction false} SameLeft(g: Grid, g': Grid, cells: set<Coord>)
    requires Rectangle(g) && Rectangle(g') && cells <= Cells(g) && cells <= Cells(g')
    requires forall c :: c in cells ==> CellLeft(g', c) == CellLeft(g, c)
    ensures Left(g', cells) == Left(g, cells)
    decreases |cells|
  {
    if cells != {} {
      var c :| c in cells;
      Remove(g, cells, c);
      Remove(g', cells, c);
      SameLeft(g, g', cells - {c});
    }
  }

  lemma {:induction false} ZeroLeft(g: Grid, cells: set<Coord>)
    requires Rectangle(g) && cells <= Cells(g)
    ensures Left(g, cells) == 0 <==> forall c :: c in cells ==> CellLeft(g, c) == 0
    decreases |cells|
  {
    if cells != {} {
      var c :| c in cells;
      Remove(g, cells, c);
      ZeroLeft(g, cells - {c});
    }
  }

  lemma CellAnswered(g: Grid, c: Coord)
    requires Rectangle(g) && On(g, c)
    ensures CellLeft(g, c) == 0 <==> forall d: nat :: d < 4 ==> Answered(g, Shown(g), c, d)
  {
    forall d: nat | d < 4
      ensures SideLeft(g, c, d) == 0 <==> Answered(g, Shown(g), c, d)
    {
    }
    assert CellLeft(g, c) == 0 <==>
           SideLeft(g, c, 0) == 0 && SideLeft(g, c, 1) == 0 && SideLeft(g, c, 2) == 0 && SideLeft(g, c, 3) == 0;
  }

  /** The counter is zero exactly when no opening leaks. */
  lemma NothingLeft(g: Grid)
    requires Rectangle(g)
    ensures TotalLeft(g) == 0 <==> LeakFree(g, Shown(g))
  {
    ZeroLeft(g, Cells(g));
    forall c | On(g, c)
      ensures CellLeft(g, c) == 0 <==> forall d: nat :: d < 4 ==> Answered(g, Shown(g), c, d)
    {
      CellAnswered(g, c);
    }
  }

  // ---------- one changed cell ----------

  /** A cell and its neighbours on the board. */
  ghost function Around(g: Grid, c: Coord): (near: set<Coord>)
    requires Rectangle(g) && On(g, c)
    ensures near <= Cells(g)
    ensures forall x :: x in near <==> x == c || (On(g, x) && exists d: nat :: d < 4 && x == c.Toward(d))
  {
    var all := {c, c.Toward(0), c.Toward(1), c.Toward(2), c.Toward(3)};
    assert forall d: nat :: d < 4 ==> c.Toward(d) in all;
    set x | x in all && On(g, x)
  }

  /** Only the changed cell and its neighbours can leak differently. */
  lemma FarCell(g: Grid, c: Coord, piece: Piece, x: Coord)
    requires Rectangle(g) && On(g, c) && On(g, x) && x !in Around(g, c)
    ensures CellLeft(Update(g, c, piece), x) == CellLeft(g, x)
  {
    forall d: nat | d < 4
      ensures SideLeft(Update(g, c, piece), x, d) == SideLeft(g, x, d)
    {
      TowardBack(x, d);
    }
  }

  /** Recounting the surroundings of the changed cell is enough to keep the counter exact. */
  lemma RecountAround(g: Grid, c: Coord, piece: Piece)
    requires Rectangle(g) && On(g, c)
    ensures Around(Update(g, c, piece), c) == Around(g, c)
    ensures TotalLeft(Update(g, c, piece)) ==
              TotalLeft(g) + Left(Update(g, c, piece), Around(g, c)) - Left(g, Around(g, c))
  {
    var g' := Update(g, c, piece);
    var near := Around(g, c);
    assert Cells(g') == Cells(g);
    Split(g, Cells(g), near);
    Split(g', Cells(g), near);
    forall x | x in Cells(g) - near
      ensures CellLeft(g', x) == CellLeft(g, x)
    {
      FarCell(g, c, piece, x);
    }
    SameLeft(g, g', Cells(g) - near);
  }

  ghost function LeftAt(g: Grid, c: Coord): nat
    requires Rectangle(g)
  {
    if On(g, c) then CellLeft(g, c) else 0
  }

  ghost function WithToward(g: Grid, c: Coord, d: nat, cells: set<Coord>): set<Coord>
    requires Rectangle(g) && d < 4
  {
    if On(g, c.Toward(d)) then cells + {c.Toward(d)} else cells
  }

  lemma AddToward(g: Grid, c: Coord, d: nat, cells: set<Coord>)
    requires Rectangle(g) && d < 4 && cells <= Cells(g) && c.Toward(d) !in cells
    ensures WithToward(g, c, d, cells) <= Cells(g)
    ensures Left(g, WithToward(g, c, d, cells)) == Left(g, cells) + LeftAt(g, c.Toward(d))
  {
    var e := c.Toward(d);
    if On(g, e) {
      Remove(g, cells + {e}, e);
      assert cells + {e} - {e} == cells;
    }
  }

  lemma AroundGrown(g: Grid, c: Coord)
    requires Rectangle(g) && On(g, c)
    ensures Around(g, c) == WithToward(g, c, 0, WithToward(g, c, 2, WithToward(g, c, 3, WithToward(g, c, 1, {c}))))
  {
  }

  /** The leaks around a cell are those of the cell and of its four neighbours. */
  lemma LeftAround(g: Grid, c: Coord)
    requires Rectangle(g) && On(g, c)
    ensures Left(g, Around(g, c))
            == LeftAt(g, c) + LeftAt(g, c.Toward(1)) + LeftAt(g, c.Toward(3)) + LeftAt(g, c.Toward(2)) +
              LeftAt(g, c.Toward(0))
  {
    Remove(g, {c}, c);
    assert {c} - {c} == {};
    AroundGrown(g, c);
    AddToward(g, c, 1, {c});
    var up := WithToward(g, c, 1, {c});
    AddToward(g, c, 3, up);
    var down := WithToward(g, c, 3, up);
    AddToward(g, c, 2, down);
    AddToward(g, c, 0, WithToward(g, c, 2, down));
  }

  /** The leak count of one cell is what its piece and its neighbours' openings give. */
  lemma CountedLeft(g: Grid, c: Coord, neighbours: Sides)
    requires Rectangle(g) && On(g, c)
    requires forall d: nat :: d < 4 ==> Nibble(neighbours, d) == Facing(g, c, d)
    ensures ConnectionsLeft(At(g, c), neighbours) == CellLeft(g, c)
  {
    LeftBySides(At(g, c), neighbours);
    forall d: nat | d < 4
      ensures Unanswered(At(g, c), neighbours, d) == SideLeft(g, c, d)
    {
      DescribedPointing(g, c, neighbours, d);
    }
  }

  // ---------- the number of cells ----------

  ghost function Row(r: int, w: nat): (cells: set<Coord>)
    ensures forall c :: c in cells <==> c.row == r && 0 <= c.col < w
  {
    set k | 0 <= k < w :: Coord(r, k)
  }

  lemma {:induction false} CountRow(r: int, w: nat)
    ensures |Row(r, w)| == w
  {
    if w > 0 {
      CountRow(r, w - 1);
      assert Row(r, w) == Row(r, w - 1) + {Coord(r, w - 1)};
    } else {
      assert Row(r, w) == {};
    }
  }

  lemma {:induction false} CountRectangle(h: nat, w: nat, cells: set<Coord>)
    requires forall c :: c in cells <==> 0 <= c.row < h && 0 <= c.col < w
    ensures |cells| == h * w
  {
    if h == 0 {
      assert cells == {};
    } else {
      CountRectangle(h - 1, w, cells - Row(h - 1, w));
      CountRow(h - 1, w);
      assert cells == cells - Row(h - 1, w) + Row(h - 1, w);
      assert h * w == (h - 1) * w + w;
    }
  }

  lemma CountCells(g: Grid)
    requires Rectangle(g)
    ensures |Cells(g)| == |g| * |g[0]|
  {
    CountRectangle(|g|, |g[0]|, Cells(g));
  }
}
