/** Walking along the openings of a leak-free board, marking every piece once. */
module PipeSpread {
  import opened Paths
  import opened PipePiece
  import opened PipeBoard
  import opened PipeCount
  import opened PipeGrid

  ghost predicate Unmarked(g: Grid)
    requires Rectangle(g)
  {
    forall c :: On(g, c) ==> !IsMarked(At(g, c))
  }

  /** `gm` is g with marks on exactly the cells in `marked`. */
  ghost predicate Paints(g: Grid, gm: Grid, marked: set<Coord>)
    requires Rectangle(g) && Rectangle(gm)
  {
    && |gm| == |g| && |gm[0]| == |g[0]|
    && forall c :: On(g, c) ==> At(gm, c) == if c in marked then Mark(At(g, c)) else At(g, c)
  }

  /** What has been marked and what still waits, while walking from the first cell. */
  ghost predicate Spreads(g: Grid, marked: set<Coord>, queue: seq<Coord>)
    requires Rectangle(g)
  {
    var links := Links(g, Shown(g));
    && marked <= Cells(g) && (forall c :: c in queue ==> On(g, c))
    && (forall c :: c in marked || c in queue ==> Reach(links, Coord(0, 0), c))
    && (Coord(0, 0) in marked || Coord(0, 0) in queue)
    && (forall c, d: nat :: c in marked && d < 4 && Bit(GetOrientation(At(g, c)), d) ==>
        c.Toward(d) in marked || c.Toward(d) in queue)
  }

  lemma SpreadStart(g: Grid)
    requires Rectangle(g)
    ensures Spreads(g, {}, [Coord(0, 0)])
  {
    Refl(Links(g, Shown(g)), Coord(0, 0));
  }

  lemma SpreadSkip(g: Grid, marked: set<Coord>, queue: seq<Coord>)
    requires Rectangle(g) && Spreads(g, marked, queue) && queue != [] && queue[0] in marked
    ensures Spreads(g, marked, queue[1..])
  {
    assert queue == [queue[0]] + queue[1..];
  }

  ghost predicate LeadsTo(ori: Sides, c: Coord, e: Coord) {
    exists d: nat :: d < 4 && Bit(ori, d) && e == c.Toward(d)
  }

  /** The unmarked neighbours that the openings of c lead to. */
  ghost predicate LedTo(g: Grid, marked: set<Coord>, c: Coord, more: seq<Coord>)
    requires Rectangle(g) && On(g, c)
  {
    && (forall e :: e in more ==> LeadsTo(GetOrientation(At(g, c)), c, e))
    && (forall d: nat :: d < 4 && Bit(GetOrientation(At(g, c)), d) ==> c.Toward(d) in marked || c.Toward(d) in more)
  }

  lemma SpreadStep(g: Grid, marked: set<Coord>, queue: seq<Coord>, more: seq<Coord>)
    requires Rectangle(g) && LeakFree(g, Shown(g)) && Spreads(g, marked, queue) && queue != []
    requires LedTo(g, marked + {queue[0]}, queue[0], more)
    ensures Spreads(g, marked + {queue[0]}, queue[1..] + more)
  {
    var c, links := queue[0], Links(g, Shown(g));
    assert queue == [c] + queue[1..];
    forall e | e in more
      ensures On(g, e) && Reach(links, Coord(0, 0), e)
    {
      var d: nat :| d < 4 && Bit(GetOrientation(At(g, c)), d) && e == c.Toward(d);
      assert Answered(g, Shown(g), c, d);
      assert Linked(g, Shown(g), c, e);
      Step(links, c, e);
      Trans(links, Coord(0, 0), c, e);
    }
  }

  /** When nothing waits any more, everything is marked exactly if the pipes form one component. */
  lemma SpreadEnd(g: Grid, marked: set<Coord>)
    requires Rectangle(g) && LeakFree(g, Shown(g)) && Spreads(g, marked, [])
    ensures |marked| == |g| * |g[0]| <==> SingleComponent(g, Shown(g))
    ensures |marked| == |g| * |g[0]| ==> marked == Cells(g)
  {
    var links := Links(g, Shown(g));
    CountCells(g);
    assert |Cells(g) - marked| == |Cells(g)| - |marked|;
    assert |marked| == |g| * |g[0]| <==> marked == Cells(g);
    if SingleComponent(g, Shown(g)) {
      var inside := iset c | c in marked;
      forall c | On(g, c)
        ensures c in marked
      {
        Paths.Closed(links, inside, Coord(0, 0), c);
      }
    }
  }

  lemma MarkedLooks(g: Grid, gm: Grid, marked: set<Coord>, c: Coord)
    requires Rectangle(g) && Rectangle(gm) && Unmarked(g) && Paints(g, gm, marked) && On(g, c)
    ensures GetOrientation(At(gm, c)) == GetOrientation(At(g, c))
    ensures IsMarked(At(gm, c)) <==> c in marked
  {
    MarkKeeps(At(g, c));
  }

  /** Marks change neither what a board shows nor which openings solve it. */
  lemma MarksShow(g: Grid, gm: Grid, marked: set<Coord>)
    requires Rectangle(g) && Rectangle(gm) && Paints(g, gm, marked)
    ensures Shown(gm) == Shown(g)
  {
    forall r, k | 0 <= r < |g| && 0 <= k < |g[0]|
      ensures Shown(gm)[r][k] == Shown(g)[r][k]
    {
      assert On(g, Coord(r, k));
      MarkKeeps(At(g, Coord(r, k)));
      assert Chosen(gm, Shown(gm), Coord(r, k)) == Chosen(g, Shown(g), Coord(r, k));
    }
    assert forall r :: 0 <= r < |g| ==> Shown(gm)[r] == Shown(g)[r];
  }

  method MarkedAt(b: Board, c: Coord, ghost g: Grid, ghost marked: set<Coord>) returns (m: bool)
    requires b.Valid() && Rectangle(g) && Unmarked(g) && Paints(g, b.Grid(), marked) && On(g, c)
    ensures m <==> c in marked
  {
    var piece := b.GetValue(c.row, c.col);
    m := IsMarked(piece);
    MarkedLooks(g, b.Grid(), marked, c);
  }

  /** The unmarked neighbours that the piece at c opens to: right, up, left, down. */
  method Ahead(b: Board, c: Coord, ori: Sides, ghost g: Grid, ghost marked: set<Coord>) returns (more: seq<Coord>)
    requires b.Valid() && Rectangle(g) && Unmarked(g) && Paints(g, b.Grid(), marked)
    requires On(g, c) && ori == GetOrientation(At(g, c)) && LeakFree(g, Shown(g))
    ensures LedTo(g, marked, c, more)
  {
    more := [];
    for d := 0 to 4
      invariant forall e :: e in more ==> LeadsTo(ori, c, e)
      invariant forall e: nat :: e < d && Bit(ori, e) ==> c.Toward(e) in marked || c.Toward(e) in more
    {
      if Bit(ori, d) {
        assert Answered(g, Shown(g), c, d);
        var m := MarkedAt(b, c.Toward(d), g, marked);
        if !m {
          more := more + [c.Toward(d)];
        }
      }
    }
  }

  /** Marks the next cell of the queue and lets the cells it leads to wait. */
  method MarkNext(b: Board, queue: seq<Coord>, ghost g: Grid, ghost marked: set<Coord>) returns (rest: seq<Coord>)
    requires b.Valid() && Rectangle(g) && Unmarked(g) && Paints(g, b.Grid(), marked) && LeakFree(g, Shown(g))
    requires Spreads(g, marked, queue) && queue != [] && queue[0] !in marked
    modifies b.board
    ensures Paints(g, b.Grid(), marked + {queue[0]}) && Spreads(g, marked + {queue[0]}, rest)
  {
    var curr := queue[0];
    var piece := b.GetValue(curr.row, curr.col);
    b.SetValue(curr.row, curr.col, Mark(piece));
    var more := Ahead(b, curr, GetOrientation(piece), g, marked + {curr});
    SpreadStep(g, marked, queue, more);
    rest := queue[1..] + more;
  }

  /** The walk of the goal test over a board without leaks; it counts the pieces it marks. */
  method MarkConnected(b: Board, ghost g: Grid) returns (done: nat, ghost marked: set<Coord>)
    requires b.Valid() && g == b.Grid() && Unmarked(g) && LeakFree(g, Shown(g))
    modifies b.board
    ensures Paints(g, b.Grid(), marked) && done == |marked|
    ensures done == |g| * |g[0]| <==> SingleComponent(g, Shown(g))
    ensures done == |g| * |g[0]| ==> marked == Cells(g)
  {
    done, marked := 0, {};
    var queue := [Coord(0, 0)];
    SpreadStart(g);
    while queue != []
      invariant Paints(g, b.Grid(), marked) && done == |marked|
      invariant Spreads(g, marked, queue)
      decreases Cells(g) - marked, |queue|
    {
      var curr := queue[0];
      var m := MarkedAt(b, curr, g, marked);
      if m {
        SpreadSkip(g, marked, queue);
        queue := queue[1..];
      } else {
        assert curr in Cells(g) - marked;
        queue := MarkNext(b, queue, g, marked);
        done, marked := done + 1, marked + {curr};
      }
    }
    SpreadEnd(g, marked);
  }

  lemma UnmarkedBack(piece: Piece)
    requires !IsMarked(piece)
    ensures Unmark(piece) == piece && Unmark(Mark(piece)) == piece
  {
  }

  /** Takes every mark off. */
  method UnmarkAll(b: Board, ghost g: Grid, ghost marked: set<Coord>)
    requires b.Valid() && Rectangle(g) && Unmarked(g) && Paints(g, b.Grid(), marked)
    modifies b.board
    ensures b.Grid() == g
  {
    for i := 0 to b.board.Length0
      invariant Paints(g, b.Grid(), set c | c in marked && c.row >= i)
    {
      for j := 0 to b.board.Length1
        invariant Paints(g, b.Grid(), set c | c in marked && (c.row > i || (c.row == i && c.col >= j)))
      {
        var piece := b.GetValue(i, j);
        UnmarkedBack(At(g, Coord(i, j)));
        b.SetValue(i, j, Unmark(piece));
      }
    }
    SameCells(b.Grid(), g);
  }
}
