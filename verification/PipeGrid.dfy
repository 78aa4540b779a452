/** The board as a mutable array: reading a cell's surroundings, counting leaks around it. */
module PipeGrid {
  import opened PipePiece
  import opened PipeBoard
  import opened PipeCount

  /** One nibble for each side of a cell. */
  function Pack(right: Sides, up: Sides, left: Sides, down: Sides): Sides {
    (up << 4) | (down << 12) | (left << 8) | right
  }

  lemma PackNibbles(right: Sides, up: Sides, left: Sides, down: Sides)
    requires right < 16 && up < 16 && left < 16 && down < 16
    ensures Nibble(Pack(right, up, left, down), 0) == right && Nibble(Pack(right, up, left, down), 1) == up
    ensures Nibble(Pack(right, up, left, down), 2) == left && Nibble(Pack(right, up, left, down), 3) == down
  {
  }

  lemma FacingRange(g: Grid, c: Coord, d: nat)
    requires Rectangle(g) && d < 4
    ensures Facing(g, c, d) < 16
  {
    if On(g, c.Toward(d)) {
      OrientationRange(At(g, c.Toward(d)));
      InvertBits(GetOrientation(At(g, c.Toward(d))), 0);
    }
  }

  lemma PackedLocks(g: Grid, c: Coord, locked: Sides)
    requires Rectangle(g)
    requires locked ==
               Pack(LockAt(g, c.Toward(0)), LockAt(g, c.Toward(1)), LockAt(g, c.Toward(2)), LockAt(g, c.Toward(3)))
    ensures forall d: nat :: d < 4 ==> Nibble(locked, d) == LockAt(g, c.Toward(d))
  {
    PackNibbles(LockAt(g, c.Toward(0)), LockAt(g, c.Toward(1)), LockAt(g, c.Toward(2)), LockAt(g, c.Toward(3)));
  }

  lemma PackedEmpty(g: Grid, c: Coord, empty: Sides)
    requires Rectangle(g)
    requires empty ==
               Pack(EmptyAt(g, c.Toward(0)), EmptyAt(g, c.Toward(1)), EmptyAt(g, c.Toward(2)), EmptyAt(g, c.Toward(3)))
    ensures forall d: nat :: d < 4 ==> Nibble(empty, d) == EmptyAt(g, c.Toward(d))
  {
    PackNibbles(EmptyAt(g, c.Toward(0)), EmptyAt(g, c.Toward(1)), EmptyAt(g, c.Toward(2)), EmptyAt(g, c.Toward(3)));
  }

  method PackFacing(ghost g: Grid, ghost c: Coord, right: Sides, up: Sides, left: Sides, down: Sides)
    returns (ori: Sides)
    requires Rectangle(g)
    requires right == Facing(g, c, 0) && up == Facing(g, c, 1) && left == Facing(g, c, 2) && down == Facing(g, c, 3)
    ensures forall d: nat :: d < 4 ==> Nibble(ori, d) == Facing(g, c, d)
  {
    forall d: nat | d < 4
      ensures Facing(g, c, d) < 16
    {
      FacingRange(g, c, d);
    }
    PackNibbles(right, up, left, down);
    ori := Pack(right, up, left, down);
  }

  lemma SameCells(g: Grid, h: Grid)
    requires Rectangle(g) && Rectangle(h) && |g| == |h| && |g[0]| == |h[0]|
    requires forall c :: On(g, c) ==> At(g, c) == At(h, c)
    ensures g == h
  {
    forall r | 0 <= r < |g|
      ensures g[r] == h[r]
    {
      forall k | 0 <= k < |g[0]|
        ensures g[r][k] == h[r][k]
      {
        assert At(g, Coord(r, k)) == At(h, Coord(r, k));
      }
    }
  }

  class Board {
    const board: array2<Piece>

    ghost predicate Valid() {
      board.Length0 > 0 && board.Length1 > 0
    }

    ghost function Grid(): (g: Grid)
      requires Valid()
      reads board
      ensures Rectangle(g) && |g| == board.Length0 && |g[0]| == board.Length1
      ensures forall r, k :: 0 <= r < board.Length0 && 0 <= k < board.Length1 ==> At(g, Coord(r, k)) == board[r, k]
    {
      seq(board.Length0, r requires 0 <= r < board.Length0 reads board =>
        seq(board.Length1, k requires 0 <= k < board.Length1 reads board => board[r, k]))
    }

    constructor (cells: array2<Piece>)
      ensures board == cells
    {
      board := cells;
    }

    method GetValue(row: int, col: int) returns (piece: Piece)
      requires Valid() && On(Grid(), Coord(row, col))
      ensures piece == At(Grid(), Coord(row, col))
    {
      piece := board[row, col];
    }

    method SetValue(row: int, col: int, piece: Piece)
      requires Valid() && On(Grid(), Coord(row, col))
      modifies board
      ensures Grid() == Update(old(Grid()), Coord(row, col), piece)
    {
      ghost var g := Grid();
      board[row, col] := piece;
      SameCells(Grid(), Update(g, Coord(row, col), piece));
    }

    /** The inverted openings of the neighbour toward d, none past the border. */
    method InvOrientationToward(row: int, col: int, d: nat) returns (ori: Sides)
      requires Valid() && d < 4
      ensures ori == Facing(Grid(), Coord(row, col), d)
    {
      var e := Coord(row, col).Toward(d);
      if 0 <= e.row < board.Length0 && 0 <= e.col < board.Length1 {
        ori := InvertOrientation(GetOrientation(board[e.row, e.col]));
      } else {
        ori := 0;
      }
    }

    method GetNeighbourOrientations(row: int, col: int) returns (ori: Sides)
      requires Valid() && On(Grid(), Coord(row, col))
      ensures forall d: nat :: d < 4 ==> Nibble(ori, d) == Facing(Grid(), Coord(row, col), d)
    {
      var up := InvOrientationToward(row, col, 1);
      var down := InvOrientationToward(row, col, 3);
      var left := InvOrientationToward(row, col, 2);
      var right := InvOrientationToward(row, col, 0);
      ori := PackFacing(Grid(), Coord(row, col), right, up, left, down);
    }

    function LockStatusAt(row: int, col: int): (locked: Sides)
      requires Valid()
      reads board
      ensures locked == LockAt(Grid(), Coord(row, col))
    {
      if 0 <= row < board.Length0 && 0 <= col < board.Length1 then LockStatus(board[row, col]) else 0
    }

    function Missing(row: int, col: int): (empty: Sides)
      requires Valid()
      reads board
      ensures empty == EmptyAt(Grid(), Coord(row, col))
    {
      if 0 <= row < board.Length0 && 0 <= col < board.Length1 then 0 else 0xF
    }

    method GetNeighbourLocks(row: int, col: int) returns (locked: Sides)
      requires Valid()
      ensures forall d: nat :: d < 4 ==> Nibble(locked, d) == LockAt(Grid(), Coord(row, col).Toward(d))
    {
      locked := Pack(LockStatusAt(row, col + 1), LockStatusAt(row - 1, col), LockStatusAt(row, col - 1),
                     LockStatusAt(row + 1, col));
      PackedLocks(Grid(), Coord(row, col), locked);
    }

    method GetMissingNeighbours(row: int, col: int) returns (empty: Sides)
      requires Valid()
      ensures forall d: nat :: d < 4 ==> Nibble(empty, d) == EmptyAt(Grid(), Coord(row, col).Toward(d))
    {
      empty := Pack(Missing(row, col + 1), Missing(row - 1, col), Missing(row, col - 1), Missing(row + 1, col));
      PackedEmpty(Grid(), Coord(row, col), empty);
    }

    /** The neighbours' inverted openings, which of them are locked, and which are missing. */
    method GetNeighbourInfo(row: int, col: int) returns (ori: Sides, locked: Sides, empty: Sides)
      requires Valid() && On(Grid(), Coord(row, col))
      ensures Describes(Grid(), Coord(row, col), ori, locked, empty)
    {
      ori := GetNeighbourOrientations(row, col);
      locked := GetNeighbourLocks(row, col);
      empty := GetMissingNeighbours(row, col);
    }

    /** The leaks of the piece at a place, none past the border. */
    method ConnectionsLeftAt(c: Coord) returns (n: int)
      requires Valid()
      ensures n == LeftAt(Grid(), c)
    {
      if 0 <= c.row < board.Length0 && 0 <= c.col < board.Length1 {
        var ori := GetNeighbourOrientations(c.row, c.col);
        n := ConnectionsLeft(board[c.row, c.col], ori);
        CountedLeft(Grid(), c, ori);
      } else {
        n := 0;
      }
    }

    /** The leaks of a cell and of its neighbours on the board. */
    method ConnectionsLeftInNeighbourhood(row: int, col: int) returns (connsLeft: int)
      requires Valid() && On(Grid(), Coord(row, col))
      ensures connsLeft == Left(Grid(), Around(Grid(), Coord(row, col)))
    {
      var c := Coord(row, col);
      connsLeft := ConnectionsLeftAt(c);
      var up := ConnectionsLeftAt(c.Toward(1));
      var down := ConnectionsLeftAt(c.Toward(3));
      var left := ConnectionsLeftAt(c.Toward(2));
      var right := ConnectionsLeftAt(c.Toward(0));
      connsLeft := connsLeft + up + down + left + right;
      LeftAround(Grid(), c);
    }
  }
}
