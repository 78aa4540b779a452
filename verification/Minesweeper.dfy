/** The minesweeper field: clearing a cell spreads over the region without adjacent mines. */
module Minesweeper {
  import opened Paths

  /** Columns A to Z are numbered 1 to 26. */
  datatype Coordinate = Coordinate(column: int, line: int)

  const LAST_COLUMN := 26
  const LAST_LINE := 99

  predicate IsCoordinate(c: Coordinate) { 1 <= c.column <= LAST_COLUMN && 1 <= c.line <= LAST_LINE }

  datatype State = Covered | Cleared | Flagged

  datatype Parcel = Parcel(state: State, mine: bool)

  type Cells = map<Coordinate, Parcel>

  predicate Adjacent(a: Coordinate, b: Coordinate) {
    a != b && -1 <= a.column - b.column <= 1 && -1 <= a.line - b.line <= 1
  }

  /** Where a neighbour of c stands, counted clockwise from the upper left one. */
  function Bearing(x: Coordinate, c: Coordinate): int {
    if x.line < c.line then x.column - c.column + 1
    else if x.line == c.line then if x.column > c.column then 3 else 7
    else 5 - (x.column - c.column)
  }

  ghost predicate Clockwise(near: seq<Coordinate>, c: Coordinate) {
    forall i, j :: 0 <= i < j < |near| ==> Bearing(near[i], c) < Bearing(near[j], c)
  }

  lemma NextAround(near: seq<Coordinate>, c: Coordinate, x: Coordinate)
    requires Clockwise(near, c) && forall y :: y in near ==> Bearing(y, c) < Bearing(x, c)
    ensures Clockwise(near + [x], c)
  {
    hide Bearing;
    assert forall i :: 0 <= i < |near| ==> near[i] in near;
  }

  lemma ClockwiseOnce(near: seq<Coordinate>, c: Coordinate, i: nat)
    requires Clockwise(near, c) && i < |near|
    ensures near[i] !in near[..i]
  {
    hide Bearing;
    assert forall j :: 0 <= j < i ==> Bearing(near[j], c) < Bearing(near[i], c);
  }

  lemma OneAtBearing(x: Coordinate, y: Coordinate, c: Coordinate)
    requires Adjacent(x, c) && Adjacent(y, c) && Bearing(x, c) == Bearing(y, c)
    ensures x == y
  {
  }

  /** The neighbours that come before bearing k have been listed. */
  ghost predicate Listed(near: seq<Coordinate>, c: Coordinate, k: int) {
    && Clockwise(near, c)
    && forall x :: x in near <==> Adjacent(x, c) && IsCoordinate(x) && Bearing(x, c) < k
  }

  lemma AllListed(near: seq<Coordinate>, c: Coordinate)
    requires Listed(near, c, 8)
    ensures Clockwise(near, c) && forall x :: x in near <==> Adjacent(x, c) && IsCoordinate(x)
  {
  }

  /** The candidate is added unless it lies outside the alphabet or the numbers of lines. */
  method AddNeighbour(near: seq<Coordinate>, c: Coordinate, x: Coordinate, ghost k: int) returns (more: seq<Coordinate>)
    requires Listed(near, c, k) && Adjacent(x, c) && Bearing(x, c) == k
    ensures Listed(more, c, k + 1)
  {
    more := near;
    forall y | Adjacent(y, c) && Bearing(y, c) == k
      ensures y == x
    {
      OneAtBearing(x, y, c);
    }
    if IsCoordinate(x) {
      NextAround(near, c, x);
      more := near + [x];
    }
  }

  /** The neighbours of a coordinate, clockwise from the upper left one. */
  method Neighbours(c: Coordinate) returns (near: seq<Coordinate>)
    ensures forall x :: x in near <==> Adjacent(x, c) && IsCoordinate(x)
    ensures Clockwise(near, c)
  {
    near := [];
    assert Listed(near, c, 0);
    hide Listed, Clockwise;
    for i := -1 to 2
      invariant Listed(near, c, i + 1)
    {
      near := AddNeighbour(near, c, Coordinate(c.column + i, c.line - 1), i + 1);
    }
    near := AddNeighbour(near, c, Coordinate(c.column + 1, c.line), 3);
    for i := 2 downto -1
      invariant Listed(near, c, 6 - i)
    {
      near := AddNeighbour(near, c, Coordinate(c.column + i, c.line + 1), 5 - i);
    }
    near := AddNeighbour(near, c, Coordinate(c.column - 1, c.line), 7);
    AllListed(near, c);
  }

  // ---------- what clearing a cell reveals ----------

  ghost predicate Mined(cells: Cells, c: Coordinate) { c in cells && cells[c].mine }

  /** No neighbour on the field hides a mine. */
  ghost predicate Quiet(cells: Cells, c: Coordinate) {
    forall x :: Adjacent(x, c) ==> !Mined(cells, x)
  }

  ghost predicate IsCleared(cells: Cells, c: Coordinate) { c in cells && cells[c].state.Cleared? }

  /** Clearing spreads from an unmined cell without adjacent mines to each covered neighbour. */
  ghost predicate Spreads(cells: Cells, a: Coordinate, b: Coordinate) {
    && a in cells && !cells[a].mine && Quiet(cells, a)
    && Adjacent(b, a) && b in cells && cells[b].state.Covered?
  }

  ghost function Spread(cells: Cells): iset<(Coordinate, Coordinate)> {
    iset e: (Coordinate, Coordinate) | Spreads(cells, e.0, e.1)
  }

  /** Some cells were cleared, nothing else changed. */
  ghost predicate OnlyCleared(cells: Cells, cells': Cells) {
    && cells'.Keys == cells.Keys
    && forall c :: c in cells ==> cells'[c] == cells[c] || cells'[c] == Parcel(Cleared, cells[c].mine)
  }

  /** Exactly the cells that clearing p reveals were cleared. */
  ghost predicate Reveals(cells: Cells, cells': Cells, p: Coordinate) {
    && OnlyCleared(cells, cells')
    && forall c :: c in cells ==>
         (IsCleared(cells', c) <==> IsCleared(cells, c) || (!IsCleared(cells, p) && Reach(Spread(cells), p, c)))
  }

  lemma OnlyClearedTwice(a: Cells, b: Cells, c: Cells)
    requires OnlyCleared(a, b) && OnlyCleared(b, c)
    ensures OnlyCleared(a, c)
  {
    assert forall x :: x in a ==> x in b;
  }

  /** The more is cleared, the less there is to spread to. */
  lemma SpreadShrinks(cells: Cells, cells': Cells, a: Coordinate, b: Coordinate)
    requires OnlyCleared(cells, cells')
    ensures Spreads(cells', a, b) <==> Spreads(cells, a, b) && !IsCleared(cells', b)
  {
    assert forall x :: x in cells ==> x in cells';
    assert forall x :: Mined(cells', x) <==> Mined(cells, x);
  }

  lemma {:induction false} PathShrinks(cells: Cells, cells': Cells, p: seq<Coordinate>)
    requires OnlyCleared(cells, cells') && IsPath(Spread(cells'), p)
    ensures IsPath(Spread(cells), p)
  {
    forall i | 0 <= i < |p| - 1
      ensures Hop(Spread(cells), p, i)
    {
      assert Hop(Spread(cells'), p, i);
      SpreadShrinks(cells, cells', p[i], p[i + 1]);
    }
  }

  lemma ReachShrinks(cells: Cells, cells': Cells, a: Coordinate, b: Coordinate)
    requires OnlyCleared(cells, cells') && Reach(Spread(cells'), a, b)
    ensures Reach(Spread(cells), a, b)
  {
    var p :| Joins(Spread(cells'), p, a, b);
    PathShrinks(cells, cells', p);
    assert Joins(Spread(cells), p, a, b);
  }

  ghost predicate Differs(x: Coordinate, c: Coordinate) { x != c }

  /** A mine is revealed only where the clearing starts. */
  lemma MineOnlyAtStart(cells: Cells, p: Coordinate, c: Coordinate)
    requires Reach(Spread(cells), p, c) && c != p
    ensures c in cells && !cells[c].mine && cells[c].state.Covered?
  {
    var a, b := Exit(Spread(cells), (iset x: Coordinate | Differs(x, c)), p, c);
  }

  // ---------- the recursion ----------

  /** What the recursive calls have done so far for the call on p: every newly cleared cell follows from p,
      and whatever follows from those other than p is cleared as well. */
  ghost predicate Underway(cells: Cells, now: Cells, p: Coordinate) {
    && OnlyCleared(cells, now) && IsCleared(now, p)
    && (forall c :: IsCleared(now, c) && !IsCleared(cells, c) ==> Reach(Spread(cells), p, c))
    && (forall a, b :: IsCleared(now, a) && !IsCleared(cells, a) && a != p && Spreads(cells, a, b) ==>
        IsCleared(now, b))
  }

  lemma Started(cells: Cells, p: Coordinate)
    requires p in cells && !IsCleared(cells, p)
    ensures Underway(cells, cells[p := Parcel(Cleared, cells[p].mine)], p)
  {
    Refl(Spread(cells), p);
  }

  /** A recursive call on a neighbour n that p spreads to. */
  lemma Continued(cells: Cells, mid: Cells, now: Cells, p: Coordinate, n: Coordinate)
    requires Underway(cells, mid, p) && !IsCleared(cells, p) && Reveals(mid, now, n) && n in cells
    requires Spreads(cells, p, n) || IsCleared(mid, n)
    ensures Underway(cells, now, p) && IsCleared(now, n)
  {
    OnlyClearedTwice(cells, mid, now);
    Refl(Spread(mid), n);
    forall c | IsCleared(now, c) && !IsCleared(cells, c)
      ensures Reach(Spread(cells), p, c)
    {
      if !IsCleared(mid, c) {
        ReachShrinks(cells, mid, n, c);
        Step(Spread(cells), p, n);
        Trans(Spread(cells), p, n, c);
      }
    }
    forall a, b | IsCleared(now, a) && !IsCleared(cells, a) && a != p && Spreads(cells, a, b)
      ensures IsCleared(now, b)
    {
      if !IsCleared(mid, a) && !IsCleared(mid, b) {
        SpreadShrinks(cells, mid, a, b);
        Step(Spread(mid), a, b);
        Trans(Spread(mid), n, a, b);
      }
    }
  }

  /** When the neighbours that p spreads to have been dealt with, exactly the right cells are cleared. */
  lemma Finished(cells: Cells, now: Cells, p: Coordinate)
    requires Underway(cells, now, p) && p in cells && !IsCleared(cells, p)
    requires forall b :: Spreads(cells, p, b) ==> IsCleared(now, b)
    ensures Reveals(cells, now, p)
  {
    var inside := iset c: Coordinate | IsCleared(now, c) && !IsCleared(cells, c);
    forall x, y | (x, y) in Spread(cells) && x in inside
      ensures y in inside
    {
      assert Spreads(cells, x, y);
    }
    forall c | c in cells && Reach(Spread(cells), p, c)
      ensures IsCleared(now, c)
    {
      Closed(Spread(cells), inside, p, c);
    }
  }

  function MinesAround(cells: Cells, c: Coordinate): set<Coordinate> {
    set x | x in cells && cells[x].mine && Adjacent(x, c)
  }

  function StillHidden(cells: Cells): set<Coordinate> {
    set c | c in cells && !cells[c].state.Cleared?
  }

  // ---------- winning ----------

  datatype Kind = IsCovered | IsClear | IsFlagged | IsMined

  predicate Matches(parcel: Parcel, kind: Kind) {
    match kind
    case IsCovered => parcel.state.Covered?
    case IsClear => parcel.state.Cleared?
    case IsFlagged => parcel.state.Flagged?
    case IsMined => parcel.mine
  }

  predicate Precedes(a: Coordinate, b: Coordinate) { a.line < b.line || (a.line == b.line && a.column < b.column) }

  ghost predicate InOrder(s: seq<Coordinate>) {
    forall i, j :: 0 <= i < j < |s| ==> Precedes(s[i], s[j])
  }

  ghost predicate NoRepeats(s: seq<Coordinate>) {
    forall i, j :: 0 <= i < j < |s| ==> s[i] != s[j]
  }

  lemma {:induction false} CountOnce(s: seq<Coordinate>, x: Coordinate)
    requires NoRepeats(s)
    ensures multiset(s)[x] == if x in s then 1 else 0
  {
    if s != [] {
      CountOnce(s[1..], x);
      assert s == [s[0]] + s[1..];
    }
  }

  /** Lists without repeats are permutations of each other exactly when they have the same members. */
  lemma SameMembers(a: seq<Coordinate>, b: seq<Coordinate>)
    requires NoRepeats(a) && NoRepeats(b)
    ensures multiset(a) == multiset(b) <==> forall x :: x in a <==> x in b
  {
    forall x
      ensures multiset(a)[x] == (if x in a then 1 else 0) && multiset(b)[x] == if x in b then 1 else 0
    {
      CountOnce(a, x);
      CountOnce(b, x);
    }
    if forall x :: x in a <==> x in b {
      assert forall x :: multiset(a)[x] == multiset(b)[x];
    } else {
      var x :| x in a <==> x !in b;
      assert multiset(a)[x] != multiset(b)[x];
    }
  }

  lemma SameMines(cells: Cells, cells': Cells, p: Coordinate)
    requires p in cells && cells' == cells[p := cells[p].(state := Cleared)]
    ensures Quiet(cells', p) <==> Quiet(cells, p)
  {
    assert forall x :: Mined(cells', x) <==> Mined(cells, x);
  }

  lemma NotFlagged(cells: Cells, mid: Cells, p: Coordinate, n: Coordinate)
    requires OnlyCleared(cells, mid) && p in cells && !cells[p].mine && Quiet(cells, p) && Adjacent(n, p)
    requires n in mid && !mid[n].state.Flagged?
    ensures Spreads(cells, p, n) || IsCleared(mid, n)
  {
    assert n in cells;
  }

  lemma HiddenShrinks(cells: Cells, now: Cells)
    requires OnlyCleared(cells, now)
    ensures StillHidden(now) <= StillHidden(cells)
  {
    assert forall c :: c in now ==> c in cells;
  }

  class Field {
    const lastColumn: int
    const lastLine: int
    var cells: Cells

    predicate OnField(c: Coordinate) {
      1 <= c.column <= lastColumn && 1 <= c.line <= lastLine
    }

    ghost predicate Valid()
      reads this
    {
      && 1 <= lastColumn <= LAST_COLUMN && 1 <= lastLine <= LAST_LINE
      && forall c :: c in cells <==> OnField(c)
    }

    /** A field of covered cells without mines. */
    constructor (lastColumn: int, lastLine: int)
      requires 1 <= lastColumn <= LAST_COLUMN && 1 <= lastLine <= LAST_LINE
      ensures Valid() && this.lastColumn == lastColumn && this.lastLine == lastLine
      ensures forall c :: c in cells ==> cells[c] == Parcel(Covered, false)
    {
      this.lastColumn, this.lastLine := lastColumn, lastLine;
      cells := map[];
      new;
      for c := 1 to lastColumn + 1
        invariant forall x :: x in cells <==> OnField(x) && x.column < c
        invariant forall x :: x in cells ==> cells[x] == Parcel(Covered, false)
      {
        for l := 1 to lastLine + 1
          invariant forall x :: x in cells <==> OnField(x) && (x.column < c || (x.column == c && x.line < l))
          invariant forall x :: x in cells ==> cells[x] == Parcel(Covered, false)
        {
          cells := cells[Coordinate(c, l) := Parcel(Covered, false)];
        }
      }
    }

    /** How many neighbours on the field hide a mine. */
    method NeighbouringMines(c: Coordinate) returns (mines: nat)
      requires Valid()
      ensures mines == |MinesAround(cells, c)|
      ensures mines == 0 <==> Quiet(cells, c)
    {
      hide Clockwise;
      var near := Neighbours(c);
      mines := 0;
      ghost var found := {};
      for i := 0 to |near|
        invariant mines == |found|
        invariant forall x :: x in found <==> x in near[..i] && Mined(cells, x)
      {
        assert near[..i + 1] == near[..i] + [near[i]];
        if OnField(near[i]) && cells[near[i]].mine {
          ClockwiseOnce(near, c, i);
          mines, found := mines + 1, found + {near[i]};
        }
      }
      assert near[..|near|] == near;
      assert found == MinesAround(cells, c);
      assert Quiet(cells, c) <==> found == {};
    }

    /** Clears a cell, and around it as far as no mine is adjacent. Clearing a cleared cell does nothing. */
    method ClearField(p: Coordinate)
      requires Valid() && p in cells
      modifies this`cells
      ensures Valid() && Reveals(old(cells), cells, p)
      decreases StillHidden(cells), 0
    {
      if !cells[p].state.Cleared? && OnField(p) {
        ghost var before := cells;
        Started(cells, p);
        cells := cells[p := cells[p].(state := Cleared)];
        var mines := NeighbouringMines(p);
        SameMines(before, cells, p);
        if mines == 0 && !cells[p].mine {
          var near := Neighbours(p);
          assert StillHidden(cells) == StillHidden(before) - {p} && p in StillHidden(before);
          ClearAround(before, p, near);
        }
        Finished(before, cells, p);
      }
    }

    /** The loop over the neighbours of a cell without adjacent mines. */
    method ClearAround(ghost before: Cells, p: Coordinate, near: seq<Coordinate>)
      requires Valid() && p in before && !IsCleared(before, p) && Underway(before, cells, p)
      requires !before[p].mine && Quiet(before, p)
      requires forall x :: x in near <==> Adjacent(x, p) && IsCoordinate(x)
      modifies this`cells
      ensures Valid() && Underway(before, cells, p)
      ensures forall b :: Spreads(before, p, b) ==> IsCleared(cells, b)
      decreases StillHidden(cells), 1
    {
      ghost var start := cells;
      for i := 0 to |near|
        invariant Valid() && Underway(before, cells, p) && OnlyCleared(start, cells)
        invariant forall j :: 0 <= j < i && Spreads(before, p, near[j]) ==> IsCleared(cells, near[j])
      {
        if OnField(near[i]) && !cells[near[i]].state.Flagged? {
          ghost var mid := cells;
          NotFlagged(before, mid, p, near[i]);
          HiddenShrinks(start, mid);
          ClearField(near[i]);
          Continued(before, mid, cells, p, near[i]);
          OnlyClearedTwice(start, mid, cells);
        }
      }
    }

    /** The cells of a kind, line by line. */
    method Coordinates(kind: Kind) returns (list: seq<Coordinate>)
      requires Valid()
      ensures forall c :: c in list <==> c in cells && Matches(cells[c], kind)
      ensures InOrder(list)
    {
      list := [];
      for l := 1 to lastLine + 1
        invariant forall c :: c in list <==> c in cells && Matches(cells[c], kind) && c.line < l
        invariant InOrder(list) && forall i :: 0 <= i < |list| ==> list[i] in list
      {
        for k := 1 to lastColumn + 1
          invariant forall c :: c in list <==>
                    c in cells && Matches(cells[c], kind) && (c.line < l || (c.line == l && c.column < k))
          invariant InOrder(list) && forall i :: 0 <= i < |list| ==> list[i] in list
        {
          if Matches(cells[Coordinate(k, l)], kind) {
            list := list + [Coordinate(k, l)];
          }
        }
      }
    }

    /** The game is won when the cells that are not cleared are exactly the mined ones. */
    method GameWon() returns (won: bool)
      requires Valid()
      ensures won <==> forall c :: c in cells ==> (cells[c].mine <==> !cells[c].state.Cleared?)
    {
      var mined := Coordinates(IsMined);
      var flagged := Coordinates(IsFlagged);
      var covered := Coordinates(IsCovered);
      won := multiset(mined) == multiset(flagged + covered);
      forall i, j | 0 <= i < |flagged| && 0 <= j < |covered|
        ensures flagged[i] != covered[j]
      {
        assert flagged[i] in flagged && covered[j] in covered;
      }
      assert NoRepeats(flagged + covered);
      SameMembers(mined, flagged + covered);
      assert forall c :: c in flagged + covered <==> c in cells && !cells[c].state.Cleared?;
      assert forall c :: c in mined <==> c in cells && cells[c].mine;
    }

    /** Flags a covered cell or takes its flag off; a cleared one stays as it is. */
    method ToggleFlag(c: Coordinate) returns (toggled: bool)
      requires Valid() && c in cells
      modifies this`cells
      ensures Valid() && toggled == !old(cells)[c].state.Cleared?
      ensures !toggled ==> cells == old(cells)
      ensures toggled ==>
                var state := if old(cells)[c].state.Covered? then Flagged else Covered;
                cells == old(cells)[c := Parcel(state, old(cells)[c].mine)]
    {
      toggled := true;
      if cells[c].state.Flagged? {
        cells := cells[c := cells[c].(state := Covered)];
      } else if cells[c].state.Covered? {
        cells := cells[c := cells[c].(state := Flagged)];
      } else {
        toggled := false;
      }
    }
  }
}
