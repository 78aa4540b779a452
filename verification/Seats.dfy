/** Seats of an event and the order in which a reservation visits them. */
module Seats {
  import opened Wrappers

  datatype Seat = Seat(row: nat, col: nat)

  datatype Hall = Hall(rows: nat, cols: nat) {
    ghost predicate Valid() { rows > 0 && cols > 0 }

    function Size(): nat { rows * cols }

    predicate Has(seat: Seat) {
      !(seat.row <= 0 || seat.row > rows || seat.col <= 0 || seat.col > cols)
    }

    function SeatIndex(seat: Seat): int {
      (seat.row - 1) * cols + seat.col - 1
    }
  }

  lemma SeatIndexRange(hall: Hall, seat: Seat)
    requires hall.Has(seat)
    ensures 0 <= hall.SeatIndex(seat) < hall.Size()
  {
    assert (seat.row - 1) * hall.cols <= (hall.rows - 1) * hall.cols;
    assert (hall.rows - 1) * hall.cols + hall.cols == hall.rows * hall.cols;
  }

  lemma RowDecides(r: nat, q: nat, c: nat, d: nat, w: nat)
    requires c < w && d < w && r * w + c == q * w + d
    ensures r <= q
  {
    assert r >= q + 1 ==> r * w >= (q + 1) * w;
    assert (q + 1) * w == q * w + w;
  }

  /** Different seats of a hall have different indices. */
  lemma SeatIndexInjective(hall: Hall, a: Seat, b: Seat)
    requires hall.Has(a) && hall.Has(b) && hall.SeatIndex(a) == hall.SeatIndex(b)
    ensures a == b
  {
    RowDecides(a.row - 1, b.row - 1, a.col - 1, b.col - 1, hall.cols);
    RowDecides(b.row - 1, a.row - 1, b.col - 1, a.col - 1, hall.cols);
  }

  /** Row by row, and from left to right in a row. */
  predicate Before(a: Seat, b: Seat) {
    a.row < b.row || (a.row == b.row && a.col < b.col)
  }

  lemma RowsApart(r: nat, q: nat, w: nat)
    requires r < q
    ensures r * w + w <= q * w
  {
    var d := q - r - 1;
    assert q * w == r * w + w + d * w by {
      assert q == r + 1 + d;
    }
    assert d * w >= 0;
  }

  /** Indices follow the reading order. */
  lemma IndexOrder(hall: Hall, a: Seat, b: Seat)
    requires hall.Has(a) && hall.Has(b)
    ensures hall.SeatIndex(a) < hall.SeatIndex(b) <==> Before(a, b)
  {
    if a.row < b.row {
      RowsApart(a.row - 1, b.row - 1, hall.cols);
    } else if b.row < a.row {
      RowsApart(b.row - 1, a.row - 1, hall.cols);
    }
  }

  /** Every index of the hall belongs to a seat. */
  lemma SeatOfIndex(hall: Hall, k: nat) returns (seat: Seat)
    requires hall.Valid() && k < hall.Size()
    ensures hall.Has(seat) && hall.SeatIndex(seat) == k
  {
    var r, c := k / hall.cols, k % hall.cols;
    assert k == r * hall.cols + c;
    assert r >= hall.rows ==> r * hall.cols >= hall.rows * hall.cols;
    seat := Seat(r + 1, c + 1);
  }

  /** What a show prints: values in a line are separated, a line ends after every `cols` of them. */
  function Lines(cols: nat, view: seq<int>): (lines: seq<seq<int>>)
    requires cols > 0
    ensures lines != []
  {
    if view == [] then [[]]
    else
      var lines, n := Lines(cols, view[..|view| - 1]), |view|;
      var grown := lines[..|lines| - 1] + [lines[|lines| - 1] + [view[n - 1]]];
      if n % cols != 0 then grown else grown + [[]]
  }

  lemma QuotientIs(n: nat, d: nat, q: nat, r: nat)
    requires r < d && n == q * d + r
    ensures n / d == q && n % d == r
  {
    RowDecides(n / d, q, n % d, r, d);
    RowDecides(q, n / d, r, n % d, d);
  }

  lemma NextLine(n: nat, cols: nat)
    requires cols > 0 && n > 0
    ensures if n % cols != 0 then n / cols == (n - 1) / cols && n % cols == (n - 1) % cols + 1
            else n / cols == (n - 1) / cols + 1 && (n - 1) % cols == cols - 1
  {
    var q, r := (n - 1) / cols, (n - 1) % cols;
    assert n == q * cols + r + 1;
    if r + 1 < cols {
      QuotientIs(n, cols, q, r + 1);
    } else {
      assert (q + 1) * cols == q * cols + cols;
      QuotientIs(n, cols, q + 1, 0);
    }
  }

  ghost predicate LineHolds(cols: nat, view: seq<int>, k: int)
    requires cols > 0 && 0 <= k < |view|
  {
    var lines := Lines(cols, view);
    k / cols < |lines| && k % cols < |lines[k / cols]| && lines[k / cols][k % cols] == view[k]
  }

  /** Value k stands in line k / cols, at place k % cols; the last line is the unfinished one. */
  lemma {:induction false} LinesHold(cols: nat, view: seq<int>)
    requires cols > 0
    ensures var lines := Lines(cols, view);
            && |lines| == |view| / cols + 1 && |lines[|lines| - 1]| == |view| % cols
            && (forall r :: 0 <= r < |lines| - 1 ==> |lines[r]| == cols)
            && forall k :: 0 <= k < |view| ==> LineHolds(cols, view, k)
  {
    var n := |view|;
    if n > 0 {
      var before := view[..n - 1];
      LinesHold(cols, before);
      NextLine(n, cols);
      var lines, lines' := Lines(cols, before), Lines(cols, view);
      forall k | 0 <= k < n
        ensures LineHolds(cols, view, k)
      {
        if k < n - 1 {
          assert LineHolds(cols, before, k);
        }
      }
    }
  }

  ghost predicate SeatShown(hall: Hall, view: seq<int>, seat: Seat)
    requires hall.Valid() && |view| == hall.Size() && hall.Has(seat)
  {
    var lines := Lines(hall.cols, view);
    SeatIndexRange(hall, seat);
    && seat.row <= |lines| && seat.col <= |lines[seat.row - 1]|
    && lines[seat.row - 1][seat.col - 1] == view[hall.SeatIndex(seat)]
  }

  /** A printed hall has one line for each row, and each seat's value stands in its row and column. */
  lemma LinesShowSeats(hall: Hall, view: seq<int>)
    requires hall.Valid() && |view| == hall.Size()
    ensures var lines := Lines(hall.cols, view);
            && |lines| == hall.rows + 1 && lines[hall.rows] == []
            && forall seat :: hall.Has(seat) ==> SeatShown(hall, view, seat)
  {
    LinesHold(hall.cols, view);
    QuotientIs(hall.Size(), hall.cols, hall.rows, 0);
    forall seat | hall.Has(seat)
      ensures SeatShown(hall, view, seat)
    {
      SeatIndexRange(hall, seat);
      QuotientIs(hall.SeatIndex(seat), hall.cols, seat.row - 1, seat.col - 1);
      assert LineHolds(hall.cols, view, hall.SeatIndex(seat));
    }
  }

  /** The indices of the requested seats, unless one is not in the hall. */
  function Indices(hall: Hall, seats: seq<Seat>): (r: Option<seq<nat>>)
    ensures r.None? <==> exists i :: 0 <= i < |seats| && !hall.Has(seats[i])
    ensures r.Some? ==>
              |r.value| == |seats| &&
              forall i :: 0 <= i < |seats| ==> r.value[i] == hall.SeatIndex(seats[i]) < hall.Size()
  {
    if seats == [] then Some([])
    else if !hall.Has(seats[0]) then None
    else
      SeatIndexRange(hall, seats[0]);
      match Indices(hall, seats[1..])
      case None =>
        assert exists i :: 0 <= i < |seats[1..]| && !hall.Has(seats[1..][i]) && seats[1..][i] == seats[i + 1];
        None
      case Some(rest) => Some([hall.SeatIndex(seats[0])] + rest)
  }

  ghost predicate IsSorted(s: seq<nat>) {
    forall i, j :: 0 <= i < j < |s| ==> s[i] <= s[j]
  }

  function Insert(x: nat, s: seq<nat>): seq<nat> {
    if s == [] || x <= s[0] then [x] + s else [s[0]] + Insert(x, s[1..])
  }

  lemma {:induction false} InsertContents(x: nat, s: seq<nat>)
    ensures multiset(Insert(x, s)) == multiset(s) + multiset{x}
  {
    if s != [] && x > s[0] {
      InsertContents(x, s[1..]);
      assert s == [s[0]] + s[1..];
    }
  }

  ghost predicate AtLeast(low: nat, s: seq<nat>) {
    forall y :: y in s ==> low <= y
  }

  lemma Above(low: nat, x: nat, s: seq<nat>)
    requires AtLeast(low, s) && low <= x
    ensures AtLeast(low, Insert(x, s))
  {
    InsertContents(x, s);
    forall y | y in Insert(x, s)
      ensures low <= y
    {
      assert y in multiset(Insert(x, s));
      assert y == x || y in multiset(s);
      assert y in multiset(s) <==> y in s;
    }
  }

  lemma SortedCons(s: seq<nat>)
    requires s != []
    ensures IsSorted(s) <==> AtLeast(s[0], s[1..]) && IsSorted(s[1..])
  {
    if AtLeast(s[0], s[1..]) && IsSorted(s[1..]) {
      forall i, j | 0 <= i < j < |s|
        ensures s[i] <= s[j]
      {
        assert s[j] == s[1..][j - 1] && s[j] in s[1..];
        assert i > 0 ==> s[i] == s[1..][i - 1];
      }
    }
  }

  lemma {:induction false} InsertSorted(x: nat, s: seq<nat>)
    requires IsSorted(s)
    ensures IsSorted(Insert(x, s))
  {
    if s != [] && x > s[0] {
      SortedCons(s);
      InsertSorted(x, s[1..]);
      Above(s[0], x, s[1..]);
      assert Insert(x, s)[1..] == Insert(x, s[1..]);
      SortedCons(Insert(x, s));
    }
  }

  /** The order that sorting the indices gives. */
  function Sort(s: seq<nat>): (r: seq<nat>)
    ensures IsSorted(r) && multiset(r) == multiset(s)
  {
    if s == [] then [] else
      InsertContents(s[0], Sort(s[1..]));
      InsertSorted(s[0], Sort(s[1..]));
      assert s == [s[0]] + s[1..];
      Insert(s[0], Sort(s[1..]))
  }

  lemma SortKeeps(s: seq<nat>)
    ensures |Sort(s)| == |s| && forall x :: x in Sort(s) <==> x in s
  {
    assert |multiset(Sort(s))| == |multiset(s)|;
    forall x
      ensures x in Sort(s) <==> x in s
    {
      assert x in Sort(s) <==> x in multiset(Sort(s));
      assert x in s <==> x in multiset(s);
    }
  }
}
