/** Guillotine cutting: the most valuable way to cut a slab, by dynamic programming over half a matrix. */
module SuperMarble {

  datatype Slab = Slab(horizontal: nat, vertical: nat, value: nat) {
    predicate Square() {
      horizontal == vertical
    }

    /** This slab can be contained in one of the given dimensions. */
    predicate Inside(h: nat, v: nat) {
      horizontal <= h && vertical <= v
    }

    function Rotated(): Slab {
      Slab(vertical, horizontal, value)
    }
  }

  /** A way to cut a slab: throw it away, use it as an item, or cut it from side to side. */
  datatype Cutting =
    | Waste
    | Piece(item: nat)
    | Across(x: nat, first: Cutting, second: Cutting)
    | Along(y: nat, first: Cutting, second: Cutting)

  ghost predicate Exactly(s: Slab, h: nat, v: nat) {
    s.horizontal == h && s.vertical == v
  }

  /** The cutting fits a slab of these dimensions; items may be rotated and used any number of times. */
  ghost predicate Cuts(items: seq<Slab>, t: Cutting, h: nat, v: nat) {
    match t
    case Waste => true
    case Piece(k) => k < |items| && (Exactly(items[k], h, v) || Exactly(items[k].Rotated(), h, v))
    case Across(x, first, second) => 0 < x < h && Cuts(items, first, x, v) && Cuts(items, second, h - x, v)
    case Along(y, first, second) => 0 < y < v && Cuts(items, first, h, y) && Cuts(items, second, h, v - y)
  }

  ghost function Value(items: seq<Slab>, t: Cutting): nat {
    match t
    case Waste => 0
    case Piece(k) => if k < |items| then items[k].value else 0
    case Across(_, first, second) => Value(items, first) + Value(items, second)
    case Along(_, first, second) => Value(items, first) + Value(items, second)
  }

  ghost predicate Attained(items: seq<Slab>, h: nat, v: nat, best: nat) {
    exists t :: Cuts(items, t, h, v) && Value(items, t) == best
  }

  /** best is the value of some cutting, and no cutting is worth more. */
  ghost predicate IsBest(items: seq<Slab>, h: nat, v: nat, best: nat) {
    && Attained(items, h, v, best)
    && forall t :: Cuts(items, t, h, v) ==> Value(items, t) <= best
  }

  /** The same cutting of the slab turned by a quarter. */
  ghost function Turned(t: Cutting): Cutting {
    match t
    case Across(x, first, second) => Along(x, Turned(first), Turned(second))
    case Along(y, first, second) => Across(y, Turned(first), Turned(second))
    case _ => t
  }

  lemma {:induction false} TurnedCuts(items: seq<Slab>, t: Cutting, h: nat, v: nat)
    requires Cuts(items, t, h, v)
    ensures Cuts(items, Turned(t), v, h) && Value(items, Turned(t)) == Value(items, t)
  {
    match t
    case Across(x, first, second) =>
      TurnedCuts(items, first, x, v);
      TurnedCuts(items, second, h - x, v);
    case Along(y, first, second) =>
      TurnedCuts(items, first, h, y);
      TurnedCuts(items, second, h, v - y);
    case _ =>
  }

  /** Turning the slab does not change the best value, so half the matrix is enough. */
  lemma BestSymmetric(items: seq<Slab>, h: nat, v: nat, best: nat)
    requires IsBest(items, h, v, best)
    ensures IsBest(items, v, h, best)
  {
    var t :| Cuts(items, t, h, v) && Value(items, t) == best;
    TurnedCuts(items, t, h, v);
    forall t | Cuts(items, t, v, h)
      ensures Value(items, t) <= best
    {
      TurnedCuts(items, t, v, h);
    }
  }

  /** The prepared list: every orientation of an item that fits, and nothing else. */
  ghost predicate Prepared(items: seq<Slab>, list: seq<Slab>, h: nat, v: nat) {
    && (forall p :: p in list ==>
        p.Inside(h, v) && exists k :: 0 <= k < |items| && (p == items[k] || p == items[k].Rotated()))
    && (forall k :: 0 <= k < |items| && items[k].Inside(h, v) ==> items[k] in list)
    && (forall k :: 0 <= k < |items| && items[k].Rotated().Inside(h, v) ==> items[k].Rotated() in list)
  }

  /** value is the largest value of an item with exactly these dimensions, 0 when there is none. */
  ghost predicate IsItemMax(list: seq<Slab>, h: nat, v: nat, value: nat) {
    && (forall p :: p in list && Exactly(p, h, v) ==> p.value <= value)
    && (value == 0 || exists p :: p in list && Exactly(p, h, v) && p.value == value)
  }

  lemma ItemAttained(items: seq<Slab>, list: seq<Slab>, h: nat, v: nat, value: nat, width: nat, height: nat)
    requires Prepared(items, list, width, height) && IsItemMax(list, h, v, value)
    ensures Attained(items, h, v, value)
  {
    if value == 0 {
      assert Cuts(items, Waste, h, v) && Value(items, Waste) == 0;
    } else {
      var p :| p in list && Exactly(p, h, v) && p.value == value;
      var k :| 0 <= k < |items| && (p == items[k] || p == items[k].Rotated());
      assert Cuts(items, Piece(k), h, v) && Value(items, Piece(k)) == value;
    }
  }

  lemma SumAttained(items: seq<Slab>, h: nat, v: nat, x: nat, a: nat, b: nat)
    requires 0 < x < h && Attained(items, x, v, a) && Attained(items, h - x, v, b)
    ensures Attained(items, h, v, a + b)
  {
    var t :| Cuts(items, t, x, v) && Value(items, t) == a;
    var u :| Cuts(items, u, h - x, v) && Value(items, u) == b;
    assert Cuts(items, Across(x, t, u), h, v) && Value(items, Across(x, t, u)) == a + b;
  }

  lemma SumAttainedAlong(items: seq<Slab>, h: nat, v: nat, y: nat, a: nat, b: nat)
    requires 0 < y < v && Attained(items, h, y, a) && Attained(items, h, v - y, b)
    ensures Attained(items, h, v, a + b)
  {
    var t :| Cuts(items, t, h, y) && Value(items, t) == a;
    var u :| Cuts(items, u, h, v - y) && Value(items, u) == b;
    assert Cuts(items, Along(y, t, u), h, v) && Value(items, Along(y, t, u)) == a + b;
  }

  /** across and along hold the best values of the strips that cutting an h by v slab can give. */
  ghost predicate Strips(items: seq<Slab>, h: nat, v: nat, across: seq<nat>, along: seq<nat>) {
    && |across| == h && |along| == v
    && (forall x: nat :: 0 < x < h ==> IsBest(items, x, v, across[x]))
    && (forall y: nat :: 0 < y < v ==> IsBest(items, h, y, along[y]))
  }

  /** A value that some cutting attains and that covers the item and the cuts in one half of each
      side is the best. */
  lemma BestOfChoices(items: seq<Slab>, list: seq<Slab>, width: nat, height: nat, h: nat, v: nat, best: nat,
                      across: seq<nat>, along: seq<nat>, item: nat)
    requires Prepared(items, list, width, height) && h <= width && v <= height
    requires IsItemMax(list, h, v, item) && item <= best && Attained(items, h, v, best)
    requires Strips(items, h, v, across, along)
    requires forall x: nat :: 0 < x <= h / 2 && x < h ==> across[x] + across[h - x] <= best
    requires forall y: nat :: 0 < y <= v / 2 && y < v ==> along[y] + along[v - y] <= best
    ensures IsBest(items, h, v, best)
  {
    forall t | Cuts(items, t, h, v)
      ensures Value(items, t) <= best
    {
      match t
      case Waste =>
      case Piece(k) =>
        if Exactly(items[k], h, v) {
          assert items[k] in list;
        } else {
          assert items[k].Rotated() in list;
        }
      case Across(x, first, second) =>
        assert IsBest(items, x, v, across[x]) && IsBest(items, h - x, v, across[h - x]);
        assert x <= h / 2 || h - x <= h / 2;
        assert h - (h - x) == x;
      case Along(y, first, second) =>
        assert IsBest(items, h, y, along[y]) && IsBest(items, h, v - y, along[v - y]);
        assert y <= v / 2 || v - y <= v / 2;
        assert v - (v - y) == y;
    }
  }

  /** The entry for (r, c), in either half, has been filled before the entry (i, j) of the upper half. */
  predicate Filled(r: nat, c: nat, i: nat, j: nat) {
    if r <= c then r < i || (r == i && c < j) else c < i || (c == i && r < j)
  }

  /** What the entry for (r, c) holds when (i, j) is about to be filled. */
  ghost predicate Entry(items: seq<Slab>, list: seq<Slab>, r: nat, c: nat, i: nat, j: nat, value: nat) {
    if r == 0 || c == 0 then value == 0
    else if Filled(r, c, i, j) then IsBest(items, r, c, value)
    else r <= c ==> IsItemMax(list, r, c, value)
  }

  /** The matrix as a value. */
  ghost function Rows(maxes: array2<nat>): (m: seq<seq<nat>>)
    reads maxes
    ensures |m| == maxes.Length0 && forall r :: 0 <= r < |m| ==> |m[r]| == maxes.Length1
    ensures forall r, c :: 0 <= r < |m| && 0 <= c < maxes.Length1 ==> m[r][c] == maxes[r, c]
  {
    seq(maxes.Length0, r requires 0 <= r < maxes.Length0 reads maxes =>
      seq(maxes.Length1, c requires 0 <= c < maxes.Length1 reads maxes => maxes[r, c]))
  }

  ghost predicate Matrix(m: seq<seq<nat>>, H: nat, V: nat) {
    |m| == H + 1 && forall r :: 0 <= r <= H ==> |m[r]| == V + 1
  }

  ghost predicate Table(m: seq<seq<nat>>, H: nat, V: nat, items: seq<Slab>, list: seq<Slab>, i: nat, j: nat) {
    && Matrix(m, H, V)
    && forall r: nat, c: nat :: r <= H && c <= V ==> Entry(items, list, r, c, i, j, m[r][c])
  }

  /** When (i, j) is about to be filled, its row and its column hold the best values of every strip. */
  lemma StripsOfTable(m: seq<seq<nat>>, H: nat, V: nat, i: nat, j: nat, items: seq<Slab>, list: seq<Slab>)
    returns (across: seq<nat>, along: seq<nat>)
    requires 0 < i <= j && i <= H && j <= V && Table(m, H, V, items, list, i, j)
    ensures Strips(items, i, j, across, along)
    ensures forall x: nat :: 0 < x < i ==> across[x] == m[x][j]
    ensures forall y: nat :: 0 < y < j ==> along[y] == m[i][y]
    ensures IsItemMax(list, i, j, m[i][j]) && m[0][j] == 0 && m[i][0] == 0
  {
    assert Entry(items, list, i, j, i, j, m[i][j]);
    assert Entry(items, list, 0, j, i, j, m[0][j]) && Entry(items, list, i, 0, i, j, m[i][0]);
    across := seq(i, x requires 0 <= x < i => m[x][j]);
    along := m[i][..j];
    forall x: nat | 0 < x < i
      ensures IsBest(items, x, j, across[x])
    {
      assert Entry(items, list, x, j, i, j, m[x][j]);
    }
    forall y: nat | 0 < y < j
      ensures IsBest(items, i, y, along[y])
    {
      assert Entry(items, list, i, y, i, j, m[i][y]);
    }
  }

  /** The two strips left by cutting (i, j) across at x, and along at y. */
  ghost function AcrossSum(m: seq<seq<nat>>, H: nat, V: nat, i: nat, j: nat, x: nat): nat
    requires Matrix(m, H, V) && i <= H && j <= V && x <= i
  {
    m[x][j] + m[i - x][j]
  }

  ghost function AlongSum(m: seq<seq<nat>>, H: nat, V: nat, i: nat, j: nat, y: nat): nat
    requires Matrix(m, H, V) && i <= H && j <= V && y <= j
  {
    m[i][y] + m[i][j - y]
  }

  /** best is the largest sum of two opposite strips among the cuts in one half of each side;
      cutting at 0 leaves the entry itself. */
  ghost predicate IsBestCut(m: seq<seq<nat>>, H: nat, V: nat, i: nat, j: nat, best: nat)
    requires Matrix(m, H, V) && i <= H && j <= V
  {
    && (forall x: nat :: x <= i / 2 ==> AcrossSum(m, H, V, i, j, x) <= best)
    && (forall y: nat :: y <= j / 2 ==> AlongSum(m, H, V, i, j, y) <= best)
    && ((exists x: nat :: x <= i / 2 && best == AcrossSum(m, H, V, i, j, x))
        || (exists y: nat :: y <= j / 2 && best == AlongSum(m, H, V, i, j, y)))
  }

  lemma BestCutAttained(m: seq<seq<nat>>, H: nat, V: nat, i: nat, j: nat, items: seq<Slab>, list: seq<Slab>, best: nat)
    requires 0 < i <= j && i <= H && j <= V && Prepared(items, list, H, V) && Table(m, H, V, items, list, i, j)
    requires IsBestCut(m, H, V, i, j, best)
    ensures Attained(items, i, j, best)
  {
    var across, along := StripsOfTable(m, H, V, i, j, items, list);
    ItemAttained(items, list, i, j, m[i][j], H, V);
    if x: nat :| x <= i / 2 && best == AcrossSum(m, H, V, i, j, x) {
      if x > 0 {
        SumAttained(items, i, j, x, across[x], across[i - x]);
      }
    } else {
      var y: nat :| y <= j / 2 && best == AlongSum(m, H, V, i, j, y);
      if y > 0 {
        SumAttainedAlong(items, i, j, y, along[y], along[j - y]);
      }
    }
  }

  /** The best of the cuts tried at (i, j), and of the item there, is the best of all cuttings. */
  lemma BestCutIsBest(m: seq<seq<nat>>, H: nat, V: nat, i: nat, j: nat, items: seq<Slab>, list: seq<Slab>, best: nat)
    requires 0 < i <= j && i <= H && j <= V && Prepared(items, list, H, V) && Table(m, H, V, items, list, i, j)
    requires IsBestCut(m, H, V, i, j, best)
    ensures IsBest(items, i, j, best) && IsBest(items, j, i, best)
  {
    var across, along := StripsOfTable(m, H, V, i, j, items, list);
    BestCutAttained(m, H, V, i, j, items, list, best);
    assert AcrossSum(m, H, V, i, j, 0) <= best;
    forall x: nat | 0 < x <= i / 2 && x < i
      ensures across[x] + across[i - x] <= best
    {
      assert AcrossSum(m, H, V, i, j, x) <= best;
    }
    forall y: nat | 0 < y <= j / 2 && y < j
      ensures along[y] + along[j - y] <= best
    {
      assert AlongSum(m, H, V, i, j, y) <= best;
    }
    BestOfChoices(items, list, H, V, i, j, best, across, along, m[i][j]);
    BestSymmetric(items, i, j, best);
  }

  /** Filling (i, j) and its mirror image makes (i, j + 1) the next entry. */
  lemma EntryFilled(m: seq<seq<nat>>, m': seq<seq<nat>>, H: nat, V: nat, i: nat, j: nat, items: seq<Slab>,
                    list: seq<Slab>, best: nat)
    requires 0 < i <= j && i <= H && j <= V && Prepared(items, list, H, V) && Table(m, H, V, items, list, i, j)
    requires IsBestCut(m, H, V, i, j, best) && Matrix(m', H, V)
    requires forall r: nat, c: nat :: r <= H && c <= V ==>
               m'[r][c] == if (r == i && c == j) || (r == j && c == i) then best else m[r][c]
    ensures Table(m', H, V, items, list, i, j + 1)
  {
    BestCutIsBest(m, H, V, i, j, items, list, best);
    forall r: nat, c: nat | r <= H && c <= V
      ensures Entry(items, list, r, c, i, j + 1, m'[r][c])
    {
      assert Entry(items, list, r, c, i, j, m[r][c]);
    }
  }

  lemma RowFilled(m: seq<seq<nat>>, H: nat, V: nat, i: nat, items: seq<Slab>, list: seq<Slab>)
    requires H <= V && Table(m, H, V, items, list, i, V + 1)
    ensures Table(m, H, V, items, list, i + 1, i + 1)
  {
    forall r: nat, c: nat | r <= H && c <= V
      ensures Entry(items, list, r, c, i + 1, i + 1, m[r][c])
    {
      assert Entry(items, list, r, c, i, V + 1, m[r][c]);
    }
  }

  lemma StartTable(m: seq<seq<nat>>, H: nat, V: nat, items: seq<Slab>, list: seq<Slab>)
    requires Matrix(m, H, V) && forall r: nat, c: nat :: r <= H && c <= V ==> IsItemMax(list, r, c, m[r][c])
    requires forall p :: p in list ==> p.horizontal > 0 && p.vertical > 0
    ensures Table(m, H, V, items, list, 1, 1)
  {
    forall r: nat, c: nat | r <= H && c <= V
      ensures Entry(items, list, r, c, 1, 1, m[r][c])
    {
      assert IsItemMax(list, r, c, m[r][c]);
    }
  }

  /** The two inner loops. */
  method BestCut(maxes: array2<nat>, i: nat, j: nat, ghost H: nat, ghost V: nat) returns (best: nat)
    requires maxes.Length0 == H + 1 && maxes.Length1 == V + 1 && 0 < i <= j && i <= H && j <= V
    ensures IsBestCut(Rows(maxes), H, V, i, j, best)
  {
    var upperX, upperY := i / 2, j / 2;
    var xCut: nat, yCut: nat := 0, 0;
    ghost var m := Rows(maxes);
    for x := 0 to upperX + 1
      invariant forall k: nat :: k < x ==> AcrossSum(m, H, V, i, j, k) <= xCut
      invariant (x == 0 && xCut == 0) || exists k: nat :: k < x && xCut == AcrossSum(m, H, V, i, j, k)
    {
      assert maxes[x, j] + maxes[i - x, j] == AcrossSum(m, H, V, i, j, x);
      xCut := if maxes[x, j] + maxes[i - x, j] < xCut then xCut else maxes[x, j] + maxes[i - x, j];
    }
    for y := 0 to upperY + 1
      invariant forall k: nat :: k < y ==> AlongSum(m, H, V, i, j, k) <= yCut
      invariant (y == 0 && yCut == 0) || exists k: nat :: k < y && yCut == AlongSum(m, H, V, i, j, k)
    {
      assert maxes[i, y] + maxes[i, j - y] == AlongSum(m, H, V, i, j, y);
      yCut := if maxes[i, y] + maxes[i, j - y] < yCut then yCut else maxes[i, y] + maxes[i, j - y];
    }
    best := if xCut < yCut then yCut else xCut;
  }

  /** The first loop: each entry becomes the largest value of an item of exactly its dimensions. */
  method PlaceItems(maxes: array2<nat>, list: seq<Slab>)
    requires forall r, c :: 0 <= r < maxes.Length0 && 0 <= c < maxes.Length1 ==> maxes[r, c] == 0
    requires forall p :: p in list ==> p.horizontal < maxes.Length0 && p.vertical < maxes.Length1
    modifies maxes
    ensures forall r: nat, c: nat :: r < maxes.Length0 && c < maxes.Length1 ==> IsItemMax(list, r, c, maxes[r, c])
  {
    for n := 0 to |list|
      invariant forall r: nat, c: nat :: r < maxes.Length0 && c < maxes.Length1 ==>
                  IsItemMax(list[..n], r, c, maxes[r, c])
    {
      var it := list[n];
      assert it in list;
      assert list[..n + 1] == list[..n] + [it];
      maxes[it.horizontal, it.vertical] :=
        if it.value < maxes[it.horizontal, it.vertical] then maxes[it.horizontal, it.vertical] else it.value;
    }
    assert list[..|list|] == list;
  }

  /** The body of the main loop: fills (i, j) and, inside the square part, its mirror image. */
  method FillEntry(maxes: array2<nat>, i: nat, j: nat, H: nat, V: nat, ghost items: seq<Slab>, ghost list: seq<Slab>)
    requires 0 < i <= j && i <= H && j <= V && Prepared(items, list, H, V)
    requires maxes.Length0 == H + 1 && maxes.Length1 == V + 1 && Table(Rows(maxes), H, V, items, list, i, j)
    modifies maxes
    ensures Table(Rows(maxes), H, V, items, list, i, j + 1)
  {
    ghost var m := Rows(maxes);
    var best := BestCut(maxes, i, j, H, V);
    maxes[i, j] := best;
    if j <= H {
      maxes[j, i] := maxes[i, j];
    }
    EntryFilled(m, Rows(maxes), H, V, i, j, items, list, best);
  }

  /** The best value of an uncut slab that is no wider than tall. */
  method CalculateMaximumValue(uncut: Slab, list: seq<Slab>, ghost items: seq<Slab>) returns (value: nat)
    requires 0 < uncut.horizontal <= uncut.vertical
    requires Prepared(items, list, uncut.horizontal, uncut.vertical)
    requires forall p :: p in list ==> p.horizontal > 0 && p.vertical > 0
    ensures IsBest(items, uncut.horizontal, uncut.vertical, value)
  {
    var H, V := uncut.horizontal, uncut.vertical;
    var maxes := new nat[H + 1, V + 1]((_, _) => 0);
    PlaceItems(maxes, list);
    StartTable(Rows(maxes), H, V, items, list);
    for i := 1 to H + 1
      invariant Table(Rows(maxes), H, V, items, list, i, i)
    {
      for j := i to V + 1
        invariant Table(Rows(maxes), H, V, items, list, i, j)
      {
        FillEntry(maxes, i, j, H, V, items, list);
      }
      RowFilled(Rows(maxes), H, V, i, items, list);
    }
    value := maxes[H, V];
    assert Entry(items, list, H, V, H + 1, H + 1, value);
  }

  lemma PreparedStep(items: seq<Slab>, i: nat, list: seq<Slab>, list': seq<Slab>, h: nat, v: nat)
    requires i < |items| && Prepared(items[..i], list, h, v)
    requires list <= list'
    requires forall p :: p in list' <==>
               p in list || (p == items[i] && p.Inside(h, v)) || (p == items[i].Rotated() && p.Inside(h, v))
    ensures Prepared(items[..i + 1], list', h, v)
  {
    var before, after := items[..i], items[..i + 1];
    forall p | p in list'
      ensures p.Inside(h, v) && exists k :: 0 <= k < |after| && (p == after[k] || p == after[k].Rotated())
    {
      if p in list {
        var k :| 0 <= k < |before| && (p == before[k] || p == before[k].Rotated());
        assert after[k] == before[k];
      } else {
        assert after[i] == items[i];
      }
    }
    forall k | 0 <= k < |after|
      ensures after[k].Inside(h, v) ==> after[k] in list'
      ensures after[k].Rotated().Inside(h, v) ==> after[k].Rotated() in list'
    {
      if k < i {
        assert after[k] == before[k];
      }
    }
  }

  /** The program: turns the slab so that it is no wider than tall, keeps every orientation of an item
      that fits, and computes the value of the best cutting of the slab as it was given. */
  method Solve(slab: Slab, items: seq<Slab>) returns (value: nat)
    requires slab.horizontal > 0 && slab.vertical > 0
    requires forall k :: 0 <= k < |items| ==> items[k].horizontal > 0 && items[k].vertical > 0
    ensures IsBest(items, slab.horizontal, slab.vertical, value)
  {
    var uncut := if slab.horizontal > slab.vertical then slab.Rotated() else slab;
    var H, V := uncut.horizontal, uncut.vertical;
    var list := [];
    for i := 0 to |items|
      invariant Prepared(items[..i], list, H, V)
      invariant forall p :: p in list ==> p.horizontal > 0 && p.vertical > 0
    {
      var item := items[i];
      ghost var list0 := list;
      if item.Inside(H, V) {
        list := list + [item];
      }
      var rotated := item.Rotated();
      if !rotated.Square() && rotated.Inside(H, V) {
        list := list + [rotated];
      }
      PreparedStep(items, i, list0, list, H, V);
    }
    assert items[..|items|] == items;
    value := CalculateMaximumValue(uncut, list, items);
    if slab.horizontal > slab.vertical {
      BestSymmetric(items, H, V, value);
    }
  }
}
