/** Bit-packed pipe pieces: bits 0-1 the direction pointed to, bits 2-3 the type, bit 6 locked, bit 7 marked. */
module PipePiece {
  import opened Wrappers

  type Piece = bv8
  /** Four nibbles, one per side; a single piece's openings use the lowest one. */
  type Sides = bv16

  // Sides are numbered 0 right, 1 up, 2 left, 3 down.

  function Opposite(d: nat): nat
    requires d < 4
  {
    if d < 2 then d + 2 else d - 2
  }

  /** Bit d of the lowest nibble. */
  predicate Bit(o: Sides, d: nat)
    requires d < 4
  {
    if d == 0 then o & 1 != 0 else if d == 1 then o & 2 != 0 else if d == 2 then o & 4 != 0 else o & 8 != 0
  }

  /** Bit d of nibble d. */
  predicate Diagonal(w: Sides, d: nat)
    requires d < 4
  {
    if d == 0 then w & 0x0001 != 0 else if d == 1 then w & 0x0020 != 0
    else if d == 2 then w & 0x0400 != 0 else w & 0x8000 != 0
  }

  function Nibble(w: Sides, d: nat): Sides
    requires d < 4
  {
    if d == 0 then w & 0xF else if d == 1 then (w >> 4) & 0xF
    else if d == 2 then (w >> 8) & 0xF else (w >> 12) & 0xF
  }

  function NibbleMask(d: nat): Sides
    requires d < 4
  {
    if d == 0 then 0xF else if d == 1 then 0xF0 else if d == 2 then 0xF00 else 0xF000
  }

  predicate IsF(piece: Piece) { piece & 12 == 0 }

  predicate IsL(piece: Piece) { piece & 12 == 12 }

  predicate IsLocked(piece: Piece) { piece & 0x40 != 0 }

  function Lock(piece: Piece): Piece { piece | 0x40 }

  predicate IsMarked(piece: Piece) { piece & 0x80 != 0 }

  function Mark(piece: Piece): Piece { piece | 0x80 }

  function Unmark(piece: Piece): Piece { piece & 0x7F }

  function Point(piece: Piece, direction: Piece): Piece {
    (piece & 0xFC) | (direction & 3)
  }

  function LockStatus(piece: Piece): Sides {
    if IsLocked(piece) then 0xF else 0
  }

  function InvertOrientation(orientation: Sides): Sides {
    (orientation >> 2) | ((orientation << 2) & 0xC)
  }

  function Pick(direction: Piece, right: Sides, up: Sides, left: Sides, down: Sides): Sides {
    if direction & 3 == 0 then right else if direction & 3 == 1 then up else if direction & 3 == 2 then left else down
  }

  /** The openings of a piece: one for type F, three for B, two at a corner for V, two in line for L. */
  function GetOrientation(piece: Piece): Sides {
    if piece & 12 == 0 then Pick(piece, 0x1, 0x2, 0x4, 0x8)
    else if piece & 12 == 4 then Pick(piece, 0xB, 0x7, 0xE, 0xD)
    else if piece & 12 == 8 then Pick(piece, 0x3, 0x6, 0xC, 0x9)
    else Pick(piece, 0x5, 0xA, 0x5, 0xA)
  }

  /** Whether a piece of this type opens toward e when it points to d. Type V opens to d and to the next side
      around, type B everywhere but opposite to d. */
  predicate OpensTo(piece: Piece, d: nat, e: nat)
    requires d < 4 && e < 4
  {
    if piece & 12 == 0 then e == d
    else if piece & 12 == 4 then e != Opposite(d)
    else if piece & 12 == 8 then e == d || e == (d + 1) % 4
    else e == d || e == Opposite(d)
  }

  /** The table of openings turns with the piece. */
  lemma TableTurns(piece: Piece, d: nat, e: nat)
    requires d < 4 && e < 4
    ensures Bit(GetOrientation(Point(piece, d as Piece)), e) <==> OpensTo(piece, d, e)
    ensures GetOrientation(Point(piece, d as Piece)) < 16
  {
    assert d == 0 || d == 1 || d == 2 || d == 3;
    assert e == 0 || e == 1 || e == 2 || e == 3;
  }

  /** The openings o are those of the type turned to d. */
  ghost predicate TurnedTo(piece: Piece, o: Sides, d: nat)
    requires d < 4
  {
    o < 16 && forall e: nat :: e < 4 ==> (Bit(o, e) <==> OpensTo(piece, d, e))
  }

  ghost predicate Turned(piece: Piece, o: Sides) {
    exists d: nat :: d < 4 && TurnedTo(piece, o, d)
  }

  lemma SameBits(a: Sides, b: Sides)
    requires a < 16 && b < 16 && forall e: nat :: e < 4 ==> (Bit(a, e) <==> Bit(b, e))
    ensures a == b
  {
    assert (Bit(a, 0) <==> Bit(b, 0)) && (Bit(a, 1) <==> Bit(b, 1));
    assert (Bit(a, 2) <==> Bit(b, 2)) && (Bit(a, 3) <==> Bit(b, 3));
  }

  /** The openings that the table gives a piece in some direction are exactly the turns of its type. */
  lemma TableIsTurned(piece: Piece, o: Sides)
    ensures (exists x: Piece :: x < 4 && o == GetOrientation(Point(piece, x))) <==> Turned(piece, o)
  {
    if x: Piece :| x < 4 && o == GetOrientation(Point(piece, x)) {
      var d := x as nat;
      forall e: nat | e < 4
        ensures Bit(o, e) <==> OpensTo(piece, d, e)
      {
        TableTurns(piece, d, e);
      }
      TableTurns(piece, d, 0);
      assert TurnedTo(piece, o, d);
    }
    if Turned(piece, o) {
      var d: nat :| d < 4 && TurnedTo(piece, o, d);
      forall e: nat | e < 4
        ensures Bit(GetOrientation(Point(piece, d as Piece)), e) <==> Bit(o, e)
      {
        TableTurns(piece, d, e);
      }
      TableTurns(piece, d, 0);
      SameBits(o, GetOrientation(Point(piece, d as Piece)));
    }
  }

  // ---------- the text of a piece ----------

  /** A letter for the type and one for the direction: D right, C up, E left, B down, H and V for straight pieces. */
  function ParsePiece(text: string): Option<Piece> {
    if |text| < 2 || text[0] !in {'F', 'B', 'V', 'L'} || text[1] !in {'D', 'C', 'E', 'B', 'H', 'V'} then None
    else
      var kind: Piece := if text[0] == 'F' then 0 else if text[0] == 'B' then 4 else if text[0] == 'V' then 8 else 12;
      Some(Point(kind, if text[1] in {'D', 'H'} then 0 else if text[1] in {'C', 'V'} then 1
                       else if text[1] == 'E' then 2 else 3))
  }

  function PieceText(piece: Piece): string {
    var d := piece & 3;
    var letter := if d == 0 then 'D' else if d == 1 then 'C' else if d == 2 then 'E' else 'B';
    if piece & 12 == 0 then ['F', letter]
    else if piece & 12 == 4 then ['B', letter]
    else if piece & 12 == 8 then ['V', letter]
    else ['L', if d == 0 || d == 2 then 'H' else 'V']
  }

  /** Reading a printed piece gives the type and the openings back, without lock and mark. */
  lemma TextBack(piece: Piece)
    ensures var read := ParsePiece(PieceText(piece));
            && read.Some? && !IsLocked(read.value) && !IsMarked(read.value)
            && read.value & 12 == piece & 12 && GetOrientation(read.value) == GetOrientation(piece)
            && PieceText(read.value) == PieceText(piece)
  {
    assert piece & 3 == 0 || piece & 3 == 1 || piece & 3 == 2 || piece & 3 == 3;
  }

  /** The printed text tells the openings, and the openings tell the text. */
  lemma TextTellsOpenings(a: Piece, b: Piece)
    ensures PieceText(a) == PieceText(b) <==> GetOrientation(a) == GetOrientation(b)
  {
    TextBack(a);
    TextBack(b);
    if GetOrientation(a) == GetOrientation(b) {
      assert a & 12 == b & 12;
      assert a & 12 == 12 || a & 3 == b & 3;
    }
  }

  /** What the letters mean: the openings of each text, side by side. */
  lemma LettersMean(text: string, d: nat, e: nat)
    requires |text| == 2 && text[0] in {'F', 'B', 'V', 'L'} && d < 4 && e < 4
    requires text[1] == "DCEB"[d] || (d < 2 && text[1] == "HV"[d])
    ensures ParsePiece(text).Some?
    ensures Bit(GetOrientation(ParsePiece(text).value), e) <==>
            match text[0]
            case 'F' => e == d
            case 'B' => e != Opposite(d)
            case 'V' => e == d || e == (d + 1) % 4
            case _ => e == d || e == Opposite(d)
  {
    assert d == 0 || d == 1 || d == 2 || d == 3;
    assert e == 0 || e == 1 || e == 2 || e == 3;
  }

  function One(b: bool): nat { if b then 1 else 0 }

  function ConnectionsNeeded(orientation: Sides): nat {
    One(orientation & 1 != 0) + One((orientation >> 1) & 1 != 0) + One((orientation >> 2) & 1 != 0) +
      One((orientation >> 3) & 1 != 0)
  }

  function ConnectionsDone(piece: Piece, orientations: Sides): nat {
    var ori := GetOrientation(piece);
    One((ori & 1) & orientations != 0) + One(((ori >> 1) & 1) & (orientations >> 5) != 0)
    + One(((ori >> 2) & 1) & (orientations >> 10) != 0) + One(((ori >> 3) & 1) & (orientations >> 15) != 0)
  }

  function Unanswered(piece: Piece, orientations: Sides, d: nat): nat
    requires d < 4
  {
    One(Bit(GetOrientation(piece), d) && !Diagonal(orientations, d))
  }

  lemma BitOfShift(o: Sides, w: Sides)
    ensures o & 1 != 0 <==> Bit(o, 0)
    ensures (o >> 1) & 1 != 0 <==> Bit(o, 1)
    ensures (o >> 2) & 1 != 0 <==> Bit(o, 2)
    ensures (o >> 3) & 1 != 0 <==> Bit(o, 3)
    ensures (o & 1) & w != 0 <==> Bit(o, 0) && Diagonal(w, 0)
    ensures ((o >> 1) & 1) & (w >> 5) != 0 <==> Bit(o, 1) && Diagonal(w, 1)
    ensures ((o >> 2) & 1) & (w >> 10) != 0 <==> Bit(o, 2) && Diagonal(w, 2)
    ensures ((o >> 3) & 1) & (w >> 15) != 0 <==> Bit(o, 3) && Diagonal(w, 3)
  {
  }

  lemma LeftBySides(piece: Piece, orientations: Sides)
    ensures ConnectionsNeeded(GetOrientation(piece)) - ConnectionsDone(piece, orientations)
            == Unanswered(piece, orientations, 0) + Unanswered(piece, orientations, 1)
               + Unanswered(piece, orientations, 2) + Unanswered(piece, orientations, 3)
  {
    BitOfShift(GetOrientation(piece), orientations);
  }

  /** The openings of a piece that its neighbours do not answer. */
  function ConnectionsLeft(piece: Piece, orientations: Sides): (left: int)
    ensures left >= 0
    ensures left == 0 <==> forall d: nat :: d < 4 && Bit(GetOrientation(piece), d) ==> Diagonal(orientations, d)
  {
    LeftBySides(piece, orientations);
    ConnectionsNeeded(GetOrientation(piece)) - ConnectionsDone(piece, orientations)
  }

  lemma OrientationRange(piece: Piece)
    ensures 0 < GetOrientation(piece) < 16
    ensures exists d: nat :: d < 4 && Bit(GetOrientation(piece), d)
  {
    assert Bit(GetOrientation(piece), 0) || Bit(GetOrientation(piece), 1)
        || Bit(GetOrientation(piece), 2) || Bit(GetOrientation(piece), 3);
  }

  lemma InvertBits(o: Sides, d: nat)
    requires o < 16 && d < 4
    ensures InvertOrientation(o) < 16
    ensures Bit(InvertOrientation(o), d) <==> Bit(o, Opposite(d))
  {
  }

  /** A piece has one opening exactly when it is of type F, also after inverting. */
  lemma SingleOpening(piece: Piece)
    ensures ConnectionsNeeded(InvertOrientation(GetOrientation(piece))) == 1 <==> IsF(piece)
  {
  }

  lemma SingleOpeningSide(piece: Piece, d: nat, e: nat)
    requires IsF(piece) && d < 4 && e < 4 && Bit(GetOrientation(piece), d) && Bit(GetOrientation(piece), e)
    ensures d == e
  {
  }

  lemma TwoOpenings(piece: Piece) returns (d: nat, e: nat)
    requires !IsF(piece)
    ensures d < 4 && e < 4 && d != e && Bit(GetOrientation(piece), d) && Bit(GetOrientation(piece), e)
  {
    var o := GetOrientation(piece);
    d := if Bit(o, 0) then 0 else if Bit(o, 1) then 1 else 2;
    e := if Bit(o, 3) then 3 else if Bit(o, 2) then 2 else 1;
  }

  /** Pointing, locking and marking keep the type; only pointing changes the openings. */
  lemma PointKeeps(piece: Piece, direction: Piece)
    ensures Point(piece, direction) & 3 == direction & 3 && Point(piece, direction) & 12 == piece & 12
    ensures IsLocked(Point(piece, direction)) <==> IsLocked(piece)
    ensures IsMarked(Point(piece, direction)) <==> IsMarked(piece)
  {
  }

  lemma LockKeeps(piece: Piece)
    ensures GetOrientation(Lock(piece)) == GetOrientation(piece) && Lock(piece) & 12 == piece & 12
    ensures IsLocked(Lock(piece)) && (IsMarked(Lock(piece)) <==> IsMarked(piece))
  {
  }

  lemma MarkKeeps(piece: Piece)
    ensures GetOrientation(Mark(piece)) == GetOrientation(piece) && Mark(piece) & 12 == piece & 12
    ensures IsMarked(Mark(piece)) && (IsLocked(Mark(piece)) <==> IsLocked(piece))
    ensures !IsMarked(piece) ==> Unmark(Mark(piece)) == piece
    ensures Unmark(Unmark(piece)) == Unmark(piece) && !IsMarked(Unmark(piece))
    ensures Unmark(Mark(piece)) == Unmark(piece)
  {
  }

  lemma PointTwice(piece: Piece, a: Piece, b: Piece)
    ensures GetOrientation(Point(Lock(Point(piece, a)), b)) == GetOrientation(Point(piece, b))
    ensures GetOrientation(Point(Point(piece, a), b)) == GetOrientation(Point(piece, b))
    ensures GetOrientation(Point(piece, piece)) == GetOrientation(piece)
  {
  }

  /** A straight piece looks the same in opposite directions. */
  lemma StraightHalf(piece: Piece, direction: Piece)
    requires IsL(piece)
    ensures GetOrientation(Point(piece, direction)) == GetOrientation(Point(piece, direction & 1))
  {
  }

  // ---------- inferring the alignments of a piece ----------

  /** What the surroundings ask of side d: the neighbour is locked and points here; or the side must
      stay closed, because there is no neighbour, a locked one does not point here, or it would join
      two pieces of type F. */
  predicate Required(neighbours: Sides, locked: Sides, d: nat)
    requires d < 4
  {
    Diagonal(locked, d) && Diagonal(neighbours, d)
  }

  predicate Forbidden(piece: Piece, neighbours: Sides, locked: Sides, empty: Sides, d: nat)
    requires d < 4
  {
    || Diagonal(empty, d)
    || (Diagonal(locked, d) && !Diagonal(neighbours, d))
    || (IsF(piece) && ConnectionsNeeded(Nibble(neighbours, d)) == 1)
  }

  ghost predicate SideFits(piece: Piece, direction: Piece, neighbours: Sides, locked: Sides, empty: Sides, d: nat)
    requires d < 4
  {
    var opens := Bit(GetOrientation(Point(piece, direction)), d);
    && (Required(neighbours, locked, d) ==> opens)
    && (Forbidden(piece, neighbours, locked, empty, d) ==> !opens)
  }

  ghost predicate Fits(piece: Piece, direction: Piece, neighbours: Sides, locked: Sides, empty: Sides) {
    forall d: nat :: d < 4 ==> SideFits(piece, direction, neighbours, locked, empty, d)
  }

  function Spread(ori: Sides): Sides {
    (ori & 0x1) | (((ori >> 1) & 1) << 5) | (((ori >> 2) & 1) << 10) | (((ori >> 3) & 1) << 15)
  }

  lemma SpreadBits(o: Sides)
    ensures Spread(o) & 0x7BDE == 0
    ensures Diagonal(Spread(o), 0) <==> Bit(o, 0)
    ensures Diagonal(Spread(o), 1) <==> Bit(o, 1)
    ensures Diagonal(Spread(o), 2) <==> Bit(o, 2)
    ensures Diagonal(Spread(o), 3) <==> Bit(o, 3)
  {
  }

  function BitTo4Bits(w: Sides): Sides {
    var bit := w & 1;
    bit | (bit << 1) | (bit << 2) | (bit << 3)
  }

  /** `empty` with the nibbles of the sides in `not_needed` filled. */
  function Closed(empty: Sides, notNeeded: Sides): Sides {
    empty | BitTo4Bits(notNeeded) | (BitTo4Bits(notNeeded >> 5) << 4)
    | (BitTo4Bits(notNeeded >> 10) << 8) | (BitTo4Bits(notNeeded >> 15) << 12)
  }

  lemma ClosedBits(empty: Sides, notNeeded: Sides)
    ensures Diagonal(Closed(empty, notNeeded), 0) <==> Diagonal(empty, 0) || Diagonal(notNeeded, 0)
    ensures Diagonal(Closed(empty, notNeeded), 1) <==> Diagonal(empty, 1) || Diagonal(notNeeded, 1)
    ensures Diagonal(Closed(empty, notNeeded), 2) <==> Diagonal(empty, 2) || Diagonal(notNeeded, 2)
    ensures Diagonal(Closed(empty, notNeeded), 3) <==> Diagonal(empty, 3) || Diagonal(notNeeded, 3)
  {
  }

  lemma ClosedBit(empty: Sides, notNeeded: Sides, d: nat)
    requires d < 4
    ensures Diagonal(Closed(empty, notNeeded), d) <==> Diagonal(empty, d) || Diagonal(notNeeded, d)
  {
    var closed := Closed(empty, notNeeded);
    assert Diagonal(closed, 0) <==> Diagonal(empty, 0) || Diagonal(notNeeded, 0) by { ClosedBits(empty, notNeeded); }
    assert Diagonal(closed, 1) <==> Diagonal(empty, 1) || Diagonal(notNeeded, 1) by { ClosedBits(empty, notNeeded); }
    assert Diagonal(closed, 2) <==> Diagonal(empty, 2) || Diagonal(notNeeded, 2) by { ClosedBits(empty, notNeeded); }
    assert Diagonal(closed, 3) <==> Diagonal(empty, 3) || Diagonal(notNeeded, 3) by { ClosedBits(empty, notNeeded); }
    if d == 0 {
    } else if d == 1 {
    } else if d == 2 {
    } else {
    }
  }

  lemma SpreadBit(o: Sides, d: nat)
    requires d < 4
    ensures Diagonal(Spread(o), d) <==> Bit(o, d)
  {
    SpreadBits(o);
    assert d == 0 || d == 1 || d == 2 || d == 3;
  }

  lemma NeededBits(neighbours: Sides, locked: Sides, d: nat)
    requires d < 4
    ensures Diagonal(neighbours & locked & 0x8421, d) <==> Diagonal(neighbours, d) && Diagonal(locked, d)
    ensures Diagonal((neighbours ^ 0xFFFF) & locked & 0x8421, d) <==> !Diagonal(neighbours, d) && Diagonal(locked, d)
  {
  }

  /** Masks on the diagonal compare side by side. */
  lemma DiagonalMasks(needed: Sides, empty: Sides, ori: Sides)
    requires needed & 0x7BDE == 0 && ori & 0x7BDE == 0
    ensures needed & ori == needed <==> forall d: nat :: d < 4 && Diagonal(needed, d) ==> Diagonal(ori, d)
    ensures empty & ori == 0 <==> forall d: nat :: d < 4 && Diagonal(empty, d) ==> !Diagonal(ori, d)
  {
    assert needed & ori == needed <==>
        (Diagonal(needed, 0) ==> Diagonal(ori, 0)) && (Diagonal(needed, 1) ==> Diagonal(ori, 1))
        && (Diagonal(needed, 2) ==> Diagonal(ori, 2)) && (Diagonal(needed, 3) ==> Diagonal(ori, 3));
    assert empty & ori == 0 <==>
        (Diagonal(empty, 0) ==> !Diagonal(ori, 0)) && (Diagonal(empty, 1) ==> !Diagonal(ori, 1))
        && (Diagonal(empty, 2) ==> !Diagonal(ori, 2)) && (Diagonal(empty, 3) ==> !Diagonal(ori, 3));
  }

  lemma MaskBits(empty: Sides, d: nat, e: nat)
    requires d < 4 && e < 4
    ensures Diagonal(empty | NibbleMask(d), e) <==> Diagonal(empty, e) || d == e
  {
  }

  lemma ClosedForbidden(piece: Piece, neighbours: Sides, locked: Sides, empty: Sides, barred: Sides, d: nat)
    requires d < 4
    requires Diagonal(barred, d) <==>
             Diagonal(empty, d) || (IsF(piece) && ConnectionsNeeded(Nibble(neighbours, d)) == 1)
    ensures Diagonal(Closed(barred, (neighbours ^ 0xFFFF) & locked & 0x8421), d)
            <==> Forbidden(piece, neighbours, locked, empty, d)
  {
    ClosedBit(barred, (neighbours ^ 0xFFFF) & locked & 0x8421, d);
    NeededBits(neighbours, locked, d);
  }

  /** The first loop of the inference: a piece with one opening must not face another one. */
  method BarSingleOpenings(neighbours: Sides, empty: Sides) returns (barred: Sides)
    ensures forall d: nat :: d < 4 ==>
              (Diagonal(barred, d) <==> Diagonal(empty, d) || ConnectionsNeeded(Nibble(neighbours, d)) == 1)
  {
    barred := empty;
    for direction := 0 to 4
      invariant forall d: nat :: d < 4 ==>
                  (Diagonal(barred, d) <==>
                   Diagonal(empty, d) || (d < direction && ConnectionsNeeded(Nibble(neighbours, d)) == 1))
    {
      if ConnectionsNeeded(Nibble(neighbours, direction)) == 1 {
        forall e: nat | e < 4
          ensures Diagonal(barred | NibbleMask(direction), e) <==> Diagonal(barred, e) || direction == e
        {
          MaskBits(barred, direction, e);
        }
        barred := barred | NibbleMask(direction);
      }
    }
  }

  lemma FitsByMasks(piece: Piece, direction: Piece, neighbours: Sides, locked: Sides, empty: Sides, closed: Sides)
    requires forall d: nat :: d < 4 ==> (Diagonal(closed, d) <==> Forbidden(piece, neighbours, locked, empty, d))
    ensures var spread := Spread(GetOrientation(Point(piece, direction)));
            var needed := neighbours & locked & 0x8421;
            needed & spread == needed && closed & spread == 0 <==> Fits(piece, direction, neighbours, locked, empty)
  {
    var ori := GetOrientation(Point(piece, direction));
    var needed, spread := neighbours & locked & 0x8421, Spread(ori);
    SpreadBits(ori);
    assert needed & 0x7BDE == 0;
    DiagonalMasks(needed, closed, spread);
    forall d: nat | d < 4
      ensures Diagonal(spread, d) <==> Bit(ori, d)
      ensures Diagonal(needed, d) <==> Required(neighbours, locked, d)
      ensures SideFits(piece, direction, neighbours, locked, empty, d) <==>
                (Diagonal(needed, d) ==> Diagonal(spread, d)) && (Diagonal(closed, d) ==> !Diagonal(spread, d))
    {
      NeededBits(neighbours, locked, d);
      SpreadBit(ori, d);
    }
  }

  /** The last loop of the inference: tries the directions in turn against the two masks. */
  method TryDirections(piece: Piece, needed: Sides, closed: Sides, ghost neighbours: Sides, ghost locked: Sides,
                       ghost empty: Sides)
    returns (res: seq<Piece>)
    requires needed == neighbours & locked & 0x8421
    requires forall d: nat :: d < 4 ==> (Diagonal(closed, d) <==> Forbidden(piece, neighbours, locked, empty, d))
    ensures forall x :: x in res <==> x < 4 && (IsL(piece) ==> x < 2) && Fits(piece, x, neighbours, locked, empty)
    ensures forall i, j :: 0 <= i < j < |res| ==> res[i] < res[j]
  {
    res := [];
    var direction: Piece := 0;
    var stop: Piece := if IsL(piece) then 2 else 4;
    while direction < stop
      invariant direction <= stop
      invariant forall x :: x in res <==> x < direction && Fits(piece, x, neighbours, locked, empty)
      invariant forall i :: 0 <= i < |res| ==> res[i] < direction
      invariant forall i, j :: 0 <= i < j < |res| ==> res[i] < res[j]
      decreases stop - direction
    {
      var ori := Spread(GetOrientation(Point(piece, direction)));
      FitsByMasks(piece, direction, neighbours, locked, empty, closed);
      if needed & ori == needed && closed & ori == 0 {
        res := res + [direction];
      }
      direction := direction + 1;
    }
  }

  /** The alignments of a piece that its surroundings allow, in increasing order; a straight piece has two to try. */
  method Infer(piece: Piece, neighbours: Sides, locked: Sides, empty: Sides) returns (res: seq<Piece>)
    ensures forall x :: x in res <==> x < 4 && (IsL(piece) ==> x < 2) && Fits(piece, x, neighbours, locked, empty)
    ensures forall i, j :: 0 <= i < j < |res| ==> res[i] < res[j]
  {
    var barred := empty;
    if IsF(piece) {
      barred := BarSingleOpenings(neighbours, empty);
    }
    var needed := neighbours & locked & 0x8421;
    var closed := Closed(barred, (neighbours ^ 0xFFFF) & locked & 0x8421);
    forall d: nat | d < 4
      ensures Diagonal(closed, d) <==> Forbidden(piece, neighbours, locked, empty, d)
    {
      ClosedForbidden(piece, neighbours, locked, empty, barred, d);
    }
    res := TryDirections(piece, needed, closed, neighbours, locked, empty);
  }
}
