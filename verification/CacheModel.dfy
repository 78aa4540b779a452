/** Contents of the two-level write-back cache as values, and what each step does to them. */
module CacheModel {
  import opened CacheAddress

  type Word = bv32
  type Block = seq<Word>

  datatype CacheLine = CacheLine(valid: bool, dirty: bool, tag: nat)

  /** The second level over the memory; `mru` has one entry per set when the level is associative. */
  datatype Lower = Lower(lines: seq<CacheLine>, buffer: seq<Block>, mru: seq<nat>, dram: seq<Block>)

  datatype Upper = Upper(lines: seq<CacheLine>, buffer: seq<Block>)

  // ---------- the second level ----------

  ghost predicate LowerShape(g: Geometry, low: Lower) {
    && g.Valid()
    && |low.lines| == |low.buffer| == g.blocks2 && |low.dram| == g.blocksD
    && |low.mru| == (if g.associative then g.Sets() else 0)
    && (forall s :: 0 <= s < |low.mru| ==> low.mru[s] < 2)
    && (forall p :: 0 <= p < g.blocks2 ==> |low.buffer[p]| == g.words)
    && (forall b :: 0 <= b < g.blocksD ==> |low.dram[b]| == g.words)
  }

  lemma SlotBounds(g: Geometry, s: nat)
    requires g.Valid() && s < g.Sets()
    ensures g.associative ==> 2 * s + 1 < g.blocks2
    ensures !g.associative ==> s < g.blocks2
  {
  }

  predicate Matches(line: CacheLine, tag: nat) {
    line.valid && line.tag == tag
  }

  /** The slot where block b is, or the slot it would be put in. */
  ghost function Slot(g: Geometry, low: Lower, b: nat): (p: nat)
    requires LowerShape(g, low)
    ensures p < g.blocks2 && g.SetOf(p) == b % g.Sets()
  {
    var s, tag := b % g.Sets(), b / g.Sets();
    SlotBounds(g, s);
    if !g.associative then s
    else if Matches(low.lines[2 * s], tag) then 2 * s
    else if Matches(low.lines[2 * s + 1], tag) then 2 * s + 1
    else 2 * s + (low.mru[s] + 1) % 2
  }

  ghost predicate Held(g: Geometry, low: Lower, b: nat)
    requires LowerShape(g, low)
  {
    Matches(low.lines[Slot(g, low, b)], b / g.Sets())
  }

  /** Block b is held in the slot used last in its set. */
  ghost predicate HeldRecently(g: Geometry, low: Lower, b: nat)
    requires LowerShape(g, low)
  {
    Held(g, low, b) && (g.associative ==> low.mru[b % g.Sets()] == Slot(g, low, b) % 2)
  }

  /** The block that the line in slot p describes. */
  ghost function BlockAt(g: Geometry, low: Lower, p: nat): nat
    requires LowerShape(g, low) && p < g.blocks2
  {
    low.lines[p].tag * g.Sets() + g.SetOf(p)
  }

  ghost predicate CleanAgrees(g: Geometry, low: Lower, p: nat)
    requires LowerShape(g, low) && p < g.blocks2
  {
    low.lines[p].valid ==>
      && BlockAt(g, low, p) < g.blocksD
      && (!low.lines[p].dirty ==> low.buffer[p] == low.dram[BlockAt(g, low, p)])
  }

  ghost predicate NoTagTwice(g: Geometry, low: Lower, s: nat)
    requires LowerShape(g, low) && g.associative && s < g.Sets()
  {
    SlotBounds(g, s);
    !(low.lines[2 * s].valid && low.lines[2 * s + 1].valid && low.lines[2 * s].tag == low.lines[2 * s + 1].tag)
  }

  ghost predicate LowerInv(g: Geometry, low: Lower) {
    && LowerShape(g, low)
    && (forall p: nat :: p < g.blocks2 ==> CleanAgrees(g, low, p))
    && (g.associative ==> forall s: nat :: s < g.Sets() ==> NoTagTwice(g, low, s))
  }

  /** What the second level and the memory together hold for block b. */
  ghost function LowerContent(g: Geometry, low: Lower, b: nat): Block
    requires LowerShape(g, low) && b < g.blocksD
  {
    if Held(g, low, b) then low.buffer[Slot(g, low, b)] else low.dram[b]
  }

  lemma SlotSet(g: Geometry, p: nat)
    requires g.Valid() && p < g.blocks2
    ensures g.SetOf(p) < g.Sets()
    ensures g.associative ==> p == 2 * (p / 2) || p == 2 * (p / 2) + 1
    ensures !g.associative ==> g.SetOf(p) == p
  {
  }

  /** A valid line is found again when its block is looked up, and a found block is the line's block. */
  lemma FoundWhereStored(g: Geometry, low: Lower, p: nat)
    requires LowerInv(g, low) && p < g.blocks2 && low.lines[p].valid
    ensures Held(g, low, BlockAt(g, low, p)) && Slot(g, low, BlockAt(g, low, p)) == p
  {
    var s := g.SetOf(p);
    SlotSet(g, p);
    Decompose(g.Sets(), low.lines[p].tag, s);
    if g.associative {
      assert NoTagTwice(g, low, s);
    }
  }

  lemma StoredWhereFound(g: Geometry, low: Lower, b: nat)
    requires LowerShape(g, low) && Held(g, low, b)
    ensures BlockAt(g, low, Slot(g, low, b)) == b
  {
    Compose(g.Sets(), b);
  }

  /** Replacing one line leaves the lookups of the other sets alone. */
  lemma OtherSets(g: Geometry, low: Lower, low': Lower, s: nat, b: nat)
    requires LowerShape(g, low) && LowerShape(g, low') && b % g.Sets() != s
    requires forall p: nat :: p < g.blocks2 && g.SetOf(p) != s ==> low'.lines[p] == low.lines[p]
    requires forall i: nat :: i < |low.mru| && i != s ==> low'.mru[i] == low.mru[i]
    ensures Slot(g, low', b) == Slot(g, low, b) && (Held(g, low', b) <==> Held(g, low, b))
  {
    SlotBounds(g, b % g.Sets());
  }

  // ---------- write-back into the second level ----------

  /** Writing a whole block into the slot found for it marks that slot dirty. */
  ghost function WriteBack2(g: Geometry, low: Lower, c: nat, data: Block): Lower
    requires LowerShape(g, low)
  {
    var p := Slot(g, low, c);
    low.(lines := low.lines[p := low.lines[p].(dirty := true)], buffer := low.buffer[p := data])
  }

  lemma WriteBack2SameTags(g: Geometry, low: Lower, c: nat, data: Block, b: nat)
    requires LowerInv(g, low) && |data| == g.words
    ensures LowerShape(g, WriteBack2(g, low, c, data))
    ensures Slot(g, WriteBack2(g, low, c, data), b) == Slot(g, low, b)
    ensures Held(g, WriteBack2(g, low, c, data), b) <==> Held(g, low, b)
    ensures HeldRecently(g, WriteBack2(g, low, c, data), b) <==> HeldRecently(g, low, b)
  {
    SlotBounds(g, b % g.Sets());
  }

  /** For a block that is held, the write-back changes that block's content and no other. */
  lemma WriteBack2Correct(g: Geometry, low: Lower, c: nat, data: Block)
    requires LowerInv(g, low) && |data| == g.words && c < g.blocksD && Held(g, low, c)
    ensures LowerInv(g, WriteBack2(g, low, c, data))
    ensures forall b: nat :: b < g.blocksD ==>
              LowerContent(g, WriteBack2(g, low, c, data), b) == if b == c then data else LowerContent(g, low, b)
  {
    var low' := WriteBack2(g, low, c, data);
    WriteBack2SameTags(g, low, c, data, c);
    forall p: nat | p < g.blocks2
      ensures CleanAgrees(g, low', p)
    {
      assert CleanAgrees(g, low, p);
    }
    if g.associative {
      forall s: nat | s < g.Sets()
        ensures NoTagTwice(g, low', s)
      {
        SlotBounds(g, s);
        assert NoTagTwice(g, low, s);
      }
    }
    forall b: nat | b < g.blocksD
      ensures LowerContent(g, low', b) == if b == c then data else LowerContent(g, low, b)
    {
      WriteBack2SameTags(g, low, c, data, b);
      if Held(g, low, b) {
        StoredWhereFound(g, low, b);
        StoredWhereFound(g, low, c);
      }
    }
  }

  // ---------- fetch through the second level ----------

  /** The victim of a miss goes to memory when it is valid and dirty. */
  ghost function Evict2(g: Geometry, low: Lower, p: nat): (low': Lower)
    requires LowerInv(g, low) && p < g.blocks2
    ensures LowerShape(g, low')
  {
    if low.lines[p].valid && low.lines[p].dirty then
      assert CleanAgrees(g, low, p);
      low.(dram := low.dram[BlockAt(g, low, p) := low.buffer[p]])
    else
      low
  }

  ghost function Fill2(g: Geometry, low: Lower, b: nat, p: nat): Lower
    requires LowerShape(g, low) && b < g.blocksD && p < g.blocks2
  {
    low.(lines := low.lines[p := CacheLine(true, false, b / g.Sets())], buffer := low.buffer[p := low.dram[b]])
  }

  ghost function Touch2(g: Geometry, low: Lower, b: nat, p: nat): Lower
    requires LowerShape(g, low)
  {
    if g.associative then low.(mru := low.mru[b % g.Sets() := p % 2]) else low
  }

  ghost function Fetch2(g: Geometry, low: Lower, b: nat): Lower
    requires LowerInv(g, low) && b < g.blocksD
  {
    var p := Slot(g, low, b);
    Touch2(g, if Held(g, low, b) then low else Fill2(g, Evict2(g, low, p), b, p), b, p)
  }

  /** Eviction does not change what is held for any block, and afterwards the victim agrees with memory. */
  lemma Evict2Correct(g: Geometry, low: Lower, p: nat)
    requires LowerInv(g, low) && p < g.blocks2
    ensures LowerShape(g, Evict2(g, low, p))
    ensures forall b: nat :: b < g.blocksD ==> LowerContent(g, Evict2(g, low, p), b) == LowerContent(g, low, b)
    ensures forall b: nat :: b < g.blocksD ==> (Held(g, Evict2(g, low, p), b) <==> Held(g, low, b))
    ensures low.lines[p].valid ==>
              BlockAt(g, low, p) < g.blocksD && Evict2(g, low, p).dram[BlockAt(g, low, p)] == low.buffer[p]
    ensures forall q: nat :: q < g.blocks2 && q != p ==> CleanAgrees(g, Evict2(g, low, p), q)
  {
    var low' := Evict2(g, low, p);
    assert CleanAgrees(g, low, p);
    forall b: nat
      ensures Slot(g, low', b) == Slot(g, low, b)
    {
    }
    if low.lines[p].valid {
      FoundWhereStored(g, low, p);
    }
    forall q: nat | q < g.blocks2 && q != p
      ensures CleanAgrees(g, low', q)
    {
      assert CleanAgrees(g, low, q);
      if low.lines[q].valid && low.lines[p].valid {
        FoundWhereStored(g, low, q);
      }
    }
  }

  /** The lines after a fetch: only the slot chosen for b can have changed, and it now holds b. */
  lemma Fetch2Lines(g: Geometry, low: Lower, b: nat)
    requires LowerInv(g, low) && b < g.blocksD
    ensures LowerShape(g, Fetch2(g, low, b))
    ensures HeldRecently(g, Fetch2(g, low, b), b) && Slot(g, Fetch2(g, low, b), b) == Slot(g, low, b)
    ensures forall q: nat :: q < g.blocks2 && q != Slot(g, low, b) ==>
              Fetch2(g, low, b).lines[q] == low.lines[q] && Fetch2(g, low, b).buffer[q] == low.buffer[q]
    ensures forall i: nat :: i < |low.mru| && i != b % g.Sets() ==> Fetch2(g, low, b).mru[i] == low.mru[i]
  {
    var s, p, low' := b % g.Sets(), Slot(g, low, b), Fetch2(g, low, b);
    SlotBounds(g, s);
    if !Held(g, low, b) {
      Evict2Correct(g, low, p);
      if low.lines[p].valid {
        SlotSet(g, p);
      }
    }
    assert LowerShape(g, low');
    assert low'.lines[p].tag == b / g.Sets() && low'.lines[p].valid;
    if g.associative && Held(g, low, b) {
      assert low'.lines == low.lines;
    }
  }

  lemma DistinctElsewhere(g: Geometry, low: Lower, b: nat, s: nat)
    requires LowerInv(g, low) && b < g.blocksD && g.associative && s < g.Sets() && s != b % g.Sets()
    ensures LowerShape(g, Fetch2(g, low, b)) && NoTagTwice(g, Fetch2(g, low, b), s)
  {
    Fetch2Lines(g, low, b);
    hide Fetch2, CleanAgrees, HeldRecently;
    SlotBounds(g, s);
    assert NoTagTwice(g, low, s);
  }

  /** In the set of b the slot chosen for it is the only one that can hold b. */
  lemma DistinctHere(g: Geometry, low: Lower, b: nat)
    requires LowerInv(g, low) && b < g.blocksD && g.associative
    ensures LowerShape(g, Fetch2(g, low, b)) && NoTagTwice(g, Fetch2(g, low, b), b % g.Sets())
  {
    var s := b % g.Sets();
    Fetch2Lines(g, low, b);
    hide Fetch2, CleanAgrees;
    SlotBounds(g, s);
    assert NoTagTwice(g, low, s);
  }

  lemma Fetch2Distinct(g: Geometry, low: Lower, b: nat)
    requires LowerInv(g, low) && b < g.blocksD && g.associative
    ensures LowerShape(g, Fetch2(g, low, b))
    ensures forall s: nat :: s < g.Sets() ==> NoTagTwice(g, Fetch2(g, low, b), s)
  {
    DistinctHere(g, low, b);
    forall s: nat | s < g.Sets()
      ensures NoTagTwice(g, Fetch2(g, low, b), s)
    {
      if s != b % g.Sets() {
        DistinctElsewhere(g, low, b, s);
      }
    }
  }

  lemma Fetch2Inv(g: Geometry, low: Lower, b: nat)
    requires LowerInv(g, low) && b < g.blocksD
    ensures LowerInv(g, Fetch2(g, low, b))
  {
    var s, p, low' := b % g.Sets(), Slot(g, low, b), Fetch2(g, low, b);
    Fetch2Lines(g, low, b);
    if !Held(g, low, b) {
      Evict2Correct(g, low, p);
    }
    forall q: nat | q < g.blocks2
      ensures CleanAgrees(g, low', q)
    {
      assert CleanAgrees(g, low, q);
      if q == p {
        StoredWhereFound(g, low', b);
      } else if !Held(g, low, b) {
        assert CleanAgrees(g, Evict2(g, low, p), q);
      }
    }
    if g.associative {
      Fetch2Distinct(g, low, b);
    }
  }

  lemma HitContent(g: Geometry, low: Lower, b: nat, c: nat)
    requires LowerInv(g, low) && b < g.blocksD && c < g.blocksD && Held(g, low, b)
    ensures LowerShape(g, Fetch2(g, low, b))
    ensures LowerContent(g, Fetch2(g, low, b), c) == LowerContent(g, low, c)
  {
    Fetch2Lines(g, low, b);
    SlotBounds(g, c % g.Sets());
  }

  /** After a miss no block but b has come to be held, and one still held is in the slot it had. */
  lemma MissHeld(g: Geometry, low: Lower, b: nat, c: nat)
    requires LowerInv(g, low) && b < g.blocksD && c < g.blocksD && c != b && LowerInv(g, Fetch2(g, low, b))
    requires Held(g, Fetch2(g, low, b), c)
    ensures Held(g, low, c) && Slot(g, Fetch2(g, low, b), c) == Slot(g, low, c) != Slot(g, low, b)
  {
    var low' := Fetch2(g, low, b);
    Fetch2Lines(g, low, b);
    StoredWhereFound(g, low', c);
    StoredWhereFound(g, low', b);
    FoundWhereStored(g, low, Slot(g, low', c));
  }

  /** A block held before a miss and not after it was in the evicted slot. */
  lemma MissEvicts(g: Geometry, low: Lower, b: nat, c: nat)
    requires LowerInv(g, low) && b < g.blocksD && c < g.blocksD && LowerInv(g, Fetch2(g, low, b))
    requires Held(g, low, c) && !Held(g, Fetch2(g, low, b), c)
    ensures Slot(g, low, c) == Slot(g, low, b) && BlockAt(g, low, Slot(g, low, b)) == c
  {
    var q := Slot(g, low, c);
    Fetch2Lines(g, low, b);
    StoredWhereFound(g, low, c);
    if q != Slot(g, low, b) {
      FoundWhereStored(g, Fetch2(g, low, b), q);
    }
  }

  lemma MissContent(g: Geometry, low: Lower, b: nat, c: nat)
    requires LowerInv(g, low) && b < g.blocksD && c < g.blocksD && c != b && !Held(g, low, b)
    requires LowerInv(g, Fetch2(g, low, b))
    ensures LowerContent(g, Fetch2(g, low, b), c) == LowerContent(g, low, c)
  {
    var p, low' := Slot(g, low, b), Fetch2(g, low, b);
    Evict2Correct(g, low, p);
    assert low'.dram == Evict2(g, low, p).dram;
    hide Slot, Fetch2, Evict2, CleanAgrees, NoTagTwice, BlockAt;
    if Held(g, low', c) {
      MissHeld(g, low, b, c);
      Fetch2Lines(g, low, b);
    } else if Held(g, low, c) {
      MissEvicts(g, low, b, c);
    } else {
      assert LowerContent(g, Evict2(g, low, p), c) == LowerContent(g, low, c);
    }
  }

  /** A fetch changes no block's content. */
  lemma Fetch2Content(g: Geometry, low: Lower, b: nat, c: nat)
    requires LowerInv(g, low) && b < g.blocksD && c < g.blocksD
    ensures LowerShape(g, Fetch2(g, low, b))
    ensures LowerContent(g, Fetch2(g, low, b), c) == LowerContent(g, low, c)
  {
    Fetch2Lines(g, low, b);
    Fetch2Inv(g, low, b);
    if Held(g, low, b) {
      HitContent(g, low, b, c);
    } else if c != b {
      MissContent(g, low, b, c);
    } else {
      Evict2Correct(g, low, Slot(g, low, b));
    }
  }

  // ---------- the first level ----------

  ghost predicate UpperShape(g: Geometry, up: Upper) {
    && g.Valid()
    && |up.lines| == |up.buffer| == g.blocks1
    && (forall i :: 0 <= i < g.blocks1 ==> |up.buffer[i]| == g.words)
  }

  ghost predicate Held1(g: Geometry, up: Upper, b: nat)
    requires UpperShape(g, up)
  {
    Matches(up.lines[b % g.blocks1], b / g.blocks1)
  }

  ghost function BlockAt1(g: Geometry, up: Upper, i: nat): nat
    requires UpperShape(g, up) && i < g.blocks1
  {
    up.lines[i].tag * g.blocks1 + i
  }

  /** A valid first-level line describes a block that the second level holds in its set's slot used
      last, with the same data unless the line is dirty. */
  ghost predicate Included(g: Geometry, up: Upper, low: Lower, i: nat)
    requires UpperShape(g, up) && LowerShape(g, low) && i < g.blocks1
  {
    up.lines[i].valid ==>
      && BlockAt1(g, up, i) < g.blocksD
      && HeldRecently(g, low, BlockAt1(g, up, i))
      && (!up.lines[i].dirty ==> up.buffer[i] == low.buffer[Slot(g, low, BlockAt1(g, up, i))])
  }

  ghost predicate Inv(g: Geometry, up: Upper, low: Lower) {
    && UpperShape(g, up) && LowerInv(g, low)
    && forall i: nat :: i < g.blocks1 ==> Included(g, up, low, i)
  }

  /** What the hierarchy holds for block b. */
  ghost function Content(g: Geometry, up: Upper, low: Lower, b: nat): Block
    requires UpperShape(g, up) && LowerShape(g, low) && b < g.blocksD
  {
    if Held1(g, up, b) then up.buffer[b % g.blocks1] else LowerContent(g, low, b)
  }

  lemma ContentLength(g: Geometry, up: Upper, low: Lower, b: nat)
    requires UpperShape(g, up) && LowerShape(g, low) && b < g.blocksD
    ensures |Content(g, up, low, b)| == g.words
  {
  }

  /** On a miss the conflicting line goes down to the second level when it is valid and dirty. */
  ghost function Evict1(g: Geometry, up: Upper, low: Lower, i: nat): Lower
    requires UpperShape(g, up) && LowerShape(g, low) && i < g.blocks1
  {
    if up.lines[i].valid && up.lines[i].dirty then WriteBack2(g, low, BlockAt1(g, up, i), up.buffer[i]) else low
  }

  lemma Evict1Correct(g: Geometry, up: Upper, low: Lower, i: nat)
    requires Inv(g, up, low) && i < g.blocks1
    ensures LowerInv(g, Evict1(g, up, low, i))
    ensures forall b: nat :: b < g.blocksD && b % g.blocks1 == i ==>
              LowerContent(g, Evict1(g, up, low, i), b) == Content(g, up, low, b)
    ensures forall b: nat :: b < g.blocksD && b % g.blocks1 != i ==>
              LowerContent(g, Evict1(g, up, low, i), b) == LowerContent(g, low, b)
    ensures forall j: nat :: j < g.blocks1 && j != i ==> Included(g, up, Evict1(g, up, low, i), j)
  {
    assert Included(g, up, low, i);
    var c, low' := BlockAt1(g, up, i), Evict1(g, up, low, i);
    Decompose(g.blocks1, up.lines[i].tag, i);
    if up.lines[i].valid && up.lines[i].dirty {
      WriteBack2Correct(g, low, c, up.buffer[i]);
    }
    forall b: nat | b < g.blocksD && b % g.blocks1 == i
      ensures LowerContent(g, low', b) == Content(g, up, low, b)
    {
      Compose(g.blocks1, b);
      if Held1(g, up, b) {
        assert b == c;
      }
    }
    forall j: nat | j < g.blocks1 && j != i
      ensures Included(g, up, low', j)
    {
      assert Included(g, up, low, j);
      if up.lines[j].valid && up.lines[i].valid && up.lines[i].dirty {
        var d := BlockAt1(g, up, j);
        Decompose(g.blocks1, up.lines[j].tag, j);
        WriteBack2SameTags(g, low, c, up.buffer[i], d);
        StoredWhereFound(g, low, d);
        StoredWhereFound(g, low, c);
      }
    }
  }

  /** What one first-level lookup leaves behind: the two levels after it. */
  ghost function Fetch1Lower(g: Geometry, up: Upper, low: Lower, b: nat): (low': Lower)
    requires Inv(g, up, low) && b < g.blocksD
    ensures LowerShape(g, low')
  {
    if Held1(g, up, b) then low
    else
      var mid := Evict1(g, up, low, b % g.blocks1);
      Evict1Correct(g, up, low, b % g.blocks1);
      Fetch2Lines(g, mid, b);
      Fetch2(g, mid, b)
  }

  ghost function Fetch1Upper(g: Geometry, up: Upper, low: Lower, b: nat): Upper
    requires Inv(g, up, low) && b < g.blocksD
  {
    var i, low' := b % g.blocks1, Fetch1Lower(g, up, low, b);
    if Held1(g, up, b) then up
    else
      Upper(up.lines[i := CacheLine(true, false, b / g.blocks1)], up.buffer[i := low'.buffer[Slot(g, low', b)]])
  }

  /** The line of block b's index is replaced; every other line keeps its copy below. */
  lemma OtherLinesIncluded(g: Geometry, up: Upper, low: Lower, b: nat, j: nat)
    requires UpperShape(g, up) && LowerInv(g, low) && b < g.blocksD
    requires j < g.blocks1 && j != b % g.blocks1 && Included(g, up, low, j)
    ensures LowerShape(g, Fetch2(g, low, b)) && Included(g, up, Fetch2(g, low, b), j)
  {
    Fetch2Lines(g, low, b);
    if up.lines[j].valid {
      var d := BlockAt1(g, up, j);
      Decompose(g.blocks1, up.lines[j].tag, j);
      if d % g.Sets() == b % g.Sets() {
        SameSetSameLine(g, d, b);
      }
      OtherSets(g, low, Fetch2(g, low, b), b % g.Sets(), d);
    }
  }

  lemma MissShape(g: Geometry, up: Upper, low: Lower, b: nat)
    requires Inv(g, up, low) && b < g.blocksD && !Held1(g, up, b)
    ensures UpperShape(g, Fetch1Upper(g, up, low, b))
    ensures HeldRecently(g, Fetch1Lower(g, up, low, b), b)
  {
    Evict1Correct(g, up, low, b % g.blocks1);
    Fetch2Lines(g, Evict1(g, up, low, b % g.blocks1), b);
    hide Fetch2, Evict1, CleanAgrees, NoTagTwice, Included, Held, HeldRecently;
  }

  lemma OthersIncluded(g: Geometry, up: Upper, low: Lower, b: nat, j: nat)
    requires Inv(g, up, low) && b < g.blocksD && !Held1(g, up, b) && j < g.blocks1 && j != b % g.blocks1
    ensures UpperShape(g, Fetch1Upper(g, up, low, b))
    ensures Included(g, Fetch1Upper(g, up, low, b), Fetch1Lower(g, up, low, b), j)
  {
    MissShape(g, up, low, b);
    Evict1Correct(g, up, low, b % g.blocks1);
    OtherLinesIncluded(g, up, Evict1(g, up, low, b % g.blocks1), b, j);
    hide Fetch2, Evict1, CleanAgrees, NoTagTwice, Slot, HeldRecently;
  }

  lemma MissIncluded(g: Geometry, up: Upper, low: Lower, b: nat, j: nat)
    requires Inv(g, up, low) && b < g.blocksD && !Held1(g, up, b) && j < g.blocks1
    ensures UpperShape(g, Fetch1Upper(g, up, low, b))
    ensures Included(g, Fetch1Upper(g, up, low, b), Fetch1Lower(g, up, low, b), j)
  {
    MissShape(g, up, low, b);
    if j != b % g.blocks1 {
      OthersIncluded(g, up, low, b, j);
    } else {
      Compose(g.blocks1, b);
      hide Fetch1Lower, CleanAgrees, NoTagTwice, Slot, HeldRecently;
    }
  }

  lemma MissKeeps(g: Geometry, up: Upper, low: Lower, b: nat, c: nat)
    requires Inv(g, up, low) && b < g.blocksD && !Held1(g, up, b) && c < g.blocksD
    ensures UpperShape(g, Fetch1Upper(g, up, low, b))
    ensures Content(g, Fetch1Upper(g, up, low, b), Fetch1Lower(g, up, low, b), c) == Content(g, up, low, c)
  {
    var i := b % g.blocks1;
    var mid := Evict1(g, up, low, i);
    Evict1Correct(g, up, low, i);
    Fetch2Lines(g, mid, b);
    Fetch2Content(g, mid, b, c);
    Compose(g.blocks1, b);
    Compose(g.blocks1, c);
    hide Fetch2, Evict1, CleanAgrees, NoTagTwice, Slot, Included;
  }

  /** A first-level fetch keeps the invariant and every block's content, and leaves b in the first level. */
  lemma Fetch1Correct(g: Geometry, up: Upper, low: Lower, b: nat)
    requires Inv(g, up, low) && b < g.blocksD
    ensures Inv(g, Fetch1Upper(g, up, low, b), Fetch1Lower(g, up, low, b))
    ensures Held1(g, Fetch1Upper(g, up, low, b), b)
    ensures forall c: nat :: c < g.blocksD ==>
              Content(g, Fetch1Upper(g, up, low, b), Fetch1Lower(g, up, low, b), c) == Content(g, up, low, c)
  {
    if !Held1(g, up, b) {
      var mid := Evict1(g, up, low, b % g.blocks1);
      Evict1Correct(g, up, low, b % g.blocks1);
      Fetch2Inv(g, mid, b);
      hide CleanAgrees, NoTagTwice, Slot, Evict1, Fetch2, Included, Content;
      forall j: nat | j < g.blocks1
        ensures Included(g, Fetch1Upper(g, up, low, b), Fetch1Lower(g, up, low, b), j)
      {
        MissIncluded(g, up, low, b, j);
      }
      forall c: nat | c < g.blocksD
        ensures Content(g, Fetch1Upper(g, up, low, b), Fetch1Lower(g, up, low, b), c) == Content(g, up, low, c)
      {
        MissKeeps(g, up, low, b, c);
      }
    }
  }

  /** Storing a word in a block that the first level holds. */
  ghost function Store1(g: Geometry, up: Upper, b: nat, offset: nat, w: Word): Upper
    requires UpperShape(g, up) && offset < g.words
  {
    var i := b % g.blocks1;
    Upper(up.lines[i := up.lines[i].(dirty := true)], up.buffer[i := up.buffer[i][offset := w]])
  }

  lemma Store1Correct(g: Geometry, up: Upper, low: Lower, b: nat, offset: nat, w: Word)
    requires Inv(g, up, low) && b < g.blocksD && Held1(g, up, b) && offset < g.words
    ensures Inv(g, Store1(g, up, b, offset, w), low)
    ensures forall c: nat :: c < g.blocksD ==>
              Content(g, Store1(g, up, b, offset, w), low, c)
              == if c == b then Content(g, up, low, b)[offset := w] else Content(g, up, low, c)
  {
    var i, up' := b % g.blocks1, Store1(g, up, b, offset, w);
    Compose(g.blocks1, b);
    forall j: nat | j < g.blocks1
      ensures Included(g, up', low, j)
    {
      assert Included(g, up, low, j);
    }
    forall c: nat | c < g.blocksD
      ensures Content(g, up', low, c) == if c == b then Content(g, up, low, b)[offset := w] else Content(g, up, low, c)
    {
      Compose(g.blocks1, c);
    }
  }

  // ---------- words ----------

  /** The word that the hierarchy holds at word address w. */
  ghost function WordIn(g: Geometry, up: Upper, low: Lower, w: nat): Word
    requires UpperShape(g, up) && LowerShape(g, low) && w / g.words < g.blocksD
  {
    ContentLength(g, up, low, w / g.words);
    Content(g, up, low, w / g.words)[w % g.words]
  }

  lemma FetchKeepsWords(g: Geometry, up: Upper, low: Lower, b: nat, w: nat)
    requires Inv(g, up, low) && b < g.blocksD && w / g.words < g.blocksD
    ensures Inv(g, Fetch1Upper(g, up, low, b), Fetch1Lower(g, up, low, b))
    ensures WordIn(g, Fetch1Upper(g, up, low, b), Fetch1Lower(g, up, low, b), w) == WordIn(g, up, low, w)
  {
    hide Included, CleanAgrees, NoTagTwice, Content, Fetch1Upper, Fetch1Lower;
    Fetch1Correct(g, up, low, b);
  }

  /** Storing a word changes the word at its own address only. */
  lemma StoreOneWord(g: Geometry, up: Upper, low: Lower, a: nat, data: Word, w: nat)
    requires Inv(g, up, low) && a / g.words < g.blocksD && Held1(g, up, a / g.words) && w / g.words < g.blocksD
    ensures Inv(g, Store1(g, up, a / g.words, a % g.words, data), low)
    ensures WordIn(g, Store1(g, up, a / g.words, a % g.words, data), low, w) ==
              if w == a then data else WordIn(g, up, low, w)
  {
    Store1Correct(g, up, low, a / g.words, a % g.words, data);
    ContentLength(g, up, low, a / g.words);
    Compose(g.words, w);
    Compose(g.words, a);
  }

  /** Fetching a block and storing a word in it changes that word only. */
  lemma WriteOneWord(g: Geometry, up: Upper, low: Lower, a: nat, data: Word)
    requires Inv(g, up, low) && a / g.words < g.blocksD
    ensures var up1, low1 := Fetch1Upper(g, up, low, a / g.words), Fetch1Lower(g, up, low, a / g.words);
            && Inv(g, up1, low1) && Held1(g, up1, a / g.words)
            && Inv(g, Store1(g, up1, a / g.words, a % g.words, data), low1)
            && forall w: nat :: w / g.words < g.blocksD ==>
                 WordIn(g, Store1(g, up1, a / g.words, a % g.words, data), low1, w) ==
                   if w == a then data else WordIn(g, up, low, w)
  {
    Fetch1Correct(g, up, low, a / g.words);
    hide Fetch1Upper, Fetch1Lower, Included, CleanAgrees, NoTagTwice, Store1, WordIn, Held1;
    var up1, low1 := Fetch1Upper(g, up, low, a / g.words), Fetch1Lower(g, up, low, a / g.words);
    StoreOneWord(g, up1, low1, a, data, a);
    forall w: nat | w / g.words < g.blocksD
      ensures WordIn(g, Store1(g, up1, a / g.words, a % g.words, data), low1, w) ==
                if w == a then data else WordIn(g, up, low, w)
    {
      FetchKeepsWords(g, up, low, a / g.words, w);
      StoreOneWord(g, up1, low1, a, data, w);
    }
  }

  // ---------- time ----------

  const L1_TIME := 1
  const L2_READ_TIME := 10
  const L2_WRITE_TIME := 5
  const DRAM_READ_TIME := 100
  const DRAM_WRITE_TIME := 50

  /** The time of a fetch through the second level. */
  ghost function Cost2(g: Geometry, low: Lower, b: nat): nat
    requires LowerShape(g, low)
  {
    var line := low.lines[Slot(g, low, b)];
    L2_READ_TIME +
      if Held(g, low, b) then 0
      else DRAM_READ_TIME + if line.valid && line.dirty then DRAM_WRITE_TIME else 0
  }

  /** The time of a first-level lookup, without the access itself. */
  ghost function Cost1(g: Geometry, up: Upper, low: Lower, b: nat): nat
    requires Inv(g, up, low) && b < g.blocksD
  {
    var line := up.lines[b % g.blocks1];
    if Held1(g, up, b) then 0
    else
      Evict1Correct(g, up, low, b % g.blocks1);
      (if line.valid && line.dirty then L2_WRITE_TIME else 0) + Cost2(g, Evict1(g, up, low, b % g.blocks1), b)
  }

  /** What a lookup costs: nothing when the first level has the block; 10 when the second level has it and 100 more
      when it has not, 5 for a line that goes down a level, 50 for one that goes down to memory. */
  lemma CostLevels(g: Geometry, up: Upper, low: Lower, b: nat)
    requires Inv(g, up, low) && b < g.blocksD
    ensures Held1(g, up, b) ==> Held(g, low, b) && Cost1(g, up, low, b) == 0
    ensures var line := up.lines[b % g.blocks1];
            var down := if line.valid && line.dirty then 5 else 0;
            !Held1(g, up, b) ==>
              if Held(g, low, b) then Cost1(g, up, low, b) == 10 + down
              else Cost1(g, up, low, b) == 110 + down || Cost1(g, up, low, b) == 160 + down
  {
    var i := b % g.blocks1;
    Compose(g.blocks1, b);
    assert Included(g, up, low, i);
    if !Held1(g, up, b) {
      Evict1Correct(g, up, low, i);
      if up.lines[i].valid && up.lines[i].dirty {
        WriteBack2SameTags(g, low, BlockAt1(g, up, i), up.buffer[i], b);
      }
    }
    hide CleanAgrees, NoTagTwice, Included, Slot, HeldRecently;
  }

  /** No block but b has come to be held below. */
  ghost predicate OnlyNew(g: Geometry, low: Lower, low': Lower, b: nat)
    requires LowerShape(g, low) && LowerShape(g, low')
  {
    forall c: nat :: c < g.blocksD && c != b && Held(g, low', c) ==> Held(g, low, c)
  }

  /** A lookup brings in no other block. */
  lemma FetchLoads(g: Geometry, up: Upper, low: Lower, b: nat)
    requires Inv(g, up, low) && b < g.blocksD
    ensures OnlyNew(g, low, Fetch1Lower(g, up, low, b), b)
  {
    if !Held1(g, up, b) {
      var i := b % g.blocks1;
      var mid := Evict1(g, up, low, i);
      Evict1Correct(g, up, low, i);
      Fetch2Inv(g, mid, b);
      hide CleanAgrees, NoTagTwice, Included, Held, Slot, Fetch2;
      forall c: nat | c < g.blocksD && c != b && Held(g, Fetch2(g, mid, b), c)
        ensures Held(g, low, c)
      {
        MissHeld(g, mid, b, c);
        if up.lines[i].valid && up.lines[i].dirty {
          WriteBack2SameTags(g, low, BlockAt1(g, up, i), up.buffer[i], c);
        }
      }
    }
  }

  /** An access to block b: it is held in the first level then, no other block has come to be held, and the time
      spent is one unit and the cost of the lookup. */
  ghost predicate Loads(g: Geometry, up: Upper, low: Lower, up': Upper, low': Lower, b: nat, spent: int) {
    && Inv(g, up, low) && UpperShape(g, up') && LowerShape(g, low') && b < g.blocksD
    && Held1(g, up', b) && OnlyNew(g, low, low', b) && spent == 1 + Cost1(g, up, low, b)
  }

  lemma ReadLoads(g: Geometry, up: Upper, low: Lower, b: nat)
    requires Inv(g, up, low) && b < g.blocksD
    ensures Loads(g, up, low, Fetch1Upper(g, up, low, b), Fetch1Lower(g, up, low, b), b, 1 + Cost1(g, up, low, b))
  {
    Fetch1Correct(g, up, low, b);
    FetchLoads(g, up, low, b);
    hide Fetch1Upper, Fetch1Lower, Held1, OnlyNew, Cost1;
  }

  lemma WriteLoads(g: Geometry, up: Upper, low: Lower, b: nat, offset: nat, w: Word)
    requires Inv(g, up, low) && b < g.blocksD && offset < g.words
    ensures UpperShape(g, Fetch1Upper(g, up, low, b))
    ensures Loads(g, up, low, Store1(g, Fetch1Upper(g, up, low, b), b, offset, w), Fetch1Lower(g, up, low, b), b,
                  1 + Cost1(g, up, low, b))
  {
    ReadLoads(g, up, low, b);
    hide Fetch1Upper, Fetch1Lower, OnlyNew, Cost1, Inv;
  }

  /** A block that is in neither level costs at least a full miss; one in the first level costs nothing more. */
  lemma LoadTime(g: Geometry, up: Upper, low: Lower, up': Upper, low': Lower, b: nat, spent: int)
    requires Loads(g, up, low, up', low', b, spent)
    ensures spent >= 1 && (Held1(g, up, b) ==> spent == 1) && (!Held(g, low, b) ==> spent >= 111)
  {
    CostLevels(g, up, low, b);
  }

  ghost function Weight(line: CacheLine): nat {
    if line.valid && line.dirty then 1 else 0
  }

  /** The number of lines that still have to be written back. */
  ghost function Dirty(lines: seq<CacheLine>): nat {
    if lines == [] then 0 else Weight(lines[0]) + Dirty(lines[1..])
  }

  lemma {:induction false} DirtyUpdate(lines: seq<CacheLine>, i: nat, line: CacheLine)
    requires i < |lines|
    ensures Dirty(lines[i := line]) + Weight(lines[i]) == Dirty(lines) + Weight(line)
  {
    var lines' := lines[i := line];
    if i == 0 {
      assert lines'[1..] == lines[1..];
    } else {
      DirtyUpdate(lines[1..], i - 1, line);
      assert lines'[1..] == lines[1..][i - 1 := line];
    }
  }

  lemma {:induction false} DirtyNone(lines: seq<CacheLine>)
    requires forall i :: 0 <= i < |lines| ==> !lines[i].valid
    ensures Dirty(lines) == 0
  {
    if lines != [] {
      DirtyNone(lines[1..]);
    }
  }

  lemma Fetch2DirtyLines(g: Geometry, low: Lower, b: nat)
    requires LowerInv(g, low) && b < g.blocksD
    ensures Fetch2(g, low, b).lines
            == if Held(g, low, b) then low.lines else low.lines[Slot(g, low, b) := CacheLine(true, false, b / g.Sets())]
  {
  }

  /** A memory write-back is paid for by a second-level line that stops being dirty. */
  lemma Potential2(g: Geometry, low: Lower, b: nat)
    requires LowerInv(g, low) && b < g.blocksD
    ensures Cost2(g, low, b) + 50 * Dirty(Fetch2(g, low, b).lines) <= 110 + 50 * Dirty(low.lines)
  {
    var p := Slot(g, low, b);
    Fetch2DirtyLines(g, low, b);
    if !Held(g, low, b) {
      DirtyUpdate(low.lines, p, CacheLine(true, false, b / g.Sets()));
    }
  }

  /** A second-level write-back is paid for by a first-level line that stops being dirty; that pays
      in advance for the memory write-back it may cause. */
  lemma Potential1(g: Geometry, up: Upper, low: Lower, b: nat)
    requires Inv(g, up, low) && b < g.blocksD
    ensures Cost1(g, up, low, b) + 55 * Dirty(Fetch1Upper(g, up, low, b).lines) +
            50 * Dirty(Fetch1Lower(g, up, low, b).lines)
            <= 110 + 55 * Dirty(up.lines) + 50 * Dirty(low.lines)
  {
    if !Held1(g, up, b) {
      var i := b % g.blocks1;
      var mid := Evict1(g, up, low, i);
      Evict1Correct(g, up, low, i);
      Potential2(g, mid, b);
      DirtyUpdate(up.lines, i, CacheLine(true, false, b / g.blocks1));
      if up.lines[i].valid && up.lines[i].dirty {
        var p := Slot(g, low, BlockAt1(g, up, i));
        DirtyUpdate(low.lines, p, low.lines[p].(dirty := true));
      }
    }
  }

  lemma PotentialStore(g: Geometry, up: Upper, b: nat, offset: nat, w: Word)
    requires UpperShape(g, up) && offset < g.words
    ensures Dirty(Store1(g, up, b, offset, w).lines) <= Dirty(up.lines) + 1
  {
    DirtyUpdate(up.lines, b % g.blocks1, up.lines[b % g.blocks1].(dirty := true));
  }
}
