/** The two-level write-back cache: the second level is direct mapped or two-way set associative. */
module Cache {
  import opened CacheAddress
  import opened CacheModel

  datatype Access = Get(address: nat) | Put(address: nat, word: Word)

  /** The access is not refused. */
  predicate Legal(g: Geometry, op: Access) { op.address < g.Limit() }

  /** The number of writes in a run. */
  function Writes(ops: seq<Access>): nat {
    if ops == [] then 0 else Writes(ops[..|ops| - 1]) + (if ops[|ops| - 1].Put? then 1 else 0)
  }

  /** The memory as the hierarchy presents it. */
  ghost function ContentsOf(g: Geometry, up: Upper, low: Lower): (contents: seq<Block>)
    requires UpperShape(g, up) && LowerShape(g, low)
    ensures |contents| == g.blocksD && forall b :: 0 <= b < g.blocksD ==> |contents[b]| == g.words
  {
    seq(g.blocksD, b requires 0 <= b < g.blocksD => ContentLength(g, up, low, b); Content(g, up, low, b))
  }

  ghost predicate IsMemory(g: Geometry, contents: seq<Block>) {
    g.words > 0 && |contents| == g.blocksD && forall b :: 0 <= b < g.blocksD ==> |contents[b]| == g.words
  }

  /** The word last written at word address w, or the one held there at the start. */
  ghost function LastWritten(g: Geometry, contents: seq<Block>, ops: seq<Access>, w: nat): Word
    requires IsMemory(g, contents) && w / g.words < g.blocksD
  {
    if ops == [] then contents[w / g.words][w % g.words]
    else
      var last := ops[|ops| - 1];
      if last.Put? && last.address / WORD_SIZE == w then last.word
      else LastWritten(g, contents, ops[..|ops| - 1], w)
  }

  lemma NothingWritten(g: Geometry, up: Upper, low: Lower, w: nat)
    requires UpperShape(g, up) && LowerShape(g, low) && w / g.words < g.blocksD
    ensures WordIn(g, up, low, w) == LastWritten(g, ContentsOf(g, up, low), [], w)
  {
  }

  /** The answer to access k of a run that starts from the given contents: the word last written there. */
  ghost predicate Answers(g: Geometry, contents: seq<Block>, ops: seq<Access>, k: nat, out: Word)
    requires IsMemory(g, contents) && k < |ops|
  {
    match ops[k]
    case Put(_, word) => out == word
    case Get(address) =>
      && address / WORD_SIZE / g.words < g.blocksD
      && out == LastWritten(g, contents, ops[..k], address / WORD_SIZE)
  }

  /** The accesses answered so far were legal and got the right answers. */
  ghost predicate AllAnswered(g: Geometry, contents: seq<Block>, ops: seq<Access>, outs: seq<Word>) {
    && IsMemory(g, contents) && |outs| <= |ops|
    && forall k: nat :: k < |outs| ==> Legal(g, ops[k]) && Answers(g, contents, ops, k, outs[k])
  }

  lemma NoAnswers(g: Geometry, contents: seq<Block>, ops: seq<Access>)
    requires IsMemory(g, contents)
    ensures AllAnswered(g, contents, ops, [])
  {
  }

  lemma OneMoreAnswer(g: Geometry, contents: seq<Block>, ops: seq<Access>, outs: seq<Word>, out: Word)
    requires AllAnswered(g, contents, ops, outs) && |outs| < |ops| && Legal(g, ops[|outs|])
    requires Answers(g, contents, ops[..|outs|] + [ops[|outs|]], |outs|, out)
    ensures AllAnswered(g, contents, ops, outs + [out])
  {
    var n := |outs|;
    assert (ops[..n] + [ops[n]])[..n] == ops[..n];
    assert Answers(g, contents, ops, n, out);
    hide Legal, LastWritten;
  }

  /** The blocks that a run touches. */
  function Touched(g: Geometry, ops: seq<Access>): set<nat>
    requires g.words > 0
  {
    if ops == [] then {}
    else Touched(g, ops[..|ops| - 1]) + {BlockSelected(g, ops[|ops| - 1].address)}
  }

  /** Only blocks of the set are held in the caches. */
  ghost predicate HeldWithin(g: Geometry, low: Lower, blocks: set<nat>) {
    LowerShape(g, low) && forall c: nat :: c < g.blocksD && Held(g, low, c) ==> c in blocks
  }

  lemma TouchedMore(touched: set<nat>, warm: set<nat>, b: nat)
    ensures |(touched + {b}) - warm| == |touched - warm| + if b in warm + touched then 0 else 1
  {
    if b in warm + touched {
      assert (touched + {b}) - warm == touched - warm;
    } else {
      assert (touched + {b}) - warm == (touched - warm) + {b};
    }
  }

  lemma HeldMore(g: Geometry, up: Upper, low: Lower, up': Upper, low': Lower, warm: set<nat>, touched: set<nat>,
                 b: nat, spent: int)
    requires HeldWithin(g, low, warm + touched) && Loads(g, up, low, up', low', b, spent)
    ensures HeldWithin(g, low', warm + (touched + {b}))
    ensures spent >= 1 + 110 * (|(touched + {b}) - warm| - |touched - warm|)
  {
    LoadTime(g, up, low, up', low', b, spent);
    TouchedMore(touched, warm, b);
    hide Held, Cost1, Inv;
  }

  /** What a run has cost after the accesses done: a full miss at least for each block that was not warm, and at most
      the bound of the potential. */
  ghost predicate Spent(g: Geometry, low: Lower, warm: set<nat>, done: seq<Access>, elapsed: int, rise: int) {
    && g.words > 0 && HeldWithin(g, low, warm + Touched(g, done))
    && |done| + 110 * |Touched(g, done) - warm| <= elapsed
    && rise <= 111 * |done| + 55 * Writes(done)
  }

  lemma NothingSpent(g: Geometry, low: Lower, warm: set<nat>)
    requires HeldWithin(g, low, warm)
    ensures Spent(g, low, warm, [], 0, 0)
  {
    assert warm + Touched(g, []) == warm;
  }

  lemma SpentMore(g: Geometry, up: Upper, low: Lower, up': Upper, low': Lower, warm: set<nat>, done: seq<Access>,
                  op: Access, elapsed: int, rise: int, spent: int, risen: int)
    requires Spent(g, low, warm, done, elapsed, rise)
    requires Loads(g, up, low, up', low', BlockSelected(g, op.address), spent)
    requires risen <= 111 + if op.Put? then 55 else 0
    ensures Spent(g, low', warm, done + [op], elapsed + spent, rise + risen)
  {
    assert (done + [op])[..|done|] == done;
    HeldMore(g, up, low, up', low', warm, Touched(g, done), BlockSelected(g, op.address), spent);
    hide HeldWithin, Loads;
  }

  class Hierarchy {
    const g: Geometry
    const l1Lines: array<CacheLine>
    const l1Buffer: array<Block>
    const l2Lines: array<CacheLine>
    const l2Buffer: array<Block>
    const l2MRU: array<nat>
    const dramBuffer: array<Block>
    var time: nat

    ghost function Up(): Upper
      reads l1Lines, l1Buffer
    {
      Upper(l1Lines[..], l1Buffer[..])
    }

    ghost function Low(): Lower
      reads l2Lines, l2Buffer, l2MRU, dramBuffer
    {
      Lower(l2Lines[..], l2Buffer[..], l2MRU[..], dramBuffer[..])
    }

    ghost predicate Separate() {
      && l1Lines != l2Lines
      && l1Buffer != l2Buffer && l1Buffer != dramBuffer && l2Buffer != dramBuffer
    }

    ghost predicate Valid()
      reads l1Lines, l1Buffer, l2Lines, l2Buffer, l2MRU, dramBuffer
    {
      Separate() && Inv(g, Up(), Low())
    }

    /** The word that the hierarchy holds at a word address. */
    ghost function WordAt(w: nat): Word
      requires Valid() && w / g.words < g.blocksD
      reads l1Lines, l1Buffer, l2Lines, l2Buffer, l2MRU, dramBuffer
    {
      WordIn(g, Up(), Low(), w)
    }

    /** Buffers of the given sizes; the memory starts with the given contents. */
    constructor (geometry: Geometry, contents: seq<Block>)
      requires geometry.Valid() && |contents| == geometry.blocksD
      requires forall b :: 0 <= b < |contents| ==> |contents[b]| == geometry.words
      ensures g == geometry && Separate() && UpperShape(g, Up()) && LowerShape(g, Low())
      ensures Low().dram == contents
      ensures fresh(l1Lines) && fresh(l1Buffer) && fresh(l2Lines) && fresh(l2Buffer) && fresh(l2MRU) &&
              fresh(dramBuffer)
    {
      g := geometry;
      var empty := seq(geometry.words, _ => 0);
      l1Lines := new CacheLine[geometry.blocks1](_ => CacheLine(false, false, 0));
      l1Buffer := new Block[geometry.blocks1](_ => empty);
      l2Lines := new CacheLine[geometry.blocks2](_ => CacheLine(false, false, 0));
      l2Buffer := new Block[geometry.blocks2](_ => empty);
      l2MRU := new nat[if geometry.associative then geometry.Sets() else 0](_ => 1);
      dramBuffer := new Block[|contents|](i requires 0 <= i < |contents| => contents[i]);
      time := 0;
    }

    method ResetTime()
      modifies this`time
      ensures time == 0
    {
      time := 0;
    }

    /** Empties both levels; whatever they held is forgotten, so every block reads as in memory. */
    method InitCache()
      requires Separate() && UpperShape(g, Up()) && LowerShape(g, Low())
      modifies l1Lines, l2Lines, l2MRU
      ensures Valid() && Low().dram == old(Low().dram)
      ensures forall b: nat :: b < g.blocksD ==> Content(g, Up(), Low(), b) == old(Low().dram)[b]
      ensures Dirty(Up().lines) == 0 && Dirty(Low().lines) == 0 && HeldWithin(g, Low(), {})
    {
      for block := 0 to l1Lines.Length
        modifies l1Lines
        invariant forall i :: 0 <= i < block ==> !l1Lines[i].valid
      {
        l1Lines[block] := l1Lines[block].(valid := false);
      }
      for block := 0 to l2Lines.Length
        modifies l2Lines
        invariant forall i :: 0 <= i < block ==> !l2Lines[i].valid
      {
        l2Lines[block] := l2Lines[block].(valid := false);
      }
      if g.associative {
        for i := 0 to g.Sets()
          modifies l2MRU
          invariant forall k :: 0 <= k < l2MRU.Length ==> l2MRU[k] < 2
        {
          l2MRU[i] := 1;
        }
      }
      DirtyNone(l1Lines[..]);
      DirtyNone(l2Lines[..]);
      assert forall p: nat :: p < g.blocks2 ==> CleanAgrees(g, Low(), p);
      if g.associative {
        forall s: nat | s < g.Sets()
          ensures NoTagTwice(g, Low(), s)
        {
          SlotBounds(g, s);
        }
      }
      assert forall i: nat :: i < g.blocks1 ==> Included(g, Up(), Low(), i);
    }

    /** The slot of an address in the second level: where its block is, or the victim of its set. */
    method GetBlockIndex2(address: nat) returns (p: nat)
      requires LowerShape(g, Low())
      ensures g.BlockSize() > 0 && p == Slot(g, Low(), g.BlockOf(address))
    {
      Split2(g, address);
      SlotBounds(g, g.SetIndex(address));
      if !g.associative {
        return (address / g.BlockSize()) % g.blocks2;
      }
      var blockIndex := g.SetIndex(address) * 2;
      var tag := g.Tag2(address);
      for offset := 0 to 2
        invariant forall q :: blockIndex <= q < blockIndex + offset ==> !Matches(l2Lines[q], tag)
      {
        var current := blockIndex + offset;
        if l2Lines[current].valid && l2Lines[current].tag == tag {
          return current;
        }
      }
      p := g.SetIndex(address) * 2 + (l2MRU[blockIndex / 2] + 1) % 2;
    }

    method WriteBackDRAM(address: nat, data: Block)
      requires g.Valid() && dramBuffer.Length == g.blocksD
      modifies dramBuffer, this`time
      ensures g.BlockSize() > 0 && dramBuffer[..] == old(dramBuffer[..])[g.BlockOf(address) % g.blocksD := data]
      ensures time == old(time) + DRAM_WRITE_TIME
    {
      g.SizesPositive();
      var blockIndex := (address / g.BlockSize()) % g.blocksD;
      dramBuffer[blockIndex] := data;
      time := time + DRAM_WRITE_TIME;
    }

    method WriteBackL2(address: nat, data: Block)
      requires LowerInv(g, Low()) && Separate() && |data| == g.words
      modifies l2Lines, l2Buffer, this`time
      ensures g.BlockSize() > 0 && Low() == WriteBack2(g, old(Low()), g.BlockOf(address), data)
      ensures time == old(time) + L2_WRITE_TIME
    {
      var low := Low();
      var p := GetBlockIndex2(address);
      l2Lines[p] := l2Lines[p].(dirty := true);
      WriteBack2SameTags(g, low, g.BlockOf(address), low.buffer[p], g.BlockOf(address));
      assert Low() == WriteBack2(g, low, g.BlockOf(address), low.buffer[p]);
      p := GetBlockIndex2(address);
      l2Buffer[p] := data;
      time := time + L2_WRITE_TIME;
      assert Low() == WriteBack2(g, low, g.BlockOf(address), data);
    }

    method FetchDRAM(address: nat) returns (data: Block)
      requires g.Valid() && dramBuffer.Length == g.blocksD
      modifies this`time
      ensures g.BlockSize() > 0 && data == dramBuffer[g.BlockOf(address) % g.blocksD]
      ensures time == old(time) + DRAM_READ_TIME
    {
      g.SizesPositive();
      var blockIndex := (address / g.BlockSize()) % g.blocksD;
      data := dramBuffer[blockIndex];
      time := time + DRAM_READ_TIME;
    }

    method FetchL2(address: nat) returns (data: Block)
      requires LowerInv(g, Low()) && Separate() && address < g.Limit()
      modifies l2Lines, l2Buffer, l2MRU, dramBuffer, this`time
      ensures g.BlockSize() > 0 && g.BlockOf(address) < g.blocksD
      ensures Low() == Fetch2(g, old(Low()), g.BlockOf(address)) && LowerShape(g, Low())
      ensures data == Low().buffer[Slot(g, Low(), g.BlockOf(address))]
      ensures time == old(time) + Cost2(g, old(Low()), g.BlockOf(address))
    {
      LegalBlock(g, address);
      Split2(g, address);
      ghost var low, b := Low(), g.BlockOf(address);
      Fetch2Lines(g, low, b);
      var blockIndex := GetBlockIndex2(address);
      var line := l2Lines[blockIndex];
      var tag := g.Tag2(address);
      if !line.valid || line.tag != tag {
        assert CleanAgrees(g, low, blockIndex);
        hide CleanAgrees, NoTagTwice;
        RecuperateInverts2(g, line.tag, address);
        if line.valid && line.dirty {
          assert g.BlockOf(g.Recuperate2(line.tag, address)) == BlockAt(g, low, blockIndex);
          SmallMod(BlockAt(g, low, blockIndex), g.blocksD);
          WriteBackDRAM(g.Recuperate2(line.tag, address), l2Buffer[blockIndex]);
          assert dramBuffer[..] == low.dram[BlockAt(g, low, blockIndex) := low.buffer[blockIndex]];
        }
        ghost var mid := Low();
        SmallMod(b, g.blocksD);
        assert Low() == Evict2(g, low, blockIndex);
        l2Buffer[blockIndex] := FetchDRAM(address);
        l2Lines[blockIndex] := CacheLine(true, false, tag);
        assert Low() == Fill2(g, mid, b, blockIndex);
      }
      if g.associative {
        l2MRU[g.SetIndex(address)] := blockIndex % 2;
      }
      data := l2Buffer[blockIndex];
      time := time + L2_READ_TIME;
      assert Low() == Fetch2(g, low, b);
    }

    /** The first-level lookup; its own time is charged by the access. */
    method FetchL1(address: nat) returns (data: Block)
      requires Valid() && address < g.Limit()
      modifies l1Lines, l1Buffer, l2Lines, l2Buffer, l2MRU, dramBuffer, this`time
      ensures g.BlockSize() > 0 && g.BlockOf(address) < g.blocksD
      ensures Up() == Fetch1Upper(g, old(Up()), old(Low()), g.BlockOf(address))
      ensures Low() == Fetch1Lower(g, old(Up()), old(Low()), g.BlockOf(address))
      ensures Valid() && data == Content(g, Up(), Low(), g.BlockOf(address))
      ensures time == old(time) + Cost1(g, old(Up()), old(Low()), g.BlockOf(address))
    {
      hide Included, CleanAgrees, NoTagTwice, LowerContent;
      LegalBlock(g, address);
      Split1(g, address);
      ghost var up, low, b := Up(), Low(), g.BlockOf(address);
      Fetch1Correct(g, up, low, b);
      var blockIndex := (address / g.BlockSize()) % g.blocks1;
      var line := l1Lines[blockIndex];
      var tag := g.Tag1(address);
      if !line.valid || line.tag != tag {
        Evict1Correct(g, up, low, blockIndex);
        if line.valid && line.dirty {
          RecuperateInverts1(g, line.tag, address);
          WriteBackL2(g.Recuperate1(line.tag, address), l1Buffer[blockIndex]);
        }
        assert Low() == Evict1(g, up, low, blockIndex);
        l1Buffer[blockIndex] := FetchL2(address);
        l1Lines[blockIndex] := CacheLine(true, false, tag);
      }
      assert Up() == Fetch1Upper(g, up, low, b);
      assert Low() == Fetch1Lower(g, up, low, b);
      data := l1Buffer[blockIndex];
    }

    /** Time so far plus what the pending write-backs may still cost. */
    ghost function Potential(): nat
      reads this, l1Lines, l1Buffer, l2Lines, l2Buffer, l2MRU, dramBuffer
    {
      time + 55 * Dirty(Up().lines) + 50 * Dirty(Low().lines)
    }

    /** Reads the word that an address selects; refuses an address past the memory. */
    method Read(address: nat) returns (ok: bool, data: Word)
      requires Valid()
      modifies l1Lines, l1Buffer, l2Lines, l2Buffer, l2MRU, dramBuffer, this`time
      ensures Valid() && (ok <==> address < g.Limit())
      ensures ok ==> address / WORD_SIZE / g.words < g.blocksD && data == old(WordAt(address / WORD_SIZE))
      ensures forall w: nat {:trigger WordAt(w)} :: w / g.words < g.blocksD ==> WordAt(w) == old(WordAt(w))
      ensures address % WORD_SIZE == 0 ==> (ok <==> InMemory(g, address))
      ensures ok ==> Potential() <= old(Potential()) + 111
      ensures !ok ==> Up() == old(Up()) && Low() == old(Low()) && time == old(time)
      ensures ok ==>
                Loads(g, old(Up()), old(Low()), Up(), Low(), BlockSelected(g, address), time - old(time))
    {
      LimitExact(g, address);
      if address >= g.Limit() {
        return false, 0;
      }
      hide Included, CleanAgrees, NoTagTwice, LowerContent, Fetch1Upper, Fetch1Lower, Loads;
      ghost var up, low, b := Up(), Low(), g.BlockOf(address);
      LegalBlock(g, address);
      WordSplit(g, address);
      Fetch1Correct(g, up, low, b);
      ReadLoads(g, up, low, b);
      Potential1(g, up, low, b);
      var temp := FetchL1(address);
      ghost var up1, low1 := Up(), Low();
      data := temp[g.WordOffset(address)];
      time := time + L1_TIME;
      ok := true;
      assert Up() == up1 && Low() == low1;
      forall w: nat | w / g.words < g.blocksD
        ensures WordAt(w) == old(WordAt(w))
      {
        FetchKeepsWords(g, up, low, b, w);
      }
    }

    /** Fetches the block of a legal address and changes one word of its copy in the first level. */
    method StoreWord(address: nat, data: Word)
      requires Valid() && address < g.Limit()
      modifies l1Lines, l1Buffer, l2Lines, l2Buffer, l2MRU, dramBuffer, this`time
      ensures g.BlockSize() > 0 && g.BlockOf(address) < g.blocksD && g.WordOffset(address) < g.words
      ensures Separate() && UpperShape(g, Fetch1Upper(g, old(Up()), old(Low()), g.BlockOf(address)))
      ensures Up() == Store1(g, Fetch1Upper(g, old(Up()), old(Low()), g.BlockOf(address)), g.BlockOf(address),
                             g.WordOffset(address), data)
      ensures Low() == Fetch1Lower(g, old(Up()), old(Low()), g.BlockOf(address))
      ensures time == old(time) + Cost1(g, old(Up()), old(Low()), g.BlockOf(address)) + 1
    {
      hide Included, CleanAgrees, NoTagTwice, LowerContent, Fetch1Upper, Fetch1Lower, Held1, Content, Cost1;
      LegalBlock(g, address);
      WordSplit(g, address);
      Split1(g, address);
      var blockIndex := (address / g.BlockSize()) % g.blocks1;
      var temp := FetchL1(address);
      ghost var up1, low1 := Up(), Low();
      var offset := g.WordOffset(address);
      l1Lines[blockIndex] := l1Lines[blockIndex].(dirty := true);
      l1Buffer[blockIndex] := l1Buffer[blockIndex][offset := data];
      time := time + L1_TIME;
      assert Up() == Store1(g, up1, g.BlockOf(address), offset, data) && Low() == low1;
    }

    /** Writes the word that an address selects; refuses an address past the memory. */
    method Write(address: nat, data: Word) returns (ok: bool)
      requires Valid()
      modifies l1Lines, l1Buffer, l2Lines, l2Buffer, l2MRU, dramBuffer, this`time
      ensures Valid() && (ok <==> address < g.Limit())
      ensures ok ==> address / WORD_SIZE / g.words < g.blocksD && WordAt(address / WORD_SIZE) == data
      ensures forall w: nat {:trigger WordAt(w)} :: w / g.words < g.blocksD && (ok ==> w != address / WORD_SIZE) ==>
                WordAt(w) == old(WordAt(w))
      ensures address % WORD_SIZE == 0 ==> (ok <==> InMemory(g, address))
      ensures ok ==> Potential() <= old(Potential()) + 166
      ensures !ok ==> Up() == old(Up()) && Low() == old(Low()) && time == old(time)
      ensures ok ==>
                Loads(g, old(Up()), old(Low()), Up(), Low(), BlockSelected(g, address), time - old(time))
    {
      LimitExact(g, address);
      if address >= g.Limit() {
        return false;
      }
      hide Included, CleanAgrees, NoTagTwice, LowerContent, Fetch1Upper, Fetch1Lower, WordIn, Held1, Content, Loads;
      hide Store1, Cost1;
      ghost var up, low, b := Up(), Low(), g.BlockOf(address);
      LegalBlock(g, address);
      WordSplit(g, address);
      WriteOneWord(g, up, low, address / WORD_SIZE, data);
      WriteLoads(g, up, low, b, g.WordOffset(address), data);
      Potential1(g, up, low, b);
      PotentialStore(g, Fetch1Upper(g, up, low, b), b, g.WordOffset(address), data);
      StoreWord(address, data);
      ok := true;
    }

    /** One access: a read answers the word held, a write echoes its own. */
    method Perform(access: Access) returns (ok: bool, out: Word)
      requires Valid()
      modifies l1Lines, l1Buffer, l2Lines, l2Buffer, l2MRU, dramBuffer, this`time
      ensures Valid() && (ok <==> access.address < g.Limit())
      ensures ok ==> access.address / WORD_SIZE / g.words < g.blocksD
      ensures ok ==> out == if access.Put? then access.word else old(WordAt(access.address / WORD_SIZE))
      ensures ok ==> forall w: nat {:trigger WordAt(w)} :: w / g.words < g.blocksD ==>
                WordAt(w) == if access.Put? && access.address / WORD_SIZE == w then access.word else old(WordAt(w))
      ensures access.address % WORD_SIZE == 0 ==> (ok <==> InMemory(g, access.address))
      ensures ok ==> Potential() <= old(Potential()) + 111 + if access.Put? then 55 else 0
      ensures !ok ==> Up() == old(Up()) && Low() == old(Low()) && time == old(time)
      ensures ok ==>
                Loads(g, old(Up()), old(Low()), Up(), Low(), BlockSelected(g, access.address), time - old(time))
    {
      match access {
        case Get(address) =>
          ok, out := Read(address);
        case Put(address, word) =>
          ok := Write(address, word);
          out := word;
      }
    }

    /** The hierarchy presents the contents with the given writes done. */
    ghost predicate Remembers(contents: seq<Block>, done: seq<Access>)
      requires Valid() && IsMemory(g, contents)
      reads l1Lines, l1Buffer, l2Lines, l2Buffer, l2MRU, dramBuffer
    {
      forall w: nat {:trigger WordAt(w)} :: w / g.words < g.blocksD ==> WordAt(w) == LastWritten(g, contents, done, w)
    }

    /** The next access of a run. */
    method Serve(op: Access, ghost contents: seq<Block>, ghost done: seq<Access>, ghost warm: set<nat>,
                 ghost elapsed: int, ghost rise: int)
      returns (ok: bool, out: Word)
      requires Valid() && IsMemory(g, contents) && Remembers(contents, done)
      requires Spent(g, Low(), warm, done, elapsed, rise)
      modifies l1Lines, l1Buffer, l2Lines, l2Buffer, l2MRU, dramBuffer, this`time
      ensures Valid() && (ok <==> Legal(g, op))
      ensures op.address % WORD_SIZE == 0 ==> (ok <==> InMemory(g, op.address))
      ensures ok ==> Answers(g, contents, done + [op], |done|, out) && Remembers(contents, done + [op])
      ensures ok ==>
                Spent(g, Low(), warm, done + [op], elapsed + (time - old(time)),
                      rise + (Potential() - old(Potential())))
      ensures !ok ==> Low() == old(Low()) && time == old(time) && Potential() == old(Potential())
    {
      hide WordIn, Dirty, UpperShape, LowerShape, Included, CleanAgrees, NoTagTwice, Spent, Loads;
      assert (done + [op])[..|done|] == done && (done + [op])[|done|] == op;
      ghost var up, low, before: int, potential: int := Up(), Low(), time, Potential();
      ok, out := Perform(op);
      if ok {
        SpentMore(g, up, low, Up(), Low(), warm, done, op, elapsed, rise, time - before, Potential() - potential);
      }
    }

    lemma StartsWith(contents: seq<Block>)
      requires Valid() && contents == ContentsOf(g, Up(), Low())
      ensures IsMemory(g, contents) && Remembers(contents, [])
    {
      forall w: nat | w / g.words < g.blocksD
        ensures WordAt(w) == LastWritten(g, contents, [], w)
      {
        NothingWritten(g, Up(), Low(), w);
      }
    }

    /** Runs accesses until one is refused; each read yields a word, each write echoes its own. Blocks that are held
        at the start are among the warm ones. */
    method Run(ops: seq<Access>, ghost warm: set<nat>) returns (outs: seq<Word>)
      requires Valid() && HeldWithin(g, Low(), warm)
      modifies l1Lines, l1Buffer, l2Lines, l2Buffer, l2MRU, dramBuffer, this`time
      ensures Valid() && |outs| <= |ops|
      ensures |outs| < |ops| ==> !Legal(g, ops[|outs|])
      ensures AllAnswered(g, old(ContentsOf(g, Up(), Low())), ops, outs)
      ensures Spent(g, Low(), warm, ops[..|outs|], time - old(time), Potential() - old(Potential()))
    {
      outs := [];
      ghost var contents := ContentsOf(g, Up(), Low());
      hide *;
      ghost var time0: int, potential0: int := time, Potential();
      StartsWith(contents);
      NothingSpent(g, Low(), warm);
      NoAnswers(g, contents, ops);
      for n := 0 to |ops|
        invariant Valid() && |outs| == n
        invariant AllAnswered(g, contents, ops, outs)
        invariant Remembers(contents, ops[..n])
        invariant Spent(g, Low(), warm, ops[..n], time - time0, Potential() - potential0)
      {
        assert ops[..n + 1] == ops[..n] + [ops[n]];
        var ok, data := Serve(ops[n], contents, ops[..n], warm, time - time0, Potential() - potential0);
        if !ok {
          return;
        }
        OneMoreAnswer(g, contents, ops, outs, data);
        outs := outs + [data];
      }
    }
  }

  /** The sizes that the two versions of the program use: a direct-mapped and a two-way second level. */
  lemma ProgramSizes()
    ensures Geometry(16, 256, 512, 1024, false).Valid()
    ensures Geometry(16, 256, 512, 1024, true).Valid()
  {
  }

  /** A whole session: fresh caches over a memory, then a run of accesses. The caches are invisible
      except in time, and the time is bounded by the number of accesses and writes. */
  method Session(geometry: Geometry, contents: seq<Block>, ops: seq<Access>) returns (outs: seq<Word>, time: nat)
    requires geometry.Valid() && IsMemory(geometry, contents)
    ensures |outs| <= |ops|
    ensures forall k: nat :: k < |outs| ==>
              Legal(geometry, ops[k]) && Answers(geometry, contents, ops, k, outs[k])
    ensures |outs| < |ops| ==> !Legal(geometry, ops[|outs|])
    ensures (forall k :: 0 <= k < |ops| ==> InMemory(geometry, ops[k].address)) ==> |outs| == |ops|
    ensures |outs| + 110 * |Touched(geometry, ops[..|outs|])| <= time
    ensures time <= 111 * |outs| + 55 * Writes(ops[..|outs|])
  {
    var memory := new Hierarchy(geometry, contents);
    memory.InitCache();
    memory.ResetTime();
    assert ContentsOf(geometry, memory.Up(), memory.Low()) == contents;
    outs := memory.Run(ops, {});
    assert Touched(geometry, ops[..|outs|]) - {} == Touched(geometry, ops[..|outs|]);
    if |outs| < |ops| {
      LimitExact(geometry, ops[|outs|].address);
    }
    time := memory.time;
  }
}
