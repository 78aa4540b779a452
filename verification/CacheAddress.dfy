/** Address arithmetic of the two-level cache: tags, sets, slots, and the address of a cached block. */
module CacheAddress {
  const WORD_SIZE := 4

  lemma ProductPositive(a: nat, b: nat)
    requires a > 0 && b > 0
    ensures a * b > 0
  {
  }

  /** The sizes of the hierarchy, in blocks except for `words`, the words in a block. With
      `associative` the second level is two-way set associative, otherwise direct mapped. */
  datatype Geometry = Geometry(words: nat, blocks1: nat, blocks2: nat, blocksD: nat, associative: bool) {

    ghost predicate Valid() {
      && words > 0 && blocks1 > 0 && Sets() > 0 && blocksD > 0
      && (associative ==> blocks2 % 2 == 0)
      && Sets() % blocks1 == 0
    }

    function BlockSize(): nat {
      words * WORD_SIZE
    }

    function Sets(): nat {
      if associative then blocks2 / 2 else blocks2
    }

    /** The set that slot p of the second level belongs to. */
    function SetOf(p: nat): nat {
      if associative then p / 2 else p
    }

    /** The largest legal address plus one. */
    function Limit(): int {
      blocksD * BlockSize() - WORD_SIZE + 1
    }

    /** The number of the memory block that holds an address. */
    function BlockOf(address: nat): nat
      requires BlockSize() > 0
    {
      address / BlockSize()
    }

    function WordOffset(address: nat): nat
      requires words > 0
    {
      (address / WORD_SIZE) % (BlockSize() / WORD_SIZE)
    }

    function Tag1(address: nat): nat
      requires blocks1 * BlockSize() > 0
    {
      address / (blocks1 * BlockSize())
    }

    function Index1(address: nat): nat
      requires blocks1 > 0 && BlockSize() > 0
    {
      (address / BlockSize()) % blocks1
    }

    function Recuperate1(oldTag: nat, newAddress: nat): nat
      requires blocks1 * BlockSize() > 0
    {
      oldTag * blocks1 * BlockSize() + newAddress % (blocks1 * BlockSize())
    }

    function Tag2(address: nat): nat
      requires Sets() * BlockSize() > 0
    {
      address / (Sets() * BlockSize())
    }

    function SetIndex(address: nat): nat
      requires BlockSize() > 0 && Sets() > 0
    {
      (address / BlockSize()) % Sets()
    }

    function Recuperate2(oldTag: nat, newAddress: nat): nat
      requires Sets() > 0 && Sets() * BlockSize() > 0
    {
      if associative then oldTag * Sets() * BlockSize() + SetIndex(newAddress) * BlockSize()
      else oldTag * blocks2 * BlockSize() + newAddress % (blocks2 * BlockSize())
    }

    lemma SizesPositive()
      requires Valid()
      ensures BlockSize() > 0 && blocks1 * BlockSize() > 0 && Sets() * BlockSize() > 0
      ensures BlockSize() / WORD_SIZE == words
    {
      ProductPositive(blocks1, BlockSize());
      ProductPositive(Sets(), BlockSize());
    }
  }

  /** Quotient and remainder are determined by their defining equation. */
  lemma DivModUnique(a: int, d: int, q: int, r: int)
    requires d > 0 && 0 <= r < d && a == q * d + r
    ensures a / d == q && a % d == r
  {
    var q', r' := a / d, a % d;
    assert a == d * q' + r';
    assert (q' - q) * d == r - r';
    assert q' - q >= 1 ==> (q' - q) * d >= d;
    assert q - q' >= 1 ==> (q - q') * d >= d;
  }

  lemma SmallMod(a: nat, d: nat)
    requires a < d
    ensures a % d == a
  {
  }

  lemma DivDiv(a: nat, n: nat, m: nat)
    requires n > 0 && m > 0
    ensures n * m > 0
    ensures a / (n * m) == (a / m) / n
    ensures (a % (n * m)) / m == (a / m) % n
  {
    ProductPositive(n, m);
    var b, r := a / m, a % m;
    var q, i := b / n, b % n;
    assert b == n * q + i;
    assert a == m * b + r;
    assert m * b == m * (n * q) + m * i;
    assert m * (n * q) == q * (n * m);
    assert 0 <= m * i + r < n * m by {
      assert m * i <= m * (n - 1);
      assert m * (n - 1) == n * m - m;
    }
    DivModUnique(a, n * m, q, m * i + r);
    DivModUnique(m * i + r, m, i, r);
  }

  lemma ScaledDiv(t: nat, m: nat, r: nat)
    requires m > 0
    ensures (t * m + r) / m == t + r / m
  {
    var q, e := r / m, r % m;
    assert t * m + r == (t + q) * m + e by {
      assert (t + q) * m == t * m + q * m;
    }
    DivModUnique(t * m + r, m, t + q, e);
  }

  /** Tag and index of a block number, put together again. */
  lemma Compose(n: nat, b: nat)
    requires n > 0
    ensures (b / n) * n + b % n == b
  {
  }

  lemma Decompose(n: nat, t: nat, i: nat)
    requires i < n
    ensures (t * n + i) / n == t && (t * n + i) % n == i
  {
    DivModUnique(t * n + i, n, t, i);
  }

  /** The first level's tag and index are the quotient and remainder of the block number. */
  lemma Split1(g: Geometry, address: nat)
    requires g.Valid()
    ensures g.BlockSize() > 0 && g.blocks1 * g.BlockSize() > 0
    ensures g.Tag1(address) == g.BlockOf(address) / g.blocks1
    ensures g.Index1(address) == g.BlockOf(address) % g.blocks1
  {
    g.SizesPositive();
    DivDiv(address, g.blocks1, g.BlockSize());
  }

  lemma Split2(g: Geometry, address: nat)
    requires g.Valid()
    ensures g.BlockSize() > 0 && g.Sets() * g.BlockSize() > 0
    ensures g.Tag2(address) == g.BlockOf(address) / g.Sets()
    ensures g.SetIndex(address) == g.BlockOf(address) % g.Sets()
  {
    g.SizesPositive();
    DivDiv(address, g.Sets(), g.BlockSize());
  }

  /** Rebuilding an address from a stored tag and a conflicting address gives an address of the
      block with that tag and the conflicting address's index. */
  lemma RecuperateInverts1(g: Geometry, oldTag: nat, newAddress: nat)
    requires g.Valid()
    ensures g.BlockSize() > 0 && g.blocks1 * g.BlockSize() > 0
    ensures g.BlockOf(g.Recuperate1(oldTag, newAddress)) == oldTag * g.blocks1 + g.Index1(newAddress)
    ensures g.Tag1(g.Recuperate1(oldTag, newAddress)) == oldTag
    ensures g.Index1(g.Recuperate1(oldTag, newAddress)) == g.Index1(newAddress)
  {
    g.SizesPositive();
    var m, n := g.BlockSize(), g.blocks1;
    DivDiv(newAddress, n, m);
    ScaledDiv(oldTag * n, m, newAddress % (n * m));
    Decompose(n, oldTag, g.Index1(newAddress));
    Split1(g, g.Recuperate1(oldTag, newAddress));
  }

  lemma RecuperateInverts2(g: Geometry, oldTag: nat, newAddress: nat)
    requires g.Valid()
    ensures g.BlockSize() > 0 && g.Sets() * g.BlockSize() > 0
    ensures g.BlockOf(g.Recuperate2(oldTag, newAddress)) == oldTag * g.Sets() + g.SetIndex(newAddress)
    ensures g.Tag2(g.Recuperate2(oldTag, newAddress)) == oldTag
    ensures g.SetIndex(g.Recuperate2(oldTag, newAddress)) == g.SetIndex(newAddress)
  {
    g.SizesPositive();
    var m, n := g.BlockSize(), g.Sets();
    DivDiv(newAddress, n, m);
    if g.associative {
      var index := g.SetIndex(newAddress);
      ScaledDiv(oldTag * n, m, index * m);
      ScaledDiv(index, m, 0);
    } else {
      ScaledDiv(oldTag * n, m, newAddress % (n * m));
    }
    Decompose(n, oldTag, g.SetIndex(newAddress));
    Split2(g, g.Recuperate2(oldTag, newAddress));
  }

  lemma ModMod(b: nat, s: nat, n: nat)
    requires s > 0 && n > 0 && s % n == 0
    ensures (b % s) % n == b % n
  {
    var k, q, r := s / n, b / s, b % s;
    assert s == k * n;
    assert b == q * s + r;
    var i := r % n;
    assert r == (r / n) * n + i;
    assert b == (q * k + r / n) * n + i by {
      assert q * s == (q * k) * n;
    }
    DivModUnique(b, n, q * k + r / n, i);
  }

  /** Blocks of one second-level set share one first-level line. */
  lemma SameSetSameLine(g: Geometry, b: nat, c: nat)
    requires g.Valid() && b % g.Sets() == c % g.Sets()
    ensures b % g.blocks1 == c % g.blocks1
  {
    ModMod(b, g.Sets(), g.blocks1);
    ModMod(c, g.Sets(), g.blocks1);
  }

  /** The word an address selects, as a block and an offset and as a word number. */
  lemma WordSplit(g: Geometry, address: nat)
    requires g.Valid()
    ensures g.BlockSize() > 0
    ensures g.BlockOf(address) == (address / WORD_SIZE) / g.words
    ensures g.WordOffset(address) == (address / WORD_SIZE) % g.words
  {
    g.SizesPositive();
    DivDiv(address, g.words, WORD_SIZE);
  }

  lemma LegalBlock(g: Geometry, address: nat)
    requires g.Valid() && address < g.Limit()
    ensures g.BlockSize() > 0 && g.BlockOf(address) < g.blocksD
  {
    g.SizesPositive();
    var m := g.BlockSize();
    if address / m >= g.blocksD {
      assert (address / m) * m >= g.blocksD * m;
    }
  }

  /** The block of the word that an address selects. */
  function BlockSelected(g: Geometry, address: nat): nat
    requires g.words > 0
  {
    address / WORD_SIZE / g.words
  }

  /** The address is that of a word of the memory. */
  predicate InMemory(g: Geometry, address: nat) {
    g.words > 0 && address % WORD_SIZE == 0 && BlockSelected(g, address) < g.blocksD
  }

  lemma MoreBlocks(a: nat, b: nat, words: nat)
    requires a <= b
    ensures a * words <= b * words
  {
    var d := b - a;
    assert b * words == a * words + d * words by {
      assert b == a + d;
    }
    assert d * words >= 0;
  }

  lemma BlockBelow(w: nat, words: nat, blocks: nat)
    requires words > 0
    ensures w < blocks * words <==> w / words < blocks
  {
    var q, r := w / words, w % words;
    assert w == q * words + r;
    if q < blocks {
      MoreBlocks(q + 1, blocks, words);
      assert (q + 1) * words == q * words + words;
    } else {
      MoreBlocks(blocks, q, words);
    }
  }

  /** The addresses below the limit are exactly those from which a whole word of memory follows. */
  lemma LimitExact(g: Geometry, address: nat)
    requires g.Valid()
    ensures address < g.Limit() <==> (address + WORD_SIZE - 1) / WORD_SIZE / g.words < g.blocksD
    ensures address % WORD_SIZE == 0 ==> (address < g.Limit() <==> InMemory(g, address))
  {
    var w, n := (address + WORD_SIZE - 1) / WORD_SIZE, g.blocksD * g.words;
    assert g.Limit() == n * WORD_SIZE - WORD_SIZE + 1 by {
      assert g.blocksD * (g.words * WORD_SIZE) == n * WORD_SIZE;
    }
    assert address < n * WORD_SIZE - WORD_SIZE + 1 <==> w < n;
    BlockBelow(w, g.words, g.blocksD);
  }
}
