/** Cells with observer lists and ranges with a dirty flag, updated in place. */
module SheetStorage {
  import opened Wrappers
  import opened Paths
  import opened SheetModel

  datatype Cell = Cell(content: Option<Content>, observers: seq<Position>)

  /** The mutable part of a range object. */
  datatype RangeState = RangeState(updated: bool, cached: Value)

  type Cells = map<Position, Cell>
  type Ranges = map<RangeRef, RangeState>

  function Contents(cells: Cells): Sheet {
    map p | p in cells && cells[p].content.Some? :: cells[p].content.value
  }

  function Watchers(cells: Cells, p: Position): set<Position> {
    if p in cells then set q | q in cells[p].observers else {}
  }

  ghost predicate NoDuplicates(s: seq<Position>) {
    forall i, j :: 0 <= i < j < |s| ==> s[i] != s[j]
  }

  ghost predicate ListsOk(cells: Cells) {
    forall p :: p in cells ==> NoDuplicates(cells[p].observers)
  }

  /** Observer lists are exactly the direct dependencies. */
  ghost predicate Linked(cells: Cells) {
    forall p, q :: q in Watchers(cells, p) <==> q in Contents(cells) && p in Deps(Contents(cells)[q])
  }

  /** Only cells that are filled or observed are stored. */
  ghost predicate Tidy(cells: Cells) {
    forall p :: p in cells ==> p in Contents(cells) || Watchers(cells, p) != {}
  }

  ghost predicate TidyBut(cells: Cells, p: Position) {
    forall x :: x in cells && x != p ==> x in Contents(cells) || Watchers(cells, x) != {}
  }

  ghost predicate Usable(content: Content, ranges: Ranges) {
    forall r :: r in Refs(content) ==> r in ranges && r.interval != []
  }

  ghost predicate AllUsable(sheet: Sheet, ranges: Ranges) {
    forall p :: p in sheet ==> Usable(sheet[p], ranges)
  }

  // ---------- cached values ----------

  ghost function Bound(rank: Position -> nat, interval: seq<Position>): (k: nat)
    ensures forall q :: q in interval ==> rank(q) < k
  {
    if interval == [] then 0
    else
      var k := Bound(rank, interval[1..]);
      assert interval == [interval[0]] + interval[1..];
      if rank(interval[0]) < k then k else rank(interval[0]) + 1
  }

  /** What the range evaluates to now. */
  ghost function RangeNow(sheet: Sheet, rank: Position -> nat, r: RangeRef): Value
    requires Ranked(sheet, rank)
  {
    RangeValue(sheet, rank, Bound(rank, r.interval), r)
  }

  lemma RangeNowIs(sheet: Sheet, rank: Position -> nat, k: nat, r: RangeRef)
    requires Ranked(sheet, rank) && forall q :: q in r.interval ==> rank(q) < k
    ensures RangeNow(sheet, rank, r) == RangeValue(sheet, rank, k, r)
  {
    RangeSame(sheet, rank, Bound(rank, r.interval), sheet, rank, k, r);
  }

  ghost predicate CacheOk(sheet: Sheet, rank: Position -> nat, ranges: Ranges, r: RangeRef)
    requires Ranked(sheet, rank)
  {
    r in ranges && !ranges[r].updated ==> ranges[r].cached == RangeNow(sheet, rank, r)
  }

  /** The ranges in cells that rank below k hold, where their flag is clear, their current value. */
  ghost predicate CachesBelow(sheet: Sheet, rank: Position -> nat, ranges: Ranges, k: nat)
    requires Ranked(sheet, rank)
  {
    forall p, r :: p in sheet && rank(p) < k && r in Refs(sheet[p]) ==> CacheOk(sheet, rank, ranges, r)
  }

  ghost predicate CachesOk(sheet: Sheet, rank: Position -> nat, ranges: Ranges)
    requires Ranked(sheet, rank)
  {
    forall p, r :: p in sheet && r in Refs(sheet[p]) ==> CacheOk(sheet, rank, ranges, r)
  }

  /** Some caches were brought up to date, nothing else changed. */
  ghost predicate Refreshed(sheet: Sheet, rank: Position -> nat, ranges: Ranges, ranges': Ranges)
    requires Ranked(sheet, rank)
  {
    && ranges'.Keys == ranges.Keys
    && forall r :: r in ranges ==> ranges'[r] == ranges[r] || ranges'[r] == RangeState(false, RangeNow(sheet, rank, r))
  }

  lemma RefreshedCaches(sheet: Sheet, rank: Position -> nat, ranges: Ranges, ranges': Ranges, k: nat)
    requires Ranked(sheet, rank) && Refreshed(sheet, rank, ranges, ranges')
    ensures CachesBelow(sheet, rank, ranges, k) ==> CachesBelow(sheet, rank, ranges', k)
    ensures CachesOk(sheet, rank, ranges) ==> CachesOk(sheet, rank, ranges')
    ensures forall r :: CacheOk(sheet, rank, ranges, r) ==> CacheOk(sheet, rank, ranges', r)
  {
    forall r | CacheOk(sheet, rank, ranges, r)
      ensures CacheOk(sheet, rank, ranges', r)
    {
      assert r in ranges' <==> r in ranges;
    }
  }

  /** A range is not used by the cells it reads, so an evaluation under way does not meet its half-done cache. */
  lemma StaleUnseen(sheet: Sheet, rank: Position -> nat, ranges: Ranges, r: RangeRef, state: RangeState, k: nat,
                    q: Position)
    requires Ranked(sheet, rank) && CachesBelow(sheet, rank, ranges, k) && q in r.interval && rank(q) < k
    ensures CachesBelow(sheet, rank, ranges[r := state], rank(q) + 1)
  {
    forall p, o | p in sheet && rank(p) < rank(q) + 1 && o in Refs(sheet[p])
      ensures CacheOk(sheet, rank, ranges[r := state], o)
    {
      if o == r {
        RefDeps(sheet[p], r);
      } else {
        assert CacheOk(sheet, rank, ranges, o);
      }
    }
  }

  // ---------- observer lists ----------

  /** q observes the cells in `deps` as well, those that were not stored are now. */
  ghost predicate Attached(cells: Cells, cells': Cells, deps: set<Position>, q: Position) {
    && ListsOk(cells')
    && (forall p :: p in cells' <==> p in cells || p in deps)
    && (forall p :: p in cells ==> cells'[p].content == cells[p].content)
    && (forall p :: p in cells' && p !in cells ==> cells'[p].content == None)
    && (forall p, o :: o in Watchers(cells', p) <==> o in Watchers(cells, p) || (p in deps && o == q))
  }

  /** q no longer observes the cells in `deps`; of these the ones left without content and observers are gone. */
  ghost predicate Detached(cells: Cells, cells': Cells, deps: set<Position>, q: Position) {
    && ListsOk(cells')
    && (forall p :: p !in deps ==> (p in cells' <==> p in cells))
    && (forall p :: p in deps ==> (p in cells' <==> p in Contents(cells) || Watchers(cells', p) != {}))
    && (forall p :: p in cells' ==> cells'[p].content == if p in cells then cells[p].content else None)
    && (forall p, o :: o in Watchers(cells', p) <==> o in Watchers(cells, p) && !(p in deps && o == q))
  }

  lemma AttachedTwice(cells: Cells, mid: Cells, cells': Cells, a: set<Position>, b: set<Position>, q: Position)
    requires Attached(cells, mid, a, q) && Attached(mid, cells', b, q)
    ensures Attached(cells, cells', a + b, q)
  {
  }

  lemma DetachedTwice(cells: Cells, mid: Cells, cells': Cells, a: set<Position>, b: set<Position>, q: Position)
    requires Detached(cells, mid, a, q) && Detached(mid, cells', b, q)
    ensures Detached(cells, cells', a + b, q)
  {
  }

  // ---------- changing one cell ----------

  lemma WatcherIsReader(cells: Cells, p: Position, q: Position)
    requires Linked(cells)
    ensures q in Watchers(cells, p) <==> (p, q) in Reads(Contents(cells))
  {
  }

  lemma UnrelatedRange(sheet: Sheet, rank: Position -> nat, sheet': Sheet, rank': Position -> nat, p: Position,
                       q: Position, r: RangeRef)
    requires Ranked(sheet, rank) && Ranked(sheet', rank') && q in sheet' && r in Refs(sheet'[q])
    requires forall y :: y != p ==> (y in sheet <==> y in sheet') && (y in sheet ==> sheet[y] == sheet'[y])
    requires !Reach(Reads(sheet'), p, q)
    ensures RangeNow(sheet', rank', r) == RangeNow(sheet, rank, r)
  {
    RefDeps(sheet'[q], r);
    forall x | x in r.interval
      ensures Eval(sheet', rank', x) == Eval(sheet, rank, x)
    {
      if Reach(Reads(sheet'), p, x) {
        Step(Reads(sheet'), x, q);
        Trans(Reads(sheet'), p, x, q);
      }
      EvalSame(sheet', rank', sheet, rank, p, x);
    }
    RangeSame(sheet', rank', Bound(rank', r.interval), sheet, rank, Bound(rank, r.interval), r);
  }

  /** Flags were only raised. */
  ghost predicate Dirtied(ranges: Ranges, ranges': Ranges) {
    && ranges'.Keys == ranges.Keys
    && forall r :: r in ranges ==> ranges'[r].cached == ranges[r].cached && (ranges[r].updated ==> ranges'[r].updated)
  }

  /** Every range in a cell that follows from p has its flag raised. */
  ghost predicate DirtyFrom(sheet: Sheet, p: Position, ranges: Ranges) {
    forall x, r :: x in sheet && Reach(Reads(sheet), p, x) && r in Refs(sheet[x]) && r in ranges ==> ranges[r].updated
  }

  /** Everything read by a range in use that does not follow from p is unrelated to p. */
  lemma CachesSurvive(sheet: Sheet, rank: Position -> nat, sheet': Sheet, rank': Position -> nat, p: Position,
                      ranges: Ranges, ranges': Ranges)
    requires Ranked(sheet, rank) && Ranked(sheet', rank') && CachesOk(sheet, rank, ranges)
    requires forall y :: y != p ==> (y in sheet <==> y in sheet') && (y in sheet ==> sheet[y] == sheet'[y])
    requires Dirtied(ranges, ranges') && DirtyFrom(sheet', p, ranges')
    ensures CachesOk(sheet', rank', ranges')
  {
    forall q, r | q in sheet' && r in Refs(sheet'[q])
      ensures CacheOk(sheet', rank', ranges', r)
    {
      if r in ranges' && !ranges'[r].updated {
        Refl(Reads(sheet'), p);
        assert !Reach(Reads(sheet'), p, q) && q != p;
        RefDeps(sheet'[q], r);
        UnrelatedRange(sheet, rank, sheet', rank', p, q, r);
        assert CacheOk(sheet, rank, ranges, r);
      }
    }
  }

  /** What follows from p follows from one of its readers, or is p. */
  lemma FirstReader(sheet: Sheet, p: Position, x: Position) returns (q: Position)
    requires Reach(Reads(sheet), p, x) && x != p
    ensures (p, q) in Reads(sheet) && Reach(Reads(sheet), q, x)
  {
    var a, b := Exit(Reads(sheet), iset{p}, p, x);
    q := b;
  }

  lemma StaysDirty(sheet: Sheet, p: Position, ranges: Ranges, ranges': Ranges)
    requires DirtyFrom(sheet, p, ranges) && Dirtied(ranges, ranges')
    ensures DirtyFrom(sheet, p, ranges')
  {
    forall x, r | x in sheet && Reach(Reads(sheet), p, x) && r in Refs(sheet[x]) && r in ranges'
      ensures ranges'[r].updated
    {
      assert r in ranges;
    }
  }

  lemma UpdateReaches(sheet: Sheet, p: Position, ranges: Ranges, ranges': Ranges)
    requires Dirtied(ranges, ranges') &&
             (p in sheet ==> forall r :: r in Refs(sheet[p]) && r in ranges ==> ranges[r].updated)
    requires forall q :: (p, q) in Reads(sheet) ==> DirtyFrom(sheet, q, ranges')
    ensures DirtyFrom(sheet, p, ranges')
  {
    forall x, r | x in sheet && Reach(Reads(sheet), p, x) && r in Refs(sheet[x]) && r in ranges'
      ensures ranges'[r].updated
    {
      if x == p {
        assert r in ranges;
      } else {
        var q := FirstReader(sheet, p, x);
        assert DirtyFrom(sheet, q, ranges');
      }
    }
  }

  lemma {:induction false} TopRank(keys: set<Position>, rank: Position -> nat) returns (top: nat)
    ensures forall p :: p in keys ==> rank(p) <= top
  {
    if keys == {} {
      top := 0;
    } else {
      var p :| p in keys;
      var rest := TopRank(keys - {p}, rank);
      top := if rank(p) <= rest then rest else rank(p);
    }
  }

  lemma EmptiedLinks(cells: Cells, cells': Cells, p: Position)
    requires Linked(cells) && p in Contents(cells) && Contents(cells') == Contents(cells) - {p}
    requires forall x, o :: o in Watchers(cells', x) <==>
             o in Watchers(cells, x) && !(x in Deps(Contents(cells)[p]) && o == p)
    ensures Linked(cells')
  {
    forall x, o
      ensures o in Watchers(cells', x) <==> o in Contents(cells') && x in Deps(Contents(cells')[o])
    {
      assert o in Watchers(cells, x) <==> o in Contents(cells) && x in Deps(Contents(cells)[o]);
    }
  }

  /** A cell that loses its content and stops observing. */
  lemma Emptied(cells: Cells, mid: Cells, p: Position)
    requires Linked(cells) && p in Contents(cells) && p !in Deps(Contents(cells)[p])
    requires Detached(cells, mid, Deps(Contents(cells)[p]), p)
    ensures p in mid && ListsOk(mid[p := mid[p].(content := None)])
    ensures Contents(mid[p := mid[p].(content := None)]) == Contents(cells) - {p}
    ensures Linked(mid[p := mid[p].(content := None)])
    ensures TidyBut(cells, p) ==> TidyBut(mid[p := mid[p].(content := None)], p)
  {
    var cells' := mid[p := mid[p].(content := None)];
    forall x
      ensures Watchers(cells', x) == Watchers(mid, x)
      ensures x in Contents(cells') <==> x in Contents(cells) && x != p
    {
      assert Watchers(cells, x) != {} ==> x in cells;
    }
    assert Contents(cells') == Contents(cells) - {p};
    EmptiedLinks(cells, cells', p);
  }

  lemma FilledContents(cells: Cells, mid: Cells, cells': Cells, p: Position, content: Content)
    requires p in cells && mid == cells[p := cells[p].(content := Some(content))]
    requires forall x :: x in mid ==> x in cells' && cells'[x].content == mid[x].content
    requires forall x :: x in cells' && x !in mid ==> cells'[x].content == None
    ensures Contents(cells') == Contents(cells)[p := content]
  {
    assert Contents(mid) == Contents(cells)[p := content];
    assert Contents(cells') == Contents(mid);
  }

  lemma FilledTidy(cells: Cells, cells': Cells, p: Position, content: Content)
    requires TidyBut(cells, p) && Contents(cells') == Contents(cells)[p := content]
    requires forall x :: x in cells' ==> x in cells || x in Deps(content)
    requires forall x, o :: o in Watchers(cells', x) <==> o in Watchers(cells, x) || (x in Deps(content) && o == p)
    ensures Tidy(cells')
  {
    forall x | x in cells'
      ensures x in Contents(cells') || Watchers(cells', x) != {}
    {
      if x in Deps(content) {
        assert p in Watchers(cells', x);
      } else if x != p && x !in Contents(cells) {
        var o :| o in Watchers(cells, x);
        assert o in Watchers(cells', x);
      }
    }
  }

  lemma FilledLinks(cells: Cells, cells': Cells, p: Position, content: Content)
    requires Linked(cells) && p !in Contents(cells) && Contents(cells') == Contents(cells)[p := content]
    requires forall x, o :: o in Watchers(cells', x) <==> o in Watchers(cells, x) || (x in Deps(content) && o == p)
    ensures Linked(cells')
  {
    forall x, o
      ensures o in Watchers(cells', x) <==> o in Contents(cells') && x in Deps(Contents(cells')[o])
    {
      assert o in Watchers(cells, x) <==> o in Contents(cells) && x in Deps(Contents(cells)[o]);
    }
  }

  /** An empty cell that gets a content and starts observing. */
  lemma Filled(cells: Cells, cells': Cells, p: Position, content: Content)
    requires Linked(cells) && p in cells && p !in Contents(cells) && p !in Deps(content) && TidyBut(cells, p)
    requires Attached(cells[p := cells[p].(content := Some(content))], cells', Deps(content), p)
    ensures Contents(cells') == Contents(cells)[p := content] && Linked(cells') && Tidy(cells')
  {
    hide Linked, TidyBut, Tidy, ListsOk, Contents;
    var mid := cells[p := cells[p].(content := Some(content))];
    assert forall x :: Watchers(mid, x) == Watchers(cells, x);
    FilledContents(cells, mid, cells', p, content);
    FilledLinks(cells, cells', p, content);
    FilledTidy(cells, cells', p, content);
  }

  lemma HasContent(cells: Cells, p: Position)
    ensures p in Contents(cells) <==> p in cells && cells[p].content.Some?
    ensures p in Contents(cells) ==> Contents(cells)[p] == cells[p].content.value
  {
  }

  lemma NotSelf(sheet: Sheet, rank: Position -> nat, p: Position)
    requires Ranked(sheet, rank) && p in sheet
    ensures p !in Deps(sheet[p])
  {
    assert p in Deps(sheet[p]) ==> Under(rank, p, p);
  }

  /** An empty cell more or less changes nothing. */
  lemma EmptyCell(cells: Cells, p: Position)
    requires p !in cells
    ensures Contents(cells[p := Cell(None, [])]) == Contents(cells)
    ensures Linked(cells[p := Cell(None, [])]) <==> Linked(cells)
    ensures ListsOk(cells[p := Cell(None, [])]) <==> ListsOk(cells)
    ensures Tidy(cells) <==> TidyBut(cells[p := Cell(None, [])], p)
  {
    var cells' := cells[p := Cell(None, [])];
    assert forall x :: Watchers(cells', x) == Watchers(cells, x);
    assert Contents(cells') == Contents(cells);
    assert forall x :: x in cells ==> x in cells' && cells'[x] == cells[x];
    assert cells'[p].observers == [];
  }

  lemma Freed(cells: Cells, p: Position)
    requires p in cells && TidyBut(cells, p) && Linked(cells) && ListsOk(cells)
    ensures cells[p].content == None && cells[p].observers == [] ==>
              Contents(cells - {p}) == Contents(cells) && Linked(cells - {p}) && ListsOk(cells - {p}) &&
                Tidy(cells - {p})
    ensures !(cells[p].content == None && cells[p].observers == []) ==> Tidy(cells)
  {
    if cells[p].content == None && cells[p].observers == [] {
      EmptyCell(cells - {p}, p);
      assert (cells - {p})[p := Cell(None, [])] == cells;
    } else if cells[p].observers != [] {
      assert cells[p].observers[0] in Watchers(cells, p);
    }
  }

  lemma Smaller(sheet: Sheet, rank: Position -> nat, ranges: Ranges, p: Position)
    requires Ranked(sheet, rank) && AllUsable(sheet, ranges)
    ensures Ranked(sheet - {p}, rank) && AllUsable(sheet - {p}, ranges)
  {
  }

  /** The cell at p may be created without harm. */
  lemma PlaceReady(cells: Cells, p: Position)
    requires Linked(cells) && ListsOk(cells) && Tidy(cells)
    ensures var cells' := if p in cells then cells else cells[p := Cell(None, [])];
            Linked(cells') && ListsOk(cells') && TidyBut(cells', p) && Contents(cells') == Contents(cells)
  {
    if p !in cells {
      EmptyCell(cells, p);
    }
  }

  lemma StillUsable(sheet: Sheet, ranges: Ranges, ranges': Ranges)
    requires AllUsable(sheet, ranges) && Dirtied(ranges, ranges')
    ensures AllUsable(sheet, ranges')
  {
    forall p, r | p in sheet && r in Refs(sheet[p])
      ensures r in ranges'
    {
      assert Usable(sheet[p], ranges) && r in ranges;
    }
  }

  lemma NothingThere(cells: Cells, p: Position)
    requires p !in cells || cells[p].content.None?
    ensures Contents(cells) == Contents(cells) - {p}
  {
  }

  // ---------- evaluating ----------

  /** What an evaluation relies on and leaves as it is: every cell that is read is stored, every range is known. */
  ghost predicate Readable(cells: Cells, ranges: Ranges, rank: Position -> nat) {
    && Ranked(Contents(cells), rank) && AllUsable(Contents(cells), ranges)
    && (forall p, q :: p in Contents(cells) && q in Deps(Contents(cells)[p]) ==> q in cells)
  }

  /** What holds between any two operations on an acyclic sheet. */
  ghost predicate StorageOk(cells: Cells, ranges: Ranges, rank: Position -> nat) {
    && Ranked(Contents(cells), rank) && Linked(cells) && ListsOk(cells) && Tidy(cells)
    && AllUsable(Contents(cells), ranges) && CachesOk(Contents(cells), rank, ranges)
  }

  lemma StorageReadable(cells: Cells, ranges: Ranges, rank: Position -> nat)
    requires StorageOk(cells, ranges, rank)
    ensures Readable(cells, ranges, rank)
  {
    forall p, q | p in Contents(cells) && q in Deps(Contents(cells)[p])
      ensures q in cells
    {
      assert p in Watchers(cells, q);
    }
  }

  lemma RefreshedTwice(sheet: Sheet, rank: Position -> nat, a: Ranges, b: Ranges, c: Ranges)
    requires Ranked(sheet, rank) && Refreshed(sheet, rank, a, b) && Refreshed(sheet, rank, b, c)
    ensures Refreshed(sheet, rank, a, c)
  {
    forall r | r in a
      ensures c[r] == a[r] || c[r] == RangeState(false, RangeNow(sheet, rank, r))
    {
      assert r in b;
    }
  }

  /** Running a range with its flag already cleared, then storing the result, is a refresh. */
  lemma FinishRange(sheet: Sheet, rank: Position -> nat, before: Ranges, mid: Ranges, after: Ranges, r: RangeRef,
                    v: Value)
    requires Ranked(sheet, rank) && r in before && mid == before[r := RangeState(false, before[r].cached)]
    requires Refreshed(sheet, rank, mid, after) && v == RangeNow(sheet, rank, r)
    ensures Refreshed(sheet, rank, before, after[r := RangeState(false, v)])
  {
    forall o | o in before
      ensures after[r := RangeState(false, v)][o] == before[o] ||
              after[r := RangeState(false, v)][o] == RangeState(false, RangeNow(sheet, rank, o))
    {
      assert o in mid;
    }
  }

  lemma RefreshedReadable(cells: Cells, ranges: Ranges, ranges': Ranges, rank: Position -> nat)
    requires Readable(cells, ranges, rank) && ranges'.Keys == ranges.Keys
    ensures Readable(cells, ranges', rank)
  {
    forall p, r | p in Contents(cells) && r in Refs(Contents(cells)[p])
      ensures r in ranges' && r.interval != []
    {
      assert Usable(Contents(cells)[p], ranges) && r in ranges;
    }
  }

  /** Which ranking shows that the sheet has no cycle does not matter. */
  lemma Reranked(cells: Cells, ranges: Ranges, rank: Position -> nat, rank': Position -> nat)
    requires StorageOk(cells, ranges, rank) && Ranked(Contents(cells), rank')
    ensures StorageOk(cells, ranges, rank')
  {
    var sheet := Contents(cells);
    forall p, r | p in sheet && r in Refs(sheet[p])
      ensures CacheOk(sheet, rank', ranges, r)
    {
      assert CacheOk(sheet, rank, ranges, r);
      forall q | q in r.interval
        ensures Eval(sheet, rank, q) == Eval(sheet, rank', q)
      {
        RankIrrelevant(sheet, rank, rank', q);
      }
      RangeSame(sheet, rank, Bound(rank, r.interval), sheet, rank', Bound(rank', r.interval), r);
    }
  }

  // ---------- sessions ----------

  datatype Command =
    | Make(ref: RangeRef)  // creates a range object, for later commands to put in cells
    | Put(p: Position, content: Content)
    | Erase(p: Position)
    | Ask(p: Position, wanted: Wanted)

  /** The sheet after some commands, as a plain map. */
  function Replay(sheet: Sheet, commands: seq<Command>): Sheet {
    if commands == [] then sheet else
      var before := Replay(sheet, commands[..|commands| - 1]);
      match commands[|commands| - 1]
      case Put(p, content) => before[p := content]
      case Erase(p) => before - {p}
      case _ => before
  }

  lemma ReplayNext(sheet: Sheet, commands: seq<Command>, i: nat)
    requires i < |commands|
    ensures Replay(sheet, commands[..i + 1]) ==
              match commands[i]
              case Put(p, content) => Replay(sheet, commands[..i])[p := content]
              case Erase(p) => Replay(sheet, commands[..i]) - {p}
              case _ => Replay(sheet, commands[..i])
  {
    assert commands[..i + 1][..i] == commands[..i];
  }

  ghost predicate RankedAt(sheet: Sheet, commands: seq<Command>, ranks: seq<Position -> nat>, i: nat)
    requires i < |ranks| <= |commands| + 1
  {
    Ranked(Replay(sheet, commands[..i]), ranks[i])
  }

  /** No sheet along the way has a cycle. */
  ghost predicate AllRanked(sheet: Sheet, commands: seq<Command>, ranks: seq<Position -> nat>) {
    |ranks| == |commands| + 1 && forall i :: 0 <= i < |ranks| ==> RankedAt(sheet, commands, ranks, i)
  }

  /** The answer that plain recursive evaluation gives to command i. */
  ghost function PlainAnswer(sheet: Sheet, commands: seq<Command>, ranks: seq<Position -> nat>, i: nat): Value
    requires AllRanked(sheet, commands, ranks) && i < |commands|
  {
    assert RankedAt(sheet, commands, ranks, i);
    match commands[i]
    case Ask(p, wanted) => Only(Eval(Replay(sheet, commands[..i]), ranks[i], p), wanted)
    case _ => Null
  }

  function MadeBy(known: set<RangeRef>, command: Command): set<RangeRef> {
    if command.Make? then known + {command.ref} else known
  }

  /** The range objects there are after some commands. */
  function Made(known: set<RangeRef>, commands: seq<Command>): set<RangeRef> {
    if commands == [] then known
    else MadeBy(Made(known, commands[..|commands| - 1]), commands[|commands| - 1])
  }

  /** The command creates a new range object, or uses existing ones only. */
  predicate UsesKnown(known: set<RangeRef>, command: Command) {
    match command
    case Make(r) => r !in known && r.interval != []
    case Put(_, content) => forall r :: r in Refs(content) ==> r in known && r.interval != []
    case _ => true
  }

  ghost predicate KnownAt(known: set<RangeRef>, commands: seq<Command>, i: nat)
    requires i < |commands|
  {
    UsesKnown(Made(known, commands[..i]), commands[i])
  }

  ghost predicate RangesKnown(known: set<RangeRef>, commands: seq<Command>) {
    forall i :: 0 <= i < |commands| ==> KnownAt(known, commands, i)
  }

  lemma MadeNext(known: set<RangeRef>, commands: seq<Command>, i: nat)
    requires i < |commands|
    ensures Made(known, commands[..i + 1]) == MadeBy(Made(known, commands[..i]), commands[i])
  {
    assert commands[..i + 1][..i] == commands[..i];
  }

  // ---------- the storage ----------

  /** A range object that no cell holds may have any state. */
  lemma UnusedRange(cells: Cells, ranges: Ranges, rank: Position -> nat, r: RangeRef, state: RangeState)
    requires StorageOk(cells, ranges, rank) && r !in ranges
    ensures StorageOk(cells, ranges[r := state], rank)
  {
    var sheet := Contents(cells);
    forall p, o | p in sheet && o in Refs(sheet[p])
      ensures CacheOk(sheet, rank, ranges[r := state], o) && o in ranges[r := state] && o.interval != []
    {
      assert Usable(sheet[p], ranges) && CacheOk(sheet, rank, ranges, o);
    }
  }

  class Storage {
    var cells: Cells
    var ranges: Ranges

    ghost predicate Valid(rank: Position -> nat)
      reads this
    {
      StorageOk(cells, ranges, rank)
    }

    constructor ()
      ensures cells == map[] && ranges == map[]
      ensures forall rank :: Valid(rank)
    {
      cells, ranges := map[], map[];
    }

    /** A new range object; its flag starts clear, and is raised when it is put in a cell. */
    method NewRange(id: nat, kind: RangeKind, interval: seq<Position>, ghost rank: Position -> nat)
      returns (content: Content)
      requires Valid(rank) && RangeRef(id, kind, interval) !in ranges && interval != []
      modifies this`ranges
      ensures Valid(rank) && content == Range(RangeRef(id, kind, interval)) && Usable(content, ranges)
      ensures ranges == old(ranges)[RangeRef(id, kind, interval) := RangeState(false, Null)]
    {
      UnusedRange(cells, ranges, rank, RangeRef(id, kind, interval), RangeState(false, Null));
      ranges := ranges[RangeRef(id, kind, interval) := RangeState(false, Null)];
      content := Range(RangeRef(id, kind, interval));
    }

    function View(p: Position): Option<Cell>
      reads this
    {
      if p in cells then Some(cells[p]) else None
    }

    /** The cell at a position, created when it is not there. */
    method Get(p: Position) returns (cell: Cell)
      modifies this`cells
      ensures p in cells && cell == cells[p]
      ensures cells == if p in old(cells) then old(cells) else old(cells)[p := Cell(None, [])]
    {
      if p !in cells {
        cells := cells[p := Cell(None, [])];
      }
      cell := cells[p];
    }

    /** A cell without content and observers need not be stored. */
    method DeleteIfFree(p: Position)
      requires p in cells
      modifies this`cells
      ensures cells ==
                if old(cells)[p].content == None && old(cells)[p].observers == [] then old(cells) - {p} else old(cells)
    {
      if cells[p].content == None && cells[p].observers == [] {
        cells := cells - {p};
      }
    }

    method AddObserver(p: Position, q: Position)
      requires p in cells && ListsOk(cells)
      modifies this`cells
      ensures Attached(old(cells), cells, {p}, q)
    {
      var observers := cells[p].observers;
      if q !in observers {
        cells := cells[p := cells[p].(observers := observers + [q])];
      }
    }

    method RemoveObserver(p: Position, q: Position)
      requires p in cells && ListsOk(cells)
      modifies this`cells
      ensures ListsOk(cells) && cells.Keys == old(cells).Keys
      ensures forall x :: x in cells ==> cells[x].content == old(cells)[x].content
      ensures forall x, o :: o in Watchers(cells, x) <==> o in Watchers(old(cells), x) && !(x == p && o == q)
    {
      var observers := cells[p].observers;
      for i := 0 to |observers|
        invariant cells == old(cells)
        invariant forall j :: 0 <= j < i ==> observers[j] != q
      {
        if observers[i] == q {
          cells := cells[p := cells[p].(observers := observers[..i] + observers[i + 1..])];
          return;
        }
      }
    }

    // ---------- contents entering and leaving a cell ----------

    /** The cell q starts to observe one cell. */
    method Observe(p: Position, q: Position)
      requires ListsOk(cells)
      modifies this`cells
      ensures Attached(old(cells), cells, {p}, q)
    {
      var referenced := Get(p);
      AddObserver(p, q);
    }

    method InitializeRange(r: RangeRef, q: Position)
      requires ListsOk(cells)
      modifies this`cells
      ensures Attached(old(cells), cells, Elements(r.interval), q)
    {
      for i := 0 to |r.interval|
        invariant Attached(old(cells), cells, Elements(r.interval[..i]), q)
      {
        ghost var mid := cells;
        Observe(r.interval[i], q);
        AttachedTwice(old(cells), mid, cells, Elements(r.interval[..i]), {r.interval[i]}, q);
        ElementsNext(r.interval, i);
      }
      assert r.interval[..|r.interval|] == r.interval;
    }

    /** The cell q starts to observe what the content reads. */
    method Initialize(content: Content, q: Position)
      requires ListsOk(cells)
      modifies this`cells
      ensures Attached(old(cells), cells, Deps(content), q)
      decreases content
    {
      match content
      case Literal(_) =>
      case Reference(p) =>
        Observe(p, q);
      case Binary(first, second, _) =>
        Initialize(first, q);
        ghost var mid := cells;
        Initialize(second, q);
        AttachedTwice(old(cells), mid, cells, Deps(first), Deps(second), q);
      case Range(r) => InitializeRange(r, q);
    }

    /** The cell q stops observing one cell it read. */
    method Leave(p: Position, q: Position)
      requires ListsOk(cells)
      modifies this`cells
      ensures Detached(old(cells), cells, {p}, q)
    {
      var referenced := Get(p);
      assert forall x :: Watchers(cells, x) == Watchers(old(cells), x);
      RemoveObserver(p, q);
      ghost var mid := cells;
      assert mid[p].observers != [] ==> mid[p].observers[0] in Watchers(mid, p);
      DeleteIfFree(p);
      assert forall x :: Watchers(cells, x) == Watchers(mid, x);
    }

    method DestroyRange(r: RangeRef, q: Position)
      requires ListsOk(cells)
      modifies this`cells
      ensures Detached(old(cells), cells, Elements(r.interval), q)
    {
      for i := 0 to |r.interval|
        invariant Detached(old(cells), cells, Elements(r.interval[..i]), q)
      {
        ghost var mid := cells;
        Leave(r.interval[i], q);
        DetachedTwice(old(cells), mid, cells, Elements(r.interval[..i]), {r.interval[i]}, q);
        ElementsNext(r.interval, i);
      }
      assert r.interval[..|r.interval|] == r.interval;
    }

    method Destroy(content: Content, q: Position)
      requires ListsOk(cells)
      modifies this`cells
      ensures Detached(old(cells), cells, Deps(content), q)
      decreases content
    {
      match content
      case Literal(_) =>
      case Reference(p) => Leave(p, q);
      case Binary(first, second, _) =>
        Destroy(first, q);
        ghost var mid := cells;
        Destroy(second, q);
        DetachedTwice(old(cells), mid, cells, Deps(first), Deps(second), q);
      case Range(r) => DestroyRange(r, q);
    }

    // ---------- raising flags ----------

    /** Tells a content that something it reads has changed. */
    method UpdateContent(content: Content)
      requires Usable(content, ranges)
      modifies this`ranges
      ensures Dirtied(old(ranges), ranges) && forall r :: r in Refs(content) ==> ranges[r].updated
      decreases content
    {
      match content
      case Literal(_) =>
      case Reference(_) =>
      case Binary(first, second, _) =>
        UpdateContent(first);
        UpdateContent(second);
      case Range(r) => ranges := ranges[r := ranges[r].(updated := true)];
    }

    /** A filled cell was changed, or something it reads: its ranges and those of all cells that follow get their
        flag. */
    method Update(p: Position, ghost rank: Position -> nat, ghost top: nat)
      requires Ranked(Contents(cells), rank) && Linked(cells) && AllUsable(Contents(cells), ranges)
      requires p in Contents(cells) && forall q :: q in Contents(cells) ==> rank(q) <= top
      modifies this`ranges
      ensures Dirtied(old(ranges), ranges) && DirtyFrom(Contents(cells), p, ranges)
      decreases top - rank(p), 1
    {
      UpdateContent(cells[p].content.value);
      ghost var mid := ranges;
      NotifyObservers(p, rank, top);
      UpdateReaches(Contents(cells), p, mid, ranges);
    }

    /** Every observer is updated in turn; each of them holds a content. */
    method NotifyObservers(p: Position, ghost rank: Position -> nat, ghost top: nat)
      requires Ranked(Contents(cells), rank) && Linked(cells) && AllUsable(Contents(cells), ranges) && p in cells
      requires forall q :: q in Contents(cells) ==> rank(q) <= top
      modifies this`ranges
      ensures Dirtied(old(ranges), ranges)
      ensures forall q :: (p, q) in Reads(Contents(cells)) ==> DirtyFrom(Contents(cells), q, ranges)
      decreases top - rank(p), 0
    {
      var observers := cells[p].observers;
      for i := 0 to |observers|
        invariant Dirtied(old(ranges), ranges)
        invariant forall j :: 0 <= j < i ==> DirtyFrom(Contents(cells), observers[j], ranges)
      {
        assert observers[i] in Watchers(cells, p) && Under(rank, p, observers[i]);
        ghost var mid := ranges;
        Update(observers[i], rank, top);
        forall j | 0 <= j < i
          ensures DirtyFrom(Contents(cells), observers[j], ranges)
        {
          StaysDirty(Contents(cells), observers[j], mid, ranges);
        }
      }
      forall q | (p, q) in Reads(Contents(cells))
        ensures q in observers
      {
        WatcherIsReader(cells, p, q);
      }
    }

    // ---------- inserting and deleting ----------

    /** Takes the content out of a filled cell, leaving the cell where it is. */
    method Clear(p: Position)
      requires Linked(cells) && ListsOk(cells) && TidyBut(cells, p) && p in Contents(cells) &&
               p !in Deps(Contents(cells)[p])
      modifies this`cells
      ensures p in cells && ListsOk(cells) && Linked(cells) && Contents(cells) == Contents(old(cells)) - {p}
      ensures TidyBut(cells, p)
    {
      hide Linked, ListsOk, TidyBut, Watchers;
      HasContent(cells, p);
      Destroy(cells[p].content.value, p);
      Emptied(old(cells), cells, p);
      cells := cells[p := cells[p].(content := None)];
    }

    /** Puts a content in an empty cell. */
    method Fill(p: Position, content: Content)
      requires Linked(cells) && ListsOk(cells) && p in cells && p !in Contents(cells) && p !in Deps(content) &&
               TidyBut(cells, p)
      modifies this`cells
      ensures ListsOk(cells) && Linked(cells) && Tidy(cells) && Contents(cells) == Contents(old(cells))[p := content]
    {
      cells := cells[p := cells[p].(content := Some(content))];
      Initialize(content, p);
      Filled(old(cells), cells, p, content);
    }

    /** Replaces the content of a cell, created if need be. */
    method Place(p: Position, content: Content, ghost rank: Position -> nat)
      requires Valid(rank) && p !in Deps(content)
      modifies this`cells
      ensures ListsOk(cells) && Linked(cells) && Tidy(cells) && Contents(cells) == Contents(old(cells))[p := content]
    {
      hide Linked, ListsOk, Tidy, TidyBut, CachesOk, Ranked, Contents, Watchers, AllUsable;
      PlaceReady(cells, p);
      var cell := Get(p);
      HasContent(cells, p);
      if cell.content.Some? {
        NotSelf(Contents(cells), rank, p);
        Clear(p);
      }
      Fill(p, content);
    }

    /** Replaces what a position holds; nothing but that position changes, and no stale cache survives. */
    method Insert(p: Position, content: Content, ghost rank: Position -> nat, ghost rank': Position -> nat)
      requires Valid(rank) && Usable(content, ranges) && Ranked(Contents(cells)[p := content], rank')
      modifies this
      ensures Contents(cells) == Contents(old(cells))[p := content] && Valid(rank') && ranges.Keys == old(ranges).Keys
    {
      hide Linked, ListsOk, Tidy, CachesOk, Ranked, Contents, Watchers, Dirtied, DirtyFrom, Usable;
      ghost var sheet, before := Contents(cells), ranges;
      NotSelf(sheet[p := content], rank', p);
      Place(p, content, rank);
      ghost var top := TopRank(Contents(cells).Keys, rank');
      Update(p, rank', top);
      CachesSurvive(sheet, rank, Contents(cells), rank', p, before, ranges);
      StillUsable(Contents(cells), before, ranges);
    }

    /** Empties a filled cell and tells its observers. */
    method Vacate(p: Position, ghost rank: Position -> nat)
      requires Valid(rank) && p in cells && cells[p].content.Some?
      modifies this
      ensures p in cells && Contents(cells) == Contents(old(cells)) - {p} && ranges.Keys == old(ranges).Keys
      ensures Ranked(Contents(cells), rank) && Linked(cells) && ListsOk(cells) && TidyBut(cells, p)
      ensures AllUsable(Contents(cells), ranges) && CachesOk(Contents(cells), rank, ranges)
    {
      hide Linked, ListsOk, Tidy, TidyBut, CachesOk, Ranked, Contents, Watchers, Dirtied, DirtyFrom, Usable, AllUsable;
      ghost var sheet, before := Contents(cells), ranges;
      PlaceReady(cells, p);
      HasContent(cells, p);
      NotSelf(sheet, rank, p);
      Clear(p);
      Smaller(sheet, rank, ranges, p);
      ghost var top := TopRank(Contents(cells).Keys, rank);
      NotifyObservers(p, rank, top);
      UpdateReaches(Contents(cells), p, before, ranges);
      CachesSurvive(sheet, rank, Contents(cells), rank, p, before, ranges);
      StillUsable(Contents(cells), before, ranges);
    }

    /** Empties a position. */
    method Delete(p: Position, ghost rank: Position -> nat)
      requires Valid(rank)
      modifies this
      ensures Contents(cells) == Contents(old(cells)) - {p} && Valid(rank) && ranges.Keys == old(ranges).Keys
    {
      hide Linked, ListsOk, Tidy, TidyBut, CachesOk, Ranked, Contents, Watchers, Dirtied, DirtyFrom, Usable, AllUsable;
      if p !in cells {
        NothingThere(cells, p);
        return;
      }
      PlaceReady(cells, p);
      if cells[p].content.Some? {
        Vacate(p, rank);
      } else {
        NothingThere(cells, p);
      }
      Freed(cells, p);
      DeleteIfFree(p);
    }

    // ---------- reading ----------

    /** The number or the text of a cell. Caches met on the way are brought up to date. */
    method GetValue(p: Position, wanted: Wanted, ghost rank: Position -> nat) returns (v: Value)
      requires p in cells && Readable(cells, ranges, rank) && CachesBelow(Contents(cells), rank, ranges, rank(p) + 1)
      modifies this`ranges
      ensures Refreshed(Contents(cells), rank, old(ranges), ranges)
      ensures v == Only(Eval(Contents(cells), rank, p), wanted)
      decreases rank(p), 3
    {
      if cells[p].content.None? {
        v := Null;
      } else {
        v := GetContent(cells[p].content.value, wanted, p, rank);
      }
    }

    /** The value of a content inside the cell p. */
    method GetContent(content: Content, wanted: Wanted, ghost p: Position, ghost rank: Position -> nat)
      returns (v: Value)
      requires Readable(cells, ranges, rank) && CachesBelow(Contents(cells), rank, ranges, rank(p) + 1)
      requires p in Contents(cells) && Deps(content) <= Deps(Contents(cells)[p]) &&
               Refs(content) <= Refs(Contents(cells)[p])
      requires Below(content, rank, rank(p))
      modifies this`ranges
      ensures Refreshed(Contents(cells), rank, old(ranges), ranges)
      ensures v == Only(EvalContent(Contents(cells), rank, rank(p), content), wanted)
      decreases rank(p), 1, content
    {
      match content
      case Literal(x) => v := Only(x, wanted);
      case Reference(q) => v := GetValue(q, wanted, rank);
      case Binary(first, second, operation) =>
        v := Null;
        if wanted.AsNumber? {
          var a := GetContent(first, AsNumber, p, rank);
          ghost var mid := ranges;
          RefreshedReadable(cells, old(ranges), mid, rank);
          RefreshedCaches(Contents(cells), rank, old(ranges), mid, rank(p) + 1);
          var b := GetContent(second, AsNumber, p, rank);
          RefreshedTwice(Contents(cells), rank, old(ranges), mid, ranges);
          if a.Number? && b.Number? {
            v := Apply(operation, a.n, b.n);
          }
        }
      case Range(r) =>
        v := Null;
        RangeNowIs(Contents(cells), rank, rank(p), r);
        AggregateKind(r.kind, RangeValues(Contents(cells), rank, rank(p), r));
        if wanted == ResultOf(r.kind) {
          v := GetRange(r, p, rank);
        }
    }

    /** The lazy getter of a range: runs only when the flag is raised, and clears it before it runs. */
    method GetRange(r: RangeRef, ghost p: Position, ghost rank: Position -> nat) returns (v: Value)
      requires Readable(cells, ranges, rank) && CachesBelow(Contents(cells), rank, ranges, rank(p) + 1)
      requires p in Contents(cells) && r in Refs(Contents(cells)[p])
      modifies this`ranges
      ensures Refreshed(Contents(cells), rank, old(ranges), ranges)
      ensures v == RangeNow(Contents(cells), rank, r)
      decreases rank(p), 0, 1
    {
      assert Usable(Contents(cells)[p], ranges);
      if ranges[r].updated {
        ghost var state := RangeState(false, ranges[r].cached);
        ranges := ranges[r := RangeState(false, ranges[r].cached)];
        RefDeps(Contents(cells)[p], r);
        forall q | q in r.interval
          ensures CachesBelow(Contents(cells), rank, ranges, rank(q) + 1) && Under(rank, q, p)
        {
          StaleUnseen(Contents(cells), rank, old(ranges), r, state, rank(p) + 1, q);
        }
        RefreshedReadable(cells, old(ranges), ranges, rank);
        ghost var mid := ranges;
        v := Execute(r, p, rank);
        FinishRange(Contents(cells), rank, old(ranges), mid, ranges, r, v);
        ranges := ranges[r := RangeState(false, v)];
      } else {
        assert CacheOk(Contents(cells), rank, ranges, r);
      }
      v := ranges[r].cached;
    }

    /** Runs the function of a range over its cells; a cell without a number leaves AVERAGE and PRODUCT without a
        result. */
    method Execute(r: RangeRef, ghost p: Position, ghost rank: Position -> nat) returns (v: Value)
      requires Readable(cells, ranges, rank) && r.interval != [] && p in Contents(cells) &&
               r in Refs(Contents(cells)[p])
      requires forall q :: q in r.interval ==>
                 Under(rank, q, p) && CachesBelow(Contents(cells), rank, ranges, rank(q) + 1)
      modifies this`ranges
      ensures Refreshed(Contents(cells), rank, old(ranges), ranges)
      ensures v == RangeNow(Contents(cells), rank, r)
      decreases rank(p), 0, 0
    {
      ghost var values := RangeValues(Contents(cells), rank, Bound(rank, r.interval), r);
      RefDeps(Contents(cells)[p], r);
      var acc, text := StartOf(r.kind), "";
      for i := 0 to |r.interval|
        invariant Refreshed(Contents(cells), rank, old(ranges), ranges)
        invariant ResultOf(r.kind).AsNumber? ==>
                    FoldNumbers(r.kind, acc, values[i..]) == FoldNumbers(r.kind, StartOf(r.kind), values)
        invariant ResultOf(r.kind).AsText? ==> FoldTexts(r.kind, text, values[i..]) == FoldTexts(r.kind, "", values)
      {
        var q := r.interval[i];
        assert q in r.interval && values[i..][1..] == values[i + 1..];
        RefreshedReadable(cells, old(ranges), ranges, rank);
        RefreshedCaches(Contents(cells), rank, old(ranges), ranges, rank(q) + 1);
        ghost var mid := ranges;
        var current := GetValue(q, ResultOf(r.kind), rank);
        RefreshedTwice(Contents(cells), rank, old(ranges), mid, ranges);
        if ResultOf(r.kind).AsNumber? {
          if current.Null? {
            return Null;
          }
          acc := Combine(r.kind, acc, current.n);
        } else if current.Text? {
          if r.kind.Coalesce? {
            return current;
          }
          text := text + current.s;
        }
      }
      assert values[|r.interval|..] == [];
      v := if ResultOf(r.kind).AsText? then Text(text)
           else if r.kind.Average? then Number(Quotient(acc, |r.interval|)) else Number(acc);
    }

    /** The number or the text shown at a position, without creating a cell there. */
    method Read(p: Position, wanted: Wanted, ghost rank: Position -> nat) returns (v: Value)
      requires Valid(rank)
      modifies this`ranges
      ensures Valid(rank) && ranges.Keys == old(ranges).Keys
      ensures v == Only(Eval(Contents(cells), rank, p), wanted)
    {
      if View(p).None? {
        v := Null;
      } else {
        StorageReadable(cells, ranges, rank);
        v := GetValue(p, wanted, rank);
        RefreshedCaches(Contents(cells), rank, old(ranges), ranges, 0);
        RefreshedReadable(cells, old(ranges), ranges, rank);
      }
    }

    method Perform(command: Command, ghost rank: Position -> nat, ghost rank': Position -> nat) returns (answer: Value)
      requires Valid(rank) && UsesKnown(ranges.Keys, command)
      requires match command
               case Put(p, content) => Ranked(Contents(cells)[p := content], rank')
               case Erase(p) => Ranked(Contents(cells) - {p}, rank')
               case _ => Ranked(Contents(cells), rank')
      modifies this
      ensures ranges.Keys == MadeBy(old(ranges.Keys), command) && Valid(rank')
      ensures match command
              case Put(p, content) => Contents(cells) == Contents(old(cells))[p := content] && answer == Null
              case Erase(p) => Contents(cells) == Contents(old(cells)) - {p} && answer == Null
              case Ask(p, wanted) =>
                Contents(cells) == Contents(old(cells)) && answer == Only(Eval(Contents(cells), rank, p), wanted)
              case Make(_) => Contents(cells) == Contents(old(cells)) && answer == Null
    {
      answer := Null;
      match command
      case Make(r) =>
        var content := NewRange(r.id, r.kind, r.interval, rank);
        Reranked(cells, ranges, rank, rank');
      case Put(p, content) =>
        Insert(p, content, rank, rank');
      case Erase(p) =>
        Delete(p, rank);
        Reranked(cells, ranges, rank, rank');
      case Ask(p, wanted) =>
        answer := Read(p, wanted, rank);
        Reranked(cells, ranges, rank, rank');
    }

    /** Any run of new ranges, inserts, deletes and reads answers as plain recursive evaluation of the contents
        would. */
    method Run(commands: seq<Command>, ghost ranks: seq<Position -> nat>) returns (answers: seq<Value>)
      requires AllRanked(Contents(cells), commands, ranks) && Valid(ranks[0]) && RangesKnown(ranges.Keys, commands)
      modifies this
      ensures |answers| == |commands|
      ensures forall i :: 0 <= i < |commands| ==> answers[i] == PlainAnswer(Contents(old(cells)), commands, ranks, i)
      ensures Contents(cells) == Replay(Contents(old(cells)), commands) && Valid(ranks[|commands|])
    {
      hide StorageOk, Contents, Ranked, Usable, Only, UsesKnown;
      ghost var sheet, known := Contents(cells), ranges.Keys;
      answers := [];
      for i := 0 to |commands|
        invariant |answers| == i && ranges.Keys == Made(known, commands[..i])
        invariant forall j :: 0 <= j < i ==> answers[j] == PlainAnswer(sheet, commands, ranks, j)
        invariant Contents(cells) == Replay(sheet, commands[..i]) && Valid(ranks[i])
      {
        ReplayNext(sheet, commands, i);
        MadeNext(known, commands, i);
        assert KnownAt(known, commands, i);
        assert RankedAt(sheet, commands, ranks, i) && RankedAt(sheet, commands, ranks, i + 1);
        var answer := Perform(commands[i], ranks[i], ranks[i + 1]);
        answers := answers + [answer];
      }
      assert commands[..|commands|] == commands;
    }
  }
}
