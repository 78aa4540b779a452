/** Spreadsheet contents as values: what a cell depends on and what plain recursive evaluation gives. */
module SheetModel {
  import opened Paths

  datatype Position = Position(row: int, column: int)

  datatype Value = Null | Number(n: int) | Text(s: string)

  /** Which of the two getters is meant. */
  datatype Wanted = AsNumber | AsText

  function Only(v: Value, wanted: Wanted): Value {
    if (wanted.AsNumber? && v.Number?) || (wanted.AsText? && v.Text?) then v else Null
  }

  datatype Operation = Add | Sub | Mul | Div

  datatype RangeKind = Average | Product | Concat | Coalesce

  function ResultOf(kind: RangeKind): Wanted {
    if kind.Average? || kind.Product? then AsNumber else AsText
  }

  /** A range object: its identity and its final fields. Its flag and cached value are part of the storage. */
  datatype RangeRef = RangeRef(id: nat, kind: RangeKind, interval: seq<Position>)

  datatype Content =
    | Literal(value: Value)
    | Reference(position: Position)
    | Binary(first: Content, second: Content, operation: Operation)
    | Range(ref: RangeRef)

  function Elements(s: seq<Position>): set<Position> {
    set p | p in s
  }

  lemma ElementsNext(s: seq<Position>, i: nat)
    requires i < |s|
    ensures Elements(s[..i + 1]) == Elements(s[..i]) + {s[i]}
  {
    assert s[..i + 1] == s[..i] + [s[i]];
  }

  /** The cells a content reads directly. */
  function Deps(content: Content): set<Position> {
    match content
    case Literal(_) => {}
    case Reference(p) => {p}
    case Binary(a, b, _) => Deps(a) + Deps(b)
    case Range(r) => Elements(r.interval)
  }

  /** The range objects a content holds. */
  function Refs(content: Content): set<RangeRef> {
    match content
    case Literal(_) => {}
    case Reference(_) => {}
    case Binary(a, b, _) => Refs(a) + Refs(b)
    case Range(r) => {r}
  }

  lemma {:induction false} RefDeps(content: Content, r: RangeRef)
    requires r in Refs(content)
    ensures forall p :: p in r.interval ==> p in Deps(content)
  {
    match content
    case Literal(_) =>
    case Reference(_) =>
    case Binary(a, b, _) =>
      if r in Refs(a) {
        RefDeps(a, r);
      } else {
        RefDeps(b, r);
      }
    case Range(_) =>
  }

  // ---------- arithmetic ----------

  /** Integer division that truncates toward zero. */
  function Quotient(a: int, b: int): int
    requires b != 0
  {
    var q := (if a < 0 then -a else a) / (if b < 0 then -b else b);
    if (a < 0) == (b < 0) then q else -q
  }

  function Apply(operation: Operation, a: int, b: int): Value {
    match operation
    case Add => Number(a + b)
    case Sub => Number(a - b)
    case Mul => Number(a * b)
    case Div => if b == 0 then Null else Number(Quotient(a, b))
  }

  function Combine(kind: RangeKind, acc: int, n: int): int {
    if kind.Average? then acc + n else acc * n
  }

  function StartOf(kind: RangeKind): int {
    if kind.Average? then 0 else 1
  }

  /** The accumulated number, none once a cell has no number. */
  function FoldNumbers(kind: RangeKind, acc: int, values: seq<Value>): Value
    decreases |values|
  {
    if values == [] then Number(acc)
    else if values[0].Number? then FoldNumbers(kind, Combine(kind, acc, values[0].n), values[1..])
    else Null
  }

  /** CONCAT joins the texts, COALESCE stops at the first. */
  function FoldTexts(kind: RangeKind, acc: string, values: seq<Value>): Value
    decreases |values|
  {
    if values == [] then Text(acc)
    else if !values[0].Text? then FoldTexts(kind, acc, values[1..])
    else if kind.Coalesce? then values[0]
    else FoldTexts(kind, acc + values[0].s, values[1..])
  }

  function Aggregate(kind: RangeKind, values: seq<Value>): Value {
    if ResultOf(kind).AsText? then FoldTexts(kind, "", values)
    else
      var total := FoldNumbers(kind, StartOf(kind), values);
      if kind.Average? && total.Number? && values != [] then Number(Quotient(total.n, |values|)) else total
  }

  lemma {:induction false} NumbersOrNothing(kind: RangeKind, acc: int, values: seq<Value>)
    ensures !FoldNumbers(kind, acc, values).Text?
    decreases |values|
  {
    if values != [] && values[0].Number? {
      NumbersOrNothing(kind, Combine(kind, acc, values[0].n), values[1..]);
    }
  }

  lemma {:induction false} TextsOnly(kind: RangeKind, acc: string, values: seq<Value>)
    ensures FoldTexts(kind, acc, values).Text?
    decreases |values|
  {
    if values == [] {
    } else if !values[0].Text? {
      TextsOnly(kind, acc, values[1..]);
    } else if !kind.Coalesce? {
      TextsOnly(kind, acc + values[0].s, values[1..]);
    }
  }

  /** A range has a value of its own kind only. */
  lemma AggregateKind(kind: RangeKind, values: seq<Value>)
    ensures Only(Aggregate(kind, values), ResultOf(kind)) == Aggregate(kind, values)
    ensures forall wanted :: wanted != ResultOf(kind) ==> Only(Aggregate(kind, values), wanted) == Null
  {
    NumbersOrNothing(kind, StartOf(kind), values);
    TextsOnly(kind, "", values);
  }

  // ---------- evaluation ----------

  type Sheet = map<Position, Content>

  ghost predicate Under(rank: Position -> nat, q: Position, p: Position) { rank(q) < rank(p) }

  /** The sheet has no cycle: every cell ranks above the cells it reads. */
  ghost predicate Ranked(sheet: Sheet, rank: Position -> nat) {
    forall p, q :: p in sheet && q in Deps(sheet[p]) ==> Under(rank, q, p)
  }

  ghost predicate Below(content: Content, rank: Position -> nat, k: nat) {
    forall q :: q in Deps(content) ==> rank(q) < k
  }

  /** The value of a cell by plain recursive evaluation. */
  ghost function Eval(sheet: Sheet, rank: Position -> nat, p: Position): Value
    requires Ranked(sheet, rank)
    decreases rank(p), 2
  {
    if p in sheet then EvalContent(sheet, rank, rank(p), sheet[p]) else Null
  }

  ghost function EvalContent(sheet: Sheet, rank: Position -> nat, k: nat, content: Content): Value
    requires Ranked(sheet, rank) && Below(content, rank, k)
    decreases k, 1, content
  {
    match content
    case Literal(v) => v
    case Reference(q) => Eval(sheet, rank, q)
    case Binary(a, b, operation) =>
      var va, vb := EvalContent(sheet, rank, k, a), EvalContent(sheet, rank, k, b);
      if va.Number? && vb.Number? then Apply(operation, va.n, vb.n) else Null
    case Range(r) => RangeValue(sheet, rank, k, r)
  }

  ghost function RangeValues(sheet: Sheet, rank: Position -> nat, k: nat, r: RangeRef): (values: seq<Value>)
    requires Ranked(sheet, rank) && forall q :: q in r.interval ==> rank(q) < k
    ensures |values| == |r.interval|
    decreases k, 0, 0
  {
    seq(|r.interval|, i requires 0 <= i < |r.interval| =>
      assert r.interval[i] in r.interval; Only(Eval(sheet, rank, r.interval[i]), ResultOf(r.kind)))
  }

  ghost function RangeValue(sheet: Sheet, rank: Position -> nat, k: nat, r: RangeRef): Value
    requires Ranked(sheet, rank) && forall q :: q in r.interval ==> rank(q) < k
    decreases k, 0, 1
  {
    Aggregate(r.kind, RangeValues(sheet, rank, k, r))
  }

  // ---------- the value depends neither on the ranking nor on unrelated cells ----------

  /** An edge from each cell to those that read it. */
  ghost function Reads(sheet: Sheet): iset<(Position, Position)> {
    iset e: (Position, Position) | e.1 in sheet && e.0 in Deps(sheet[e.1])
  }

  /** Cells that do not follow from p evaluate the same whatever p holds, and whatever the ranking. */
  lemma {:induction false} EvalSame(sheet: Sheet, rank: Position -> nat, sheet': Sheet, rank': Position -> nat,
                                    p: Position, x: Position)
    requires Ranked(sheet, rank) && Ranked(sheet', rank')
    requires forall y :: y != p ==> (y in sheet <==> y in sheet') && (y in sheet ==> sheet[y] == sheet'[y])
    requires !Reach(Reads(sheet), p, x) || sheet == sheet'
    ensures Eval(sheet, rank, x) == Eval(sheet', rank', x)
    decreases rank(x), 1
  {
    Refl(Reads(sheet), p);
    if x in sheet {
      ContentSame(sheet, rank, sheet', rank', p, x, sheet[x]);
    }
  }

  lemma RangeSame(sheet: Sheet, rank: Position -> nat, k: nat, sheet': Sheet, rank': Position -> nat, k': nat,
                  r: RangeRef)
    requires Ranked(sheet, rank) && Ranked(sheet', rank')
    requires forall q :: q in r.interval ==>
               rank(q) < k && rank'(q) < k' && Eval(sheet, rank, q) == Eval(sheet', rank', q)
    ensures RangeValue(sheet, rank, k, r) == RangeValue(sheet', rank', k', r)
  {
    var values, values' := RangeValues(sheet, rank, k, r), RangeValues(sheet', rank', k', r);
    forall i | 0 <= i < |r.interval|
      ensures values[i] == values'[i]
    {
      assert r.interval[i] in r.interval;
    }
    assert values == values';
  }

  lemma {:induction false} ContentSame(sheet: Sheet, rank: Position -> nat, sheet': Sheet, rank': Position -> nat,
                                       p: Position, x: Position, content: Content)
    requires Ranked(sheet, rank) && Ranked(sheet', rank') && x in sheet && Deps(content) <= Deps(sheet[x])
    requires forall y :: y != p ==> (y in sheet <==> y in sheet') && (y in sheet ==> sheet[y] == sheet'[y])
    requires !Reach(Reads(sheet), p, x) || sheet == sheet'
    requires Below(content, rank, rank(x)) && Below(content, rank', rank'(x))
    ensures EvalContent(sheet, rank, rank(x), content) == EvalContent(sheet', rank', rank'(x), content)
    decreases rank(x), 0, content
  {
    forall q | q in Deps(content)
      ensures Eval(sheet, rank, q) == Eval(sheet', rank', q)
    {
      if Reach(Reads(sheet), p, q) {
        Step(Reads(sheet), q, x);
        Trans(Reads(sheet), p, q, x);
      }
      EvalSame(sheet, rank, sheet', rank', p, q);
    }
    match content
    case Literal(_) =>
    case Reference(_) =>
    case Binary(a, b, _) =>
      ContentSame(sheet, rank, sheet', rank', p, x, a);
      ContentSame(sheet, rank, sheet', rank', p, x, b);
    case Range(r) => RangeSame(sheet, rank, rank(x), sheet', rank', rank'(x), r);
  }

  /** The value of a cell is the same under every ranking of the sheet. */
  lemma RankIrrelevant(sheet: Sheet, rank: Position -> nat, rank': Position -> nat, x: Position)
    requires Ranked(sheet, rank) && Ranked(sheet, rank')
    ensures Eval(sheet, rank, x) == Eval(sheet, rank', x)
  {
    EvalSame(sheet, rank, sheet, rank', x, x);
  }
}
