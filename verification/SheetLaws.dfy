/** What the values read from a sheet mean: arithmetic, sums, products and joined texts. */
module SheetLaws {
  import opened SheetModel

  /** What reading a position as a number or as a text gives. */
  ghost function Seen(sheet: Sheet, rank: Position -> nat, p: Position, wanted: Wanted): Value
    requires Ranked(sheet, rank)
  {
    Only(Eval(sheet, rank, p), wanted)
  }

  /** The number of an operand inside the cell p. */
  ghost function NumberOf(sheet: Sheet, rank: Position -> nat, p: Position, content: Content): Value
    requires Ranked(sheet, rank) && Below(content, rank, rank(p))
  {
    Only(EvalContent(sheet, rank, rank(p), content), AsNumber)
  }

  lemma CellBelow(sheet: Sheet, rank: Position -> nat, p: Position)
    requires Ranked(sheet, rank) && p in sheet
    ensures Below(sheet[p], rank, rank(p)) && Eval(sheet, rank, p) == EvalContent(sheet, rank, rank(p), sheet[p])
  {
    assert forall q :: q in Deps(sheet[p]) ==> Under(rank, q, p);
  }

  // ---------- plain contents ----------

  /** A literal is seen as what it is, a reference as what the other cell shows, an empty position as nothing. */
  lemma SeenPlain(sheet: Sheet, rank: Position -> nat, p: Position)
    requires Ranked(sheet, rank)
    ensures p !in sheet ==> forall wanted :: Seen(sheet, rank, p, wanted) == Null
    ensures p in sheet && sheet[p].Literal? ==>
              && (sheet[p].value.Number? ==> Seen(sheet, rank, p, AsNumber) == sheet[p].value)
              && (sheet[p].value.Text? ==> Seen(sheet, rank, p, AsText) == sheet[p].value)
              && (!sheet[p].value.Number? ==> Seen(sheet, rank, p, AsNumber) == Null)
              && (!sheet[p].value.Text? ==> Seen(sheet, rank, p, AsText) == Null)
    ensures p in sheet && sheet[p].Reference? ==>
              forall wanted :: Seen(sheet, rank, p, wanted) == Seen(sheet, rank, sheet[p].position, wanted)
  {
    if p in sheet {
      CellBelow(sheet, rank, p);
      assert sheet[p].Literal? ==> Eval(sheet, rank, p) == sheet[p].value;
      assert sheet[p].Reference? ==> Eval(sheet, rank, p) == Eval(sheet, rank, sheet[p].position);
    } else {
      assert Eval(sheet, rank, p) == Null;
    }
  }

  /** The same for operands. */
  lemma OperandPlain(sheet: Sheet, rank: Position -> nat, p: Position, content: Content)
    requires Ranked(sheet, rank) && Below(content, rank, rank(p))
    ensures content.Literal? ==>
              NumberOf(sheet, rank, p, content) == if content.value.Number? then content.value else Null
    ensures content.Reference? ==>
              NumberOf(sheet, rank, p, content) == Seen(sheet, rank, content.position, AsNumber)
  {
    var v := EvalContent(sheet, rank, rank(p), content);
    assert content.Literal? ==> v == content.value;
    assert content.Reference? ==> v == Eval(sheet, rank, content.position);
  }

  // ---------- operations ----------

  function Abs(a: int): nat { if a < 0 then -a else a }

  /** q is a / b without its fraction: what is left over is smaller than b and on the side of a. */
  predicate Truncated(a: int, b: int, q: int) {
    var left := a - q * b;
    Abs(left) < Abs(b) && (left == 0 || (left < 0) == (a < 0))
  }

  lemma Negated(x: int, y: int)
    ensures (-x) * y == -(x * y) && x * (-y) == -(x * y)
  {
  }

  lemma QuotientTruncates(a: int, b: int)
    requires b != 0
    ensures Truncated(a, b, Quotient(a, b))
  {
    var m: int, n: int := Abs(a), Abs(b);
    var q: int, r: int := m / n, m % n;
    assert m == q * n + r && 0 <= r < n;
    var signed := if (a < 0) == (b < 0) then q else -q;
    assert Quotient(a, b) == signed;
    assert a - signed * b == if a < 0 then -r else r by {
      Negated(q, n);
      Negated(q, b);
      hide Quotient;
    }
    hide Quotient;
  }

  /** What the result of an operation has to do with its operands. */
  predicate Relates(operation: Operation, first: int, second: int, result: int) {
    match operation
    case Add => result - second == first
    case Sub => result + second == first
    case Mul => result == first * second
    case Div => second != 0 && Truncated(first, second, result)
  }

  /** An operation has a number exactly if both operands have one and nothing is divided by zero; then the result
      relates to the operands as its name says. It never has a text. */
  lemma SeenBinary(sheet: Sheet, rank: Position -> nat, p: Position)
    requires Ranked(sheet, rank) && p in sheet && sheet[p].Binary?
    ensures Seen(sheet, rank, p, AsText) == Null
    ensures Below(sheet[p].first, rank, rank(p)) && Below(sheet[p].second, rank, rank(p))
    ensures var first, second := NumberOf(sheet, rank, p, sheet[p].first), NumberOf(sheet, rank, p, sheet[p].second);
            var v := Seen(sheet, rank, p, AsNumber);
            && (v.Number? || v.Null?)
            && (v.Number? <==> first.Number? && second.Number? && !(sheet[p].operation.Div? && second.n == 0))
            && (v.Number? ==> Relates(sheet[p].operation, first.n, second.n, v.n))
  {
    CellBelow(sheet, rank, p);
    var a := EvalContent(sheet, rank, rank(p), sheet[p].first);
    var b := EvalContent(sheet, rank, rank(p), sheet[p].second);
    assert Eval(sheet, rank, p) == if a.Number? && b.Number? then Apply(sheet[p].operation, a.n, b.n) else Null;
    var first, second := NumberOf(sheet, rank, p, sheet[p].first), NumberOf(sheet, rank, p, sheet[p].second);
    if first.Number? && second.Number? && second.n != 0 {
      QuotientTruncates(first.n, second.n);
    }
    hide Quotient, Truncated;
  }

  // ---------- ranges ----------

  predicate AllNumbers(values: seq<Value>) {
    forall i :: 0 <= i < |values| ==> values[i].Number?
  }

  function Sum(values: seq<Value>): int
    requires AllNumbers(values)
  {
    if values == [] then 0 else values[0].n + Sum(values[1..])
  }

  function Product(values: seq<Value>): int
    requires AllNumbers(values)
  {
    if values == [] then 1 else values[0].n * Product(values[1..])
  }

  /** The texts one after the other; what is not a text is left out. */
  function Joined(values: seq<Value>): string {
    if values == [] then "" else (if values[0].Text? then values[0].s else "") + Joined(values[1..])
  }

  lemma Rejoined(x: string, y: string, z: string)
    ensures (x + y) + z == x + (y + z)
  {
  }

  lemma {:induction false} JoinedSplits(a: seq<Value>, b: seq<Value>)
    ensures Joined(a + b) == Joined(a) + Joined(b)
  {
    if a == [] {
      assert a + b == b;
    } else {
      JoinedSplits(a[1..], b);
      assert (a + b)[1..] == a[1..] + b;
      Rejoined(if a[0].Text? then a[0].s else "", Joined(a[1..]), Joined(b));
    }
  }

  lemma {:induction false} SumSplits(a: seq<Value>, b: seq<Value>)
    requires AllNumbers(a) && AllNumbers(b)
    ensures AllNumbers(a + b) && Sum(a + b) == Sum(a) + Sum(b)
  {
    if a == [] {
      assert a + b == b;
    } else {
      SumSplits(a[1..], b);
      assert (a + b)[1..] == a[1..] + b;
    }
  }

  lemma Regrouped(x: int, y: int, z: int)
    ensures (x * y) * z == x * (y * z)
  {
  }

  lemma {:induction false} ProductSplits(a: seq<Value>, b: seq<Value>)
    requires AllNumbers(a) && AllNumbers(b)
    ensures AllNumbers(a + b) && Product(a + b) == Product(a) * Product(b)
  {
    if a == [] {
      assert a + b == b;
    } else {
      ProductSplits(a[1..], b);
      assert (a + b)[1..] == a[1..] + b;
      Regrouped(a[0].n, Product(a[1..]), Product(b));
    }
  }

  lemma {:induction false} FoldIs(kind: RangeKind, acc: int, values: seq<Value>)
    ensures FoldNumbers(kind, acc, values).Number? <==> AllNumbers(values)
    ensures AllNumbers(values) ==>
              FoldNumbers(kind, acc, values).n ==
                if kind.Average? then acc + Sum(values) else acc * Product(values)
    decreases |values|
  {
    if values != [] && values[0].Number? {
      FoldIs(kind, Combine(kind, acc, values[0].n), values[1..]);
      if AllNumbers(values[1..]) {
        assert forall i :: 0 < i < |values| ==> values[i] == values[1..][i - 1];
        if !kind.Average? {
          Regrouped(acc, values[0].n, Product(values[1..]));
        }
      }
    }
  }

  lemma {:induction false} JoinIs(acc: string, values: seq<Value>)
    ensures FoldTexts(Concat, acc, values) == Text(acc + Joined(values))
    decreases |values|
  {
    if values == [] {
    } else if values[0].Text? {
      assert Joined(values) == values[0].s + Joined(values[1..]);
      JoinIs(acc + values[0].s, values[1..]);
      Rejoined(acc, values[0].s, Joined(values[1..]));
    } else {
      assert Joined(values) == Joined(values[1..]);
      JoinIs(acc, values[1..]);
    }
  }

  lemma {:induction false} FirstText(acc: string, values: seq<Value>, i: nat)
    requires i <= |values| && forall j :: 0 <= j < i ==> !values[j].Text?
    requires i < |values| ==> values[i].Text?
    ensures FoldTexts(Coalesce, acc, values) == if i < |values| then values[i] else Text(acc)
    decreases |values|
  {
    if i > 0 {
      FirstText(acc, values[1..], i - 1);
    }
  }

  /** What the cells of a range show, in order. */
  ghost function CellsOf(sheet: Sheet, rank: Position -> nat, r: RangeRef): (values: seq<Value>)
    requires Ranked(sheet, rank)
    ensures |values| == |r.interval|
    ensures forall i :: 0 <= i < |values| ==> values[i] == Seen(sheet, rank, r.interval[i], ResultOf(r.kind))
  {
    seq(|r.interval|, i requires 0 <= i < |r.interval| => Seen(sheet, rank, r.interval[i], ResultOf(r.kind)))
  }

  lemma SeenAggregate(sheet: Sheet, rank: Position -> nat, p: Position, wanted: Wanted)
    requires Ranked(sheet, rank) && p in sheet && sheet[p].Range?
    ensures var r := sheet[p].ref;
            Seen(sheet, rank, p, wanted) ==
              if wanted == ResultOf(r.kind) then Aggregate(r.kind, CellsOf(sheet, rank, r)) else Null
  {
    var r := sheet[p].ref;
    CellBelow(sheet, rank, p);
    assert RangeValues(sheet, rank, rank(p), r) == CellsOf(sheet, rank, r);
    assert Eval(sheet, rank, p) == Aggregate(r.kind, CellsOf(sheet, rank, r));
    AggregateKind(r.kind, CellsOf(sheet, rank, r));
  }

  /** AVERAGE and PRODUCT have a number exactly if every cell of the range has one: the sum of the cells over their
      number, without its fraction, and the product of the cells. They never have a text. */
  lemma SeenNumbers(sheet: Sheet, rank: Position -> nat, p: Position)
    requires Ranked(sheet, rank) && p in sheet && sheet[p].Range? && sheet[p].ref.interval != []
    requires sheet[p].ref.kind.Average? || sheet[p].ref.kind.Product?
    ensures Seen(sheet, rank, p, AsText) == Null
    ensures var r := sheet[p].ref;
            var v, values := Seen(sheet, rank, p, AsNumber), CellsOf(sheet, rank, r);
            && (v.Number? || v.Null?) && (v.Number? <==> AllNumbers(values))
            && (v.Number? ==>
                  if r.kind.Average? then Truncated(Sum(values), |r.interval|, v.n) else v.n == Product(values))
  {
    var r := sheet[p].ref;
    var values := CellsOf(sheet, rank, r);
    SeenAggregate(sheet, rank, p, AsNumber);
    SeenAggregate(sheet, rank, p, AsText);
    FoldIs(r.kind, StartOf(r.kind), values);
    AggregateKind(r.kind, values);
    if AllNumbers(values) {
      QuotientTruncates(Sum(values), |r.interval|);
    }
    hide Quotient, Truncated, FoldNumbers;
  }

  /** CONCAT joins the texts of its cells in order. */
  lemma SeenConcat(sheet: Sheet, rank: Position -> nat, p: Position)
    requires Ranked(sheet, rank) && p in sheet && sheet[p].Range? && sheet[p].ref.kind.Concat?
    ensures Seen(sheet, rank, p, AsText) == Text(Joined(CellsOf(sheet, rank, sheet[p].ref)))
    ensures Seen(sheet, rank, p, AsNumber) == Null
  {
    SeenAggregate(sheet, rank, p, AsText);
    SeenAggregate(sheet, rank, p, AsNumber);
    JoinIs("", CellsOf(sheet, rank, sheet[p].ref));
  }

  /** COALESCE is the first text of its cells, empty if there is none. */
  lemma SeenCoalesce(sheet: Sheet, rank: Position -> nat, p: Position, i: nat)
    requires Ranked(sheet, rank) && p in sheet && sheet[p].Range? && sheet[p].ref.kind.Coalesce?
    requires i <= |sheet[p].ref.interval|
    requires forall j :: 0 <= j < i ==> Seen(sheet, rank, sheet[p].ref.interval[j], AsText) == Null
    requires i < |sheet[p].ref.interval| ==> Seen(sheet, rank, sheet[p].ref.interval[i], AsText).Text?
    ensures Seen(sheet, rank, p, AsText) ==
              if i < |sheet[p].ref.interval| then Seen(sheet, rank, sheet[p].ref.interval[i], AsText) else Text("")
    ensures Seen(sheet, rank, p, AsNumber) == Null
  {
    SeenAggregate(sheet, rank, p, AsText);
    SeenAggregate(sheet, rank, p, AsNumber);
    FirstText("", CellsOf(sheet, rank, sheet[p].ref), i);
  }
}
