/**
 Per-column bounds rendered from a pushed-down filter tree, against the
 three-valued meaning of the tree itself.
 */
module FilterBounds {
  import opened Seqs

  datatype Op = EQ | NE | LT | LE | GT | GE | DistinctFrom | NotDistinctFrom

  /** `Other` stands for the node kinds the rendering ignores (casts, arithmetic, calls, ...). */
  datatype Expr =
    | Column(name: string)
    | Literal(value: Option<int>)
    | Compare(op: Op, left: Expr, right: Expr)
    | And(children: seq<Expr>)
    | Or(children: seq<Expr>)
    | Not(inner: Expr)
    | IsNull(inner: Expr, negated: bool)
    | In(inner: Expr, values: seq<Option<int>>, negated: bool)
    | Other(tag: nat)

  datatype Value = Null | Num(n: int) | Bool(b: bool)

  /** A row gives every column a value or null; `others` gives the ignored nodes theirs. */
  datatype Row = Row(columns: string -> Option<int>, others: nat -> Value)

  // ---- meaning -----------------------------------------------------------

  function AsValue(v: Option<int>): Value { if v.Some? then Num(v.value) else Null }

  function AsInt(v: Value): int { match v case Null => 0 case Num(n) => n case Bool(b) => if b then 1 else 0 }

  function Compared(op: Op, a: Value, b: Value): Value {
    if op == DistinctFrom then Bool(a != b)
    else if op == NotDistinctFrom then Bool(a == b)
    else if a.Null? || b.Null? then Null
    else
      var x, y := AsInt(a), AsInt(b);
      Bool(match op
           case EQ => x == y
           case NE => x != y
           case LT => x < y
           case LE => x <= y
           case GT => x > y
           case GE => x >= y)
  }

  function AndKleene(vs: seq<Value>): Value {
    if Bool(false) in vs then Bool(false) else if Null in vs then Null else Bool(true)
  }

  function OrKleene(vs: seq<Value>): Value {
    if Bool(true) in vs then Bool(true) else if Null in vs then Null else Bool(false)
  }

  function Member(input: Value, values: seq<Option<int>>, negated: bool): Value {
    if input.Null? then Null
    else if exists i :: 0 <= i < |values| && values[i].Some? && Num(values[i].value) == input then Bool(!negated)
    else if None in values then Null
    else Bool(negated)
  }

  function Eval(e: Expr, row: Row): Value
    decreases e, 1
  {
    match e
    case Column(name) => AsValue(row.columns(name))
    case Literal(value) => AsValue(value)
    case Compare(op, left, right) => Compared(op, Eval(left, row), Eval(right, row))
    case And(children) => AndKleene(EvalAll(children, row))
    case Or(children) => OrKleene(EvalAll(children, row))
    case Not(inner) => (var v := Eval(inner, row); if v.Bool? then Bool(!v.b) else Null)
    case IsNull(inner, negated) => Bool(Eval(inner, row).Null? != negated)
    case In(inner, values, negated) => Member(Eval(inner, row), values, negated)
    case Other(tag) => row.others(tag)
  }

  function EvalAll(es: seq<Expr>, row: Row): (vs: seq<Value>)
    ensures |vs| == |es|
    ensures forall i :: 0 <= i < |es| ==> vs[i] == Eval(es[i], row)
    decreases es, 0
  {
    if es == [] then [] else [Eval(es[0], row)] + EvalAll(es[1..], row)
  }

  /** A row passes a filter set when every predicate is true, not merely not false. */
  predicate Passes(filters: seq<Expr>, row: Row) {
    forall i :: 0 <= i < |filters| ==> Eval(filters[i], row) == Bool(true)
  }

  // ---- rendering ---------------------------------------------------------

  datatype Side = Lower | Upper

  datatype Note = Note(column: string, side: Side, bound: int)

  datatype Bounds = Bounds(min: Option<int>, max: Option<int>)

  function Widest(b: Bounds, n: Note): Bounds {
    match n.side
    case Lower => b.(min := Some(if b.min.Some? then Min(b.min.value, n.bound) else n.bound))
    case Upper => b.(max := Some(if b.max.Some? then Max(b.max.value, n.bound) else n.bound))
  }

  function Absorb(m: map<string, Bounds>, n: Note): map<string, Bounds> {
    m[n.column := Widest(if n.column in m then m[n.column] else Bounds(None, None), n)]
  }

  function AbsorbAll(m: map<string, Bounds>, notes: seq<Note>): map<string, Bounds>
    decreases |notes|
  {
    if notes == [] then m else AbsorbAll(Absorb(m, notes[0]), notes[1..])
  }

  function CompareNotes(op: Op, column: string, v: int): seq<Note> {
    match op
    case GE => [Note(column, Lower, v)]
    case GT => [Note(column, Lower, v + 1)]
    case LE => [Note(column, Upper, v)]
    case LT => [Note(column, Upper, v - 1)]
    case EQ => [Note(column, Lower, v), Note(column, Upper, v)]
    case NE => []
    case DistinctFrom => []
    case NotDistinctFrom => []
  }

  /** Least and greatest non-null value of an IN set. */
  function Extremes(values: seq<Option<int>>): Bounds {
    if values == [] then Bounds(None, None)
    else
      var b, last := Extremes(values[..|values|-1]), values[|values|-1];
      if last.None? then b
      else Bounds(
        Some(if b.min.None? || last.value < b.min.value then last.value else b.min.value),
        Some(if b.max.None? || last.value > b.max.value then last.value else b.max.value))
  }

  function InNotes(column: string, values: seq<Option<int>>): seq<Note> {
    var b := Extremes(values);
    (if b.min.Some? then [Note(column, Lower, b.min.value)] else [])
      + (if b.max.Some? then [Note(column, Upper, b.max.value)] else [])
  }

  /** The bounds a walk of the tree notes, in order. An IN notes its extremes even when negated. */
  function Notes(e: Expr): seq<Note>
    decreases e, 1
  {
    match e
    case And(children) => NotesAll(children)
    case Or(children) => NotesAll(children)
    case Compare(op, Column(name), Literal(Some(v))) => CompareNotes(op, name, v)
    case In(Column(name), values, _) => InNotes(name, values)
    case _ => []
  }

  function NotesAll(es: seq<Expr>): seq<Note>
    decreases es, 0
  {
    if es == [] then [] else Notes(es[0]) + NotesAll(es[1..])
  }

  /** A column compared with a null literal makes the rendering throw. */
  predicate Throws(e: Expr)
    decreases e
  {
    match e
    case And(children) => exists i :: 0 <= i < |children| && Throws(children[i])
    case Or(children) => exists i :: 0 <= i < |children| && Throws(children[i])
    case Compare(_, Column(_), Literal(None)) => true
    case _ => false
  }

  /** The columns in the order in which they are first noted, after those of `order`. */
  function ColumnsOf(order: seq<string>, notes: seq<Note>): seq<string>
    decreases |notes|
  {
    if notes == [] then order
    else ColumnsOf(if notes[0].column in order then order else order + [notes[0].column], notes[1..])
  }

  /** The walk itself, widening an insertion-ordered map of bounds as it goes. */
  class BoundsWalk {
    var bounds: map<string, Bounds>
    var order: seq<string>

    ghost predicate Valid() reads this { forall c :: c in order <==> c in bounds }

    constructor ()
      ensures Valid() && bounds == map[] && order == []
    {
      bounds, order := map[], [];
    }

    method NoteBound(n: Note)
      requires Valid()
      modifies this
      ensures Valid() && bounds == Absorb(old(bounds), n) && order == ColumnsOf(old(order), [n])
    {
      assert [n][1..] == [];
      var b := if n.column in bounds then bounds[n.column] else Bounds(None, None);
      if n.column !in bounds { order := order + [n.column]; }
      bounds := bounds[n.column := Widest(b, n)];
    }

    method NoteEach(notes: seq<Note>)
      requires Valid()
      modifies this
      ensures Valid() && bounds == AbsorbAll(old(bounds), notes) && order == ColumnsOf(old(order), notes)
    {
      for i := 0 to |notes|
        invariant Valid()
        invariant AbsorbAll(bounds, notes[i..]) == AbsorbAll(old(bounds), notes)
        invariant ColumnsOf(order, notes[i..]) == ColumnsOf(old(order), notes)
      {
        ColumnsAppend(order, [notes[i]], notes[i+1..]);
        assert [notes[i]] + notes[i+1..] == notes[i..];
        assert notes[i..][1..] == notes[i+1..];
        NoteBound(notes[i]);
      }
    }

    method Walk(e: Expr) returns (ok: bool)
      requires Valid()
      modifies this
      ensures Valid() && (ok <==> !Throws(e))
      ensures ok ==> bounds == AbsorbAll(old(bounds), Notes(e)) && order == ColumnsOf(old(order), Notes(e))
      decreases e, 1
    {
      match e {
        case And(children) => ok := WalkAll(children);
        case Or(children) => ok := WalkAll(children);
        case Compare(op, Column(name), Literal(None)) => return false;
        case Compare(op, Column(name), Literal(Some(v))) =>
          NoteEach(CompareNotes(op, name, v));
          return true;
        case In(Column(name), values, _) =>
          var b := WalkSet(values);
          if b.min.Some? { NoteBound(Note(name, Lower, b.min.value)); }
          if b.max.Some? { NoteBound(Note(name, Upper, b.max.value)); }
          AbsorbSet(old(bounds), name, values);
          return true;
        case _ => return true;
      }
    }

    method WalkAll(es: seq<Expr>) returns (ok: bool)
      requires Valid()
      modifies this
      ensures Valid() && (ok <==> forall i :: 0 <= i < |es| ==> !Throws(es[i]))
      ensures ok ==> bounds == AbsorbAll(old(bounds), NotesAll(es)) && order == ColumnsOf(old(order), NotesAll(es))
      decreases es, 0
    {
      for i := 0 to |es|
        invariant Valid()
        invariant ColumnsOf(order, NotesAll(es[i..])) == ColumnsOf(old(order), NotesAll(es))
        invariant forall k :: 0 <= k < i ==> !Throws(es[k])
        invariant AbsorbAll(bounds, NotesAll(es[i..])) == AbsorbAll(old(bounds), NotesAll(es))
      {
        assert es[i..][1..] == es[i+1..];
        AbsorbAppend(bounds, Notes(es[i]), NotesAll(es[i+1..]));
        ColumnsAppend(order, Notes(es[i]), NotesAll(es[i+1..]));
        ok := Walk(es[i]);
        if !ok { return false; }
      }
      ok := true;
    }
  }

  lemma {:induction false} ColumnsAppend(order: seq<string>, a: seq<Note>, b: seq<Note>)
    ensures ColumnsOf(order, a + b) == ColumnsOf(ColumnsOf(order, a), b)
    decreases |a|
  {
    if a == [] {
      assert a + b == b;
    } else {
      assert (a + b)[1..] == a[1..] + b;
      ColumnsAppend(if a[0].column in order then order else order + [a[0].column], a[1..], b);
    }
  }

  method WalkSet(values: seq<Option<int>>) returns (b: Bounds)
    ensures b == Extremes(values)
  {
    b := Bounds(None, None);
    for i := 0 to |values|
      invariant b == Extremes(values[..i])
    {
      assert values[..i+1][..i] == values[..i];
      if values[i].None? { continue; }
      var v := values[i].value;
      var lo := if b.min.None? || v < b.min.value then Some(v) else b.min;
      var hi := if b.max.None? || v > b.max.value then Some(v) else b.max;
      b := Bounds(lo, hi);
    }
    assert values[..|values|] == values;
  }

  lemma AbsorbSet(m: map<string, Bounds>, name: string, values: seq<Option<int>>)
    ensures var b := Extremes(values);
      var m1 := if b.min.Some? then Absorb(m, Note(name, Lower, b.min.value)) else m;
      AbsorbAll(m, InNotes(name, values)) == if b.max.Some? then Absorb(m1, Note(name, Upper, b.max.value)) else m1
  {
    var b := Extremes(values);
    var lo := if b.min.Some? then [Note(name, Lower, b.min.value)] else [];
    var hi := if b.max.Some? then [Note(name, Upper, b.max.value)] else [];
    AbsorbAppend(m, lo, hi);
  }

  lemma {:induction false} AbsorbAppend(m: map<string, Bounds>, a: seq<Note>, b: seq<Note>)
    ensures AbsorbAll(m, a + b) == AbsorbAll(AbsorbAll(m, a), b)
    decreases |a|
  {
    if a == [] {
      assert a + b == b;
    } else {
      assert (a + b)[1..] == a[1..] + b;
      AbsorbAppend(Absorb(m, a[0]), a[1..], b);
    }
  }

  // ---- what the map holds ------------------------------------------------

  function SideOf(m: map<string, Bounds>, column: string, side: Side): Option<int> {
    if column !in m then None else match side case Lower => m[column].min case Upper => m[column].max
  }

  /** `a` is at least as wide a bound as `b` on this side. */
  predicate Wider(side: Side, a: int, b: int) { match side case Lower => a <= b case Upper => a >= b }

  /** After absorbing, a side's bound is the widest of the old one and the notes for it. */
  ghost predicate IsWidest(m: map<string, Bounds>, notes: seq<Note>, column: string, side: Side, r: Option<int>) {
    var start := SideOf(m, column, side);
    && (r.Some? ==> r == start || Note(column, side, r.value) in notes)
    && (start.Some? ==> r.Some? && Wider(side, r.value, start.value))
    && forall n :: n in notes && n.column == column && n.side == side ==> r.Some? && Wider(side, r.value, n.bound)
  }

  lemma {:induction false} AbsorbedBound(m: map<string, Bounds>, notes: seq<Note>, column: string, side: Side)
    ensures IsWidest(m, notes, column, side, SideOf(AbsorbAll(m, notes), column, side))
    decreases |notes|
  {
    if notes != [] {
      var m' := Absorb(m, notes[0]);
      AbsorbedBound(m', notes[1..], column, side);
      assert notes == [notes[0]] + notes[1..];
    }
  }

  function Render(filters: seq<Expr>): map<string, Bounds> { AbsorbAll(map[], NotesAll(filters)) }

  // ---- soundness ---------------------------------------------------------

  /** Some AND child, or every OR child, bounds the column on this side. */
  predicate Guarded(e: Expr, column: string, side: Side)
    decreases e
  {
    match e
    case And(children) => exists i :: 0 <= i < |children| && Guarded(children[i], column, side)
    case Or(children) => forall i :: 0 <= i < |children| ==> Guarded(children[i], column, side)
    case Compare(op, Column(name), Literal(Some(_))) =>
      name == column && (op == EQ || (if side == Lower then op == GE || op == GT else op == LE || op == LT))
    case In(Column(name), _, negated) => name == column && !negated
    case _ => false
  }

  ghost predicate Within(n: Note, row: Row) {
    row.columns(n.column).Some? && Wider(n.side, n.bound, row.columns(n.column).value)
  }

  lemma {:induction false} ExtremesBound(values: seq<Option<int>>, v: int)
    requires Some(v) in values
    ensures var b := Extremes(values); b.min.Some? && b.max.Some? && b.min.value <= v <= b.max.value
  {
    var init := values[..|values|-1];
    if values[|values|-1] != Some(v) {
      var i :| 0 <= i < |values| && values[i] == Some(v);
      assert init[i] == Some(v);
      ExtremesBound(init, v);
    } else if Extremes(init).min.Some? {
      ExtremesPaired(init);
    }
  }

  lemma {:induction false} ExtremesPaired(values: seq<Option<int>>)
    ensures var b := Extremes(values); b.min.Some? <==> b.max.Some?
    ensures var b := Extremes(values); b.min.Some? ==> b.min.value <= b.max.value
    ensures var b := Extremes(values); b.min.Some? ==> b.min in values && b.max in values
  {
    if values != [] {
      var init := values[..|values|-1];
      ExtremesPaired(init);
      assert values == init + [values[|values|-1]];
    }
  }

  /** A true guarded filter noted some bound that the row respects. */
  lemma {:induction false} GuardWitness(e: Expr, row: Row, column: string, side: Side) returns (n: Note)
    requires Guarded(e, column, side) && Eval(e, row) == Bool(true)
    ensures n in Notes(e) && n.column == column && n.side == side && Within(n, row)
    decreases e
  {
    match e
    case And(children) =>
      var i :| 0 <= i < |children| && Guarded(children[i], column, side);
      assert EvalAll(children, row)[i] == Eval(children[i], row);
      n := GuardWitness(children[i], row, column, side);
      NotesMember(children, i, n);
    case Or(children) =>
      var i :| 0 <= i < |children| && EvalAll(children, row)[i] == Bool(true);
      n := GuardWitness(children[i], row, column, side);
      NotesMember(children, i, n);
    case Compare(op, Column(name), Literal(Some(v))) =>
      n := Note(name, side, if op == GT then v + 1 else if op == LT then v - 1 else v);
    case In(Column(name), values, _) =>
      var v := row.columns(name).value;
      assert Some(v) in values;
      ExtremesBound(values, v);
      var b := Extremes(values);
      n := Note(name, side, if side == Lower then b.min.value else b.max.value);
  }

  lemma {:induction false} NotesMember(es: seq<Expr>, i: nat, n: Note)
    requires i < |es| && n in Notes(es[i])
    ensures n in NotesAll(es)
  {
    if i > 0 { NotesMember(es[1..], i - 1, n); }
  }

  /**
   Wherever some filter guards a column's side, the rendering has a bound there
   and every row that passes the filters lies within it.
   */
  lemma GuardedBoundsAreSound(filters: seq<Expr>, row: Row, k: nat, column: string, side: Side)
    requires Passes(filters, row) && k < |filters| && Guarded(filters[k], column, side)
    ensures row.columns(column).Some?
    ensures SideOf(Render(filters), column, side).Some?
    ensures Wider(side, SideOf(Render(filters), column, side).value, row.columns(column).value)
  {
    var n := GuardWitness(filters[k], row, column, side);
    NotesMember(filters, k, n);
    AbsorbedBound(map[], NotesAll(filters), column, side);
  }

  /** A rendered bound is sound when no passing row lies outside it. */
  ghost predicate SoundAt(filters: seq<Expr>, column: string, side: Side) {
    forall row :: Passes(filters, row) && SideOf(Render(filters), column, side).Some? ==>
      row.columns(column).Some? && Wider(side, SideOf(Render(filters), column, side).value, row.columns(column).value)
  }

  /**
   The rendering of one IN predicate is sound exactly when the predicate is not
   negated, or its set has a null (so NOT IN is never true) or no value at all.
   */
  lemma InSoundIff(column: string, values: seq<Option<int>>, negated: bool, side: Side)
    ensures SoundAt([In(Column(column), values, negated)], column, side)
      <==> !negated || None in values || Extremes(values).min.None?
  {
    var e := In(Column(column), values, negated);
    var filters := [e];
    assert NotesAll(filters) == Notes(e) + NotesAll([]);
    AbsorbedBound(map[], NotesAll(filters), column, side);
    ExtremesPaired(values);
    if !negated {
      forall row | Passes(filters, row) && SideOf(Render(filters), column, side).Some?
        ensures row.columns(column).Some?
        ensures Wider(side, SideOf(Render(filters), column, side).value, row.columns(column).value)
      {
        GuardedBoundsAreSound(filters, row, 0, column, side);
      }
    } else if None in values {
      forall row ensures !Passes(filters, row) { assert Eval(filters[0], row) != Bool(true); }
    } else if Extremes(values).min.Some? {
      NegatedEscapes(column, values, side);
    }
  }

  /** One more than the greatest value, or one less than the least, passes a NOT IN. */
  lemma NegatedEscapes(column: string, values: seq<Option<int>>, side: Side)
    requires None !in values && Extremes(values).min.Some?
    ensures !SoundAt([In(Column(column), values, true)], column, side)
  {
    var e := In(Column(column), values, true);
    ExtremesPaired(values);
    var b := Extremes(values);
    var outside := if side == Lower then b.min.value - 1 else b.max.value + 1;
    var row := Row((c: string) => Some(outside), (t: nat) => Null);
    forall i | 0 <= i < |values| ensures values[i] != Some(outside) {
      if values[i].Some? { ExtremesBound(values, values[i].value); }
    }
    assert Eval(e, row) == Bool(true);
    assert NotesAll([e]) == Notes(e) + NotesAll([]);
    AbsorbedBound(map[], NotesAll([e]), column, side);
    var n := Note(column, side, if side == Lower then b.min.value else b.max.value);
    assert n in NotesAll([e]);
    assert Passes([e], row);
  }

  /** A predicate on one column, with a value of its own, that some non-null value of the column makes true. */
  predicate ColumnTest(e: Expr) {
    match e
    case Compare(op, Column(_), Literal(Some(_))) => op != NotDistinctFrom
    case In(Column(_), values, negated) => if negated then None !in values else Extremes(values).min.Some?
    case _ => false
  }

  /** The walk notes a bound for the column on this side. */
  predicate Noted(e: Expr, column: string, side: Side) {
    exists i :: 0 <= i < |Notes(e)| && Notes(e)[i].column == column && Notes(e)[i].side == side
  }

  function ColumnOf(e: Expr): string
    requires ColumnTest(e)
  {
    if e.Compare? then e.left.name else e.inner.name
  }

  /** A value that makes a column test true. */
  function Passing(e: Expr): (v: int)
    requires ColumnTest(e)
  {
    match e
    case Compare(op, _, Literal(Some(v))) =>
      if op == LT then v - 1 else if op == EQ || op == LE || op == GE then v else v + 1
    case In(_, values, negated) =>
      var b := Extremes(values);
      if b.min.None? then 0 else if negated then b.max.value + 1 else b.min.value
  }

  lemma PassingPasses(e: Expr, row: Row)
    requires ColumnTest(e) && row.columns(ColumnOf(e)) == Some(Passing(e))
    ensures Eval(e, row) == Bool(true)
  {
    if e.In? {
      ExtremesPaired(e.values);
      forall i | 0 <= i < |e.values| && e.values[i].Some?
        ensures Extremes(e.values).min.Some?
        ensures Extremes(e.values).min.value <= e.values[i].value <= Extremes(e.values).max.value
      {
        ExtremesBound(e.values, e.values[i].value);
      }
    }
  }

  /** A column test that does not guard its own column's side passes values arbitrarily far out on it. */
  lemma FarOutPasses(e: Expr, row: Row, side: Side, far: int)
    requires ColumnTest(e) && !Guarded(e, ColumnOf(e), side) && row.columns(ColumnOf(e)) == Some(far)
    requires e.Compare? ==> if side == Lower then far < e.right.value.value else far > e.right.value.value
    requires e.In? && Extremes(e.values).min.Some? ==>
      if side == Lower then far < Extremes(e.values).min.value else far > Extremes(e.values).max.value
    ensures Eval(e, row) == Bool(true)
  {
    if e.In? {
      ExtremesPaired(e.values);
      forall i | 0 <= i < |e.values| && e.values[i].Some? ensures e.values[i].value != far {
        ExtremesBound(e.values, e.values[i].value);
      }
    }
  }

  /** Further out than `bound` and than every value the test mentions. */
  function FarOut(e: Expr, side: Side, bound: int): int
    requires ColumnTest(e)
  {
    var b := if e.Compare? then Bounds(e.right.value, e.right.value) else Extremes(e.values);
    match side
    case Lower => Min(bound, if b.min.Some? then b.min.value else bound) - 1
    case Upper => Max(bound, if b.max.Some? then b.max.value else bound) + 1
  }

  /** Whatever the bound, some row passes an unguarded test and lies outside it. */
  lemma UnguardedEscapes(e: Expr, column: string, side: Side, bound: int) returns (row: Row)
    requires ColumnTest(e) && !Guarded(e, column, side)
    ensures Eval(e, row) == Bool(true)
    ensures row.columns(column).Some? && !Wider(side, bound, row.columns(column).value)
  {
    var out := FarOut(e, side, bound);
    if ColumnOf(e) == column {
      row := Row((c: string) => Some(out), (t: nat) => Null);
      if e.In? { ExtremesPaired(e.values); }
      FarOutPasses(e, row, side, out);
    } else {
      var v := Passing(e);
      row := Row((c: string) => Some(if c == column then out else v), (t: nat) => Null);
      PassingPasses(e, row);
    }
  }

  /**
   The rendering of an OR of column tests is sound exactly when no branch notes a
   bound there, or every branch guards it. One unguarded branch is enough to let
   rows out of the bound the others note.
   */
  lemma OrSoundIff(es: seq<Expr>, column: string, side: Side)
    requires forall i :: 0 <= i < |es| ==> ColumnTest(es[i])
    ensures SoundAt([Or(es)], column, side) <==>
      || (forall i :: 0 <= i < |es| ==> !Noted(es[i], column, side))
      || (forall i :: 0 <= i < |es| ==> Guarded(es[i], column, side))
  {
    var filters := [Or(es)];
    assert NotesAll(filters) == Notes(Or(es)) + NotesAll([]);
    assert NotesAll(filters) == NotesAll(es);
    AbsorbedBound(map[], NotesAll(filters), column, side);
    var bound := SideOf(Render(filters), column, side);
    if forall i :: 0 <= i < |es| ==> !Noted(es[i], column, side) {
      NothingNoted(es, column, side);
      assert bound.None?;
    } else if forall i :: 0 <= i < |es| ==> Guarded(es[i], column, side) {
      forall row | Passes(filters, row) && bound.Some?
        ensures row.columns(column).Some? && Wider(side, bound.value, row.columns(column).value)
      {
        GuardedBoundsAreSound(filters, row, 0, column, side);
      }
    } else {
      var i :| 0 <= i < |es| && Noted(es[i], column, side);
      var k :| 0 <= k < |Notes(es[i])| && Notes(es[i])[k].column == column && Notes(es[i])[k].side == side;
      NotesMember(es, i, Notes(es[i])[k]);
      var j :| 0 <= j < |es| && !Guarded(es[j], column, side);
      var row := UnguardedEscapes(es[j], column, side, bound.value);
      assert EvalAll(es, row)[j] == Bool(true);
      assert Passes(filters, row);
    }
  }

  lemma NothingNoted(es: seq<Expr>, column: string, side: Side)
    requires forall i :: 0 <= i < |es| ==> !Noted(es[i], column, side)
    ensures forall n :: n in NotesAll(es) ==> n.column != column || n.side != side
  {
    forall n | n in NotesAll(es) ensures n.column != column || n.side != side {
      NoteHasSource(es, n);
      var e :| e in es && n in Notes(e);
      var i :| 0 <= i < |es| && es[i] == e;
      var k :| 0 <= k < |Notes(e)| && Notes(e)[k] == n;
      assert !Noted(es[i], column, side);
    }
  }

  // ---- mixed trees -------------------------------------------------------

  /** `out` lies beyond every value the test mentions. */
  predicate Beyond(e: Expr, side: Side, out: int)
    requires ColumnTest(e)
  {
    var b := if e.Compare? then Bounds(e.right.value, e.right.value) else Extremes(e.values);
    match side
    case Lower => b.min.Some? ==> out < b.min.value
    case Upper => b.max.Some? ==> out > b.max.value
  }

  /** Further out than `bound` and than every value the tests mention. */
  function FarthestOut(tests: seq<Expr>, side: Side, bound: int): int
    requires forall i :: 0 <= i < |tests| ==> ColumnTest(tests[i])
  {
    if tests == [] then (if side == Lower then bound - 1 else bound + 1)
    else FarOut(tests[0], side, FarthestOut(tests[1..], side, bound))
  }

  lemma {:induction false} FarthestIsBeyond(tests: seq<Expr>, side: Side, bound: int)
    requires forall i :: 0 <= i < |tests| ==> ColumnTest(tests[i])
    ensures forall i :: 0 <= i < |tests| ==> Beyond(tests[i], side, FarthestOut(tests, side, bound))
    ensures !Wider(side, bound, FarthestOut(tests, side, bound))
  {
    if tests != [] {
      var out := FarthestOut(tests, side, bound);
      FarthestIsBeyond(tests[1..], side, bound);
      if tests[0].In? { ExtremesPaired(tests[0].values); }
      forall i | 0 <= i < |tests| ensures Beyond(tests[i], side, out) {
        if i > 0 { assert Beyond(tests[1..][i-1], side, FarthestOut(tests[1..], side, bound)); }
      }
    }
  }

  /** In `row` the test holds, or it is on the column in question, whose value lies beyond all it mentions. */
  ghost predicate HoldsOrBeyond(e: Expr, row: Row, column: string, side: Side) {
    && ColumnTest(e)
    && (ColumnOf(e) != column ==> Eval(e, row) == Bool(true))
    && (ColumnOf(e) == column ==> row.columns(column).Some? && Beyond(e, side, row.columns(column).value))
  }

  /** Then every tree over such tests that does not guard the column's side holds in `row`. */
  lemma {:induction false} UnguardedHolds(e: Expr, row: Row, column: string, side: Side)
    requires forall l :: l in Leaves(e) ==> HoldsOrBeyond(l, row, column, side)
    requires !Guarded(e, column, side)
    ensures Eval(e, row) == Bool(true)
    decreases e
  {
    if e.And? || e.Or? {
      forall i | 0 <= i < |e.children| && !Guarded(e.children[i], column, side)
        ensures EvalAll(e.children, row)[i] == Bool(true)
      {
        LeavesOfChild(e.children, i);
        UnguardedHolds(e.children[i], row, column, side);
      }
    } else {
      assert e in Leaves(e);
      if ColumnOf(e) == column {
        if e.In? { ExtremesPaired(e.values); }
        FarOutPasses(e, row, side, row.columns(column).value);
      }
    }
  }

  lemma {:induction false} LeavesOfChild(es: seq<Expr>, i: nat)
    requires i < |es|
    ensures forall l :: l in Leaves(es[i]) ==> l in LeavesAll(es)
  {
    if i > 0 { LeavesOfChild(es[1..], i - 1); }
  }

  /** A column test depends on its own column only. */
  lemma TestIsLocal(e: Expr, a: Row, b: Row)
    requires ColumnTest(e) && a.columns(ColumnOf(e)) == b.columns(ColumnOf(e))
    ensures Eval(e, a) == Eval(e, b)
  {
  }

  function With(row: Row, column: string, v: int): Row {
    row.(columns := (c: string) => if c == column then Some(v) else row.columns(c))
  }

  /** Whatever the bound, filters that do not guard a side let some row out beyond it. */
  lemma UnguardedFiltersEscape(filters: seq<Expr>, column: string, side: Side, bound: int, sample: Row)
      returns (row: Row)
    requires forall l :: l in LeavesAll(filters) ==>
      ColumnTest(l) && (ColumnOf(l) != column ==> Eval(l, sample) == Bool(true))
    requires forall i :: 0 <= i < |filters| ==> !Guarded(filters[i], column, side)
    ensures Passes(filters, row)
    ensures row.columns(column).Some? && !Wider(side, bound, row.columns(column).value)
  {
    var tests := LeavesAll(filters);
    var out := FarthestOut(tests, side, bound);
    FarthestIsBeyond(tests, side, bound);
    row := With(sample, column, out);
    forall l | l in tests ensures HoldsOrBeyond(l, row, column, side) {
      if ColumnOf(l) != column { TestIsLocal(l, row, sample); }
    }
    forall i | 0 <= i < |filters| ensures Eval(filters[i], row) == Bool(true) {
      LeavesOfChild(filters, i);
      UnguardedHolds(filters[i], row, column, side);
    }
  }

  /**
   The rendering of any AND/OR nesting of column tests, whose tests on other columns
   hold together in some row, is sound exactly when no test notes a bound there or
   some filter guards it.
   */
  lemma TreesSoundIff(filters: seq<Expr>, column: string, side: Side, sample: Row)
    requires forall l :: l in LeavesAll(filters) ==>
      ColumnTest(l) && (ColumnOf(l) != column ==> Eval(l, sample) == Bool(true))
    ensures SoundAt(filters, column, side) <==>
      || (forall l :: l in LeavesAll(filters) ==> !Noted(l, column, side))
      || (exists i :: 0 <= i < |filters| && Guarded(filters[i], column, side))
  {
    AbsorbedBound(map[], NotesAll(filters), column, side);
    NotedByLeaf(filters, column, side);
    var bound := SideOf(Render(filters), column, side);
    if i :| 0 <= i < |filters| && Guarded(filters[i], column, side) {
      forall row | Passes(filters, row) && bound.Some?
        ensures row.columns(column).Some? && Wider(side, bound.value, row.columns(column).value)
      {
        GuardedBoundsAreSound(filters, row, i, column, side);
      }
    } else if bound.Some? {
      var row := UnguardedFiltersEscape(filters, column, side, bound.value, sample);
    }
  }

  lemma NotedByLeaf(filters: seq<Expr>, column: string, side: Side)
    ensures (exists n :: n in NotesAll(filters) && n.column == column && n.side == side)
      <==> (exists l :: l in LeavesAll(filters) && Noted(l, column, side))
  {
    AllLeavesKeepNotes(filters);
    if n :| n in NotesAll(filters) && n.column == column && n.side == side {
      NoteHasSource(LeavesAll(filters), n);
      var l :| l in LeavesAll(filters) && n in Notes(l);
      assert Noted(l, column, side);
    }
    if l :| l in LeavesAll(filters) && Noted(l, column, side) {
      var k :| 0 <= k < |Notes(l)| && Notes(l)[k].column == column && Notes(l)[k].side == side;
      NoteHasSource(LeavesAll(filters), Notes(l)[k]);
    }
  }

  /** A value for each column that the first test on it passes. */
  function FirstPassing(tests: seq<Expr>, column: string): int
    requires forall i :: 0 <= i < |tests| ==> ColumnTest(tests[i])
  {
    if tests == [] then 0
    else if ColumnOf(tests[0]) == column then Passing(tests[0]) else FirstPassing(tests[1..], column)
  }

  lemma {:induction false} OnlyTestPasses(tests: seq<Expr>, i: nat)
    requires forall j :: 0 <= j < |tests| ==> ColumnTest(tests[j])
    requires i < |tests|
    requires forall j :: 0 <= j < |tests| && ColumnOf(tests[j]) == ColumnOf(tests[i]) ==> tests[j] == tests[i]
    ensures FirstPassing(tests, ColumnOf(tests[i])) == Passing(tests[i])
  {
    if i > 0 && ColumnOf(tests[0]) != ColumnOf(tests[i]) { OnlyTestPasses(tests[1..], i - 1); }
  }

  /** In particular where every other column has one test. */
  lemma OneTestPerColumnSoundIff(filters: seq<Expr>, column: string, side: Side)
    requires forall l :: l in LeavesAll(filters) ==> ColumnTest(l)
    requires forall l, m :: l in LeavesAll(filters) && m in LeavesAll(filters) ==>
      ColumnOf(l) == column || ColumnOf(m) != ColumnOf(l) || l == m
    ensures SoundAt(filters, column, side) <==>
      || (forall l :: l in LeavesAll(filters) ==> !Noted(l, column, side))
      || (exists i :: 0 <= i < |filters| && Guarded(filters[i], column, side))
  {
    var tests := LeavesAll(filters);
    var columns := (c: string) =>
      if forall i :: 0 <= i < |tests| ==> ColumnTest(tests[i]) then Some(FirstPassing(tests, c)) else None;
    var sample := Row(columns, (t: nat) => Null);
    forall l | l in tests && ColumnOf(l) != column ensures Eval(l, sample) == Bool(true) {
      var i :| 0 <= i < |tests| && tests[i] == l;
      OnlyTestPasses(tests, i);
      PassingPasses(l, sample);
    }
    TreesSoundIff(filters, column, side, sample);
  }

  /** For example `a >= 5 OR b >= 3`. */
  lemma UnguardedOrIsUnsound()
    ensures !SoundAt([Or([Compare(GE, Column("a"), Literal(Some(5))), Compare(GE, Column("b"), Literal(Some(3)))])],
                     "a", Lower)
  {
    var a, b := Compare(GE, Column("a"), Literal(Some(5))), Compare(GE, Column("b"), Literal(Some(3)));
    OrSoundIff([a, b], "a", Lower);
    assert "a"[0] != "b"[0];
    assert Notes(a)[0] == Note("a", Lower, 5) && [a, b][0] == a && [a, b][1] == b;
    assert Noted([a, b][0], "a", Lower) && !Guarded([a, b][1], "a", Lower);
  }

  // ---- the tests of a tree -----------------------------------------------

  lemma {:induction false} NotesAllAppend(a: seq<Expr>, b: seq<Expr>)
    ensures NotesAll(a + b) == NotesAll(a) + NotesAll(b)
  {
    if a == [] {
      assert a + b == b;
    } else {
      assert (a + b)[1..] == a[1..] + b;
      NotesAllAppend(a[1..], b);
    }
  }

  /** The predicates at the ends of the AND/OR nesting. */
  function Leaves(e: Expr): seq<Expr>
    decreases e, 1
  {
    if e.And? || e.Or? then LeavesAll(e.children) else [e]
  }

  function LeavesAll(es: seq<Expr>): seq<Expr>
    decreases es, 0
  {
    if es == [] then [] else Leaves(es[0]) + LeavesAll(es[1..])
  }

  lemma {:induction false} LeavesKeepNotes(e: Expr)
    ensures NotesAll(Leaves(e)) == Notes(e)
    decreases e, 1
  {
    if e.And? || e.Or? {
      AllLeavesKeepNotes(e.children);
    } else {
      assert [e][1..] == [];
    }
  }

  lemma {:induction false} AllLeavesKeepNotes(es: seq<Expr>)
    ensures NotesAll(LeavesAll(es)) == NotesAll(es)
    decreases es, 0
  {
    if es != [] {
      LeavesKeepNotes(es[0]);
      AllLeavesKeepNotes(es[1..]);
      NotesAllAppend(Leaves(es[0]), LeavesAll(es[1..]));
    }
  }

  lemma {:induction false} NoteHasSource(es: seq<Expr>, n: Note)
    ensures n in NotesAll(es) <==> exists e :: e in es && n in Notes(e)
  {
    if es != [] {
      NoteHasSource(es[1..], n);
      assert es == [es[0]] + es[1..];
      assert es[0] in es;
    }
  }

  ghost predicate NullTestIn(leaves: seq<Expr>) {
    exists l :: l in leaves && l.Compare? && l.left.Column? && l.right == Literal(None)
  }

  lemma {:induction false} ThrowsAtLeaf(e: Expr)
    ensures Throws(e) <==> NullTestIn(Leaves(e))
    decreases e, 1
  {
    if e.And? || e.Or? { SomeThrowsAtLeaf(e.children); }
  }

  /** The walk throws exactly when a test somewhere in the trees compares a column with null. */
  lemma {:induction false} SomeThrowsAtLeaf(es: seq<Expr>)
    ensures (exists i :: 0 <= i < |es| && Throws(es[i])) <==> NullTestIn(LeavesAll(es))
    decreases es, 0
  {
    if es != [] {
      ThrowsAtLeaf(es[0]);
      SomeThrowsAtLeaf(es[1..]);
      if i :| 0 <= i < |es| && Throws(es[i]) && i > 0 { assert Throws(es[1..][i-1]); }
    }
  }

  // ---- tightness ---------------------------------------------------------

  /** The test, with a negated IN taken for the plain one. */
  function Plain(e: Expr): Expr { if e.In? then e.(negated := false) else e }

  /** Every row with exactly this value passes, and every row that passes lies within it. */
  ghost predicate IsExtreme(e: Expr, column: string, side: Side, bound: int) {
    && (forall row :: Eval(e, row) == Bool(true) ==> Within(Note(column, side, bound), row))
    && forall row :: Within(Note(column, side, bound), row) && row.columns(column).value == bound ==>
      Eval(e, row) == Bool(true)
  }

  lemma CompareNotesExtreme(op: Op, column: string, v: int, n: Note)
    requires n in CompareNotes(op, column, v)
    ensures IsExtreme(Compare(op, Column(column), Literal(Some(v))), n.column, n.side, n.bound)
  {
  }

  lemma InNotesExtreme(column: string, values: seq<Option<int>>, n: Note)
    requires n in InNotes(column, values)
    ensures IsExtreme(In(Column(column), values, false), n.column, n.side, n.bound)
  {
    ExtremesPaired(values);
    assert Some(n.bound) in values;
    forall row: Row | Member(AsValue(row.columns(column)), values, false) == Bool(true) ensures Within(n, row) {
      assert row.columns(column) in values;
      ExtremesBound(values, row.columns(column).value);
    }
  }

  lemma {:induction false} LeavesAreTests(e: Expr)
    ensures forall l :: l in Leaves(e) ==> !l.And? && !l.Or?
    decreases e, 1
  {
    if e.And? || e.Or? { AllLeavesAreTests(e.children); }
  }

  lemma {:induction false} AllLeavesAreTests(es: seq<Expr>)
    ensures forall l :: l in LeavesAll(es) ==> !l.And? && !l.Or?
    decreases es, 0
  {
    if es != [] {
      LeavesAreTests(es[0]);
      AllLeavesAreTests(es[1..]);
    }
  }

  /** Nothing is lost in a bound: each one is the least or the greatest value that passes some test of the tree. */
  lemma BoundIsExtreme(filters: seq<Expr>, column: string, side: Side) returns (e: Expr)
    requires SideOf(Render(filters), column, side).Some?
    ensures e in LeavesAll(filters)
    ensures IsExtreme(Plain(e), column, side, SideOf(Render(filters), column, side).value)
  {
    var n := Note(column, side, SideOf(Render(filters), column, side).value);
    AbsorbedBound(map[], NotesAll(filters), column, side);
    AllLeavesKeepNotes(filters);
    NoteHasSource(LeavesAll(filters), n);
    e :| e in LeavesAll(filters) && n in Notes(e);
    AllLeavesAreTests(filters);
    match e
    case Compare(op, Column(name), Literal(Some(v))) => CompareNotesExtreme(op, name, v, n);
    case In(Column(name), values, _) => InNotesExtreme(name, values, n);
  }
}
