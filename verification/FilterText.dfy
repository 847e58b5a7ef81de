/**
 The text of the rendered bounds: the columns in order, `column>=min` and
 `column<=max` for each, joined by commas. Every SDK has to produce the same text.
 */
module FilterText {
  import opened Seqs
  import opened FilterBounds
  import opened Numerals

  // ---- the order of the columns ------------------------------------------

  /** Names compare character by character; a prefix comes first. */
  predicate Before(a: string, b: string) {
    if b == "" then false else if a == "" then true
    else a[0] < b[0] || (a[0] == b[0] && Before(a[1..], b[1..]))
  }

  lemma {:induction false} BeforeIsOrder(a: string, b: string, c: string)
    ensures !(Before(a, b) && Before(b, a)) && !Before(a, a)
    ensures a != b ==> Before(a, b) || Before(b, a)
    ensures Before(a, b) && Before(b, c) ==> Before(a, c)
    decreases |a|
  {
    if a != "" {
      if b != "" {
        BeforeIsOrder(a[1..], b[1..], if c == "" then "" else c[1..]);
        assert a == [a[0]] + a[1..] && b == [b[0]] + b[1..];
      } else {
        BeforeIsOrder(a[1..], "", "");
      }
    }
  }

  /** `a` is a proper prefix of `b`, or has the smaller character where they first differ. */
  ghost predicate ComesFirst(a: string, b: string) {
    exists k :: 0 <= k <= |a| && k <= |b| && a[..k] == b[..k] && DiffersUp(a, b, k)
  }

  ghost predicate DiffersUp(a: string, b: string, k: nat)
    requires k <= |a| && k <= |b|
  {
    if k == |a| then k < |b| else k < |b| && a[k] < b[k]
  }

  lemma {:induction false} BeforeMeans(a: string, b: string)
    ensures Before(a, b) <==> ComesFirst(a, b)
    decreases |a|
  {
    if a == "" || b == "" {
      if Before(a, b) { assert a[..0] == b[..0] && DiffersUp(a, b, 0); }
    } else {
      BeforeMeans(a[1..], b[1..]);
      if a[0] == b[0] && ComesFirst(a[1..], b[1..]) {
        var k :| 0 <= k <= |a[1..]| && k <= |b[1..]| && a[1..][..k] == b[1..][..k] && DiffersUp(a[1..], b[1..], k);
        assert a[..k+1] == [a[0]] + a[1..][..k] && b[..k+1] == [b[0]] + b[1..][..k];
        assert DiffersUp(a, b, k + 1);
      }
      if a[0] < b[0] { assert a[..0] == b[..0] && DiffersUp(a, b, 0); }
      if ComesFirst(a, b) {
        var k :| 0 <= k <= |a| && k <= |b| && a[..k] == b[..k] && DiffersUp(a, b, k);
        if k > 0 {
          assert a[0] == a[..k][0] == b[..k][0] == b[0];
          assert a[1..][..k-1] == a[..k][1..] && b[1..][..k-1] == b[..k][1..];
          assert DiffersUp(a[1..], b[1..], k - 1);
        }
      }
    }
  }

  ghost predicate Alphabetical(names: seq<string>) {
    forall i, j :: 0 <= i < j < |names| ==> Before(names[i], names[j])
  }

  function Place(names: seq<string>, x: string): seq<string> {
    if names == [] || Before(x, names[0]) then [x] + names else [names[0]] + Place(names[1..], x)
  }

  function SortNames(names: seq<string>): seq<string> {
    if names == [] then [] else Place(SortNames(names[1..]), names[0])
  }

  lemma {:induction false} PlaceFacts(names: seq<string>, x: string)
    requires Alphabetical(names) && x !in names
    ensures Alphabetical(Place(names, x))
    ensures forall y :: y in Place(names, x) <==> y in names || y == x
  {
    if names == [] {
    } else if Before(x, names[0]) {
      forall j | 0 < j < |names| ensures Before(x, names[j]) { BeforeIsOrder(x, names[0], names[j]); }
    } else {
      BeforeIsOrder(x, names[0], x);
      PlaceFacts(names[1..], x);
      assert names == [names[0]] + names[1..];
      var rest := Place(names[1..], x);
      forall j | 0 <= j < |rest| ensures Before(names[0], rest[j]) {
        assert rest[j] in rest;
        if rest[j] != x {
          var k :| 0 <= k < |names[1..]| && names[1..][k] == rest[j];
          assert names[k+1] == rest[j];
        }
      }
    }
  }

  lemma {:induction false} SortNamesFacts(names: seq<string>)
    requires NoRepeats(names)
    ensures Alphabetical(SortNames(names))
    ensures forall y :: y in SortNames(names) <==> y in names
  {
    if names != [] {
      SortNamesFacts(names[1..]);
      assert names == [names[0]] + names[1..];
      PlaceFacts(SortNames(names[1..]), names[0]);
    }
  }

  lemma {:induction false} AlphabeticalUnique(a: seq<string>, b: seq<string>)
    requires Alphabetical(a) && Alphabetical(b) && forall y :: y in a <==> y in b
    ensures a == b
  {
    if b != [] { assert b[0] in b; }
    if a != [] {
      assert a[0] in b;
      var i :| 0 <= i < |b| && b[i] == a[0];
      var j :| 0 <= j < |a| && a[j] == b[0];
      BeforeIsOrder(a[0], b[0], a[0]);
      assert a[0] == b[0];
      forall y ensures y in a[1..] <==> y in b[1..] { OnlyFirst(a, y); OnlyFirst(b, y); }
      AlphabeticalUnique(a[1..], b[1..]);
    }
  }

  lemma OnlyFirst(a: seq<string>, y: string)
    requires a != [] && Alphabetical(a)
    ensures y in a[1..] <==> y in a && y != a[0]
  {
    BeforeIsOrder(a[0], a[0], a[0]);
    assert a == [a[0]] + a[1..];
    if y in a[1..] {
      var k :| 0 <= k < |a[1..]| && a[1..][k] == y;
      assert a[k+1] == y;
    }
  }

  // ---- writing ----------------------------------------------------------

  /** `col>=min` and `col<=max`, as far as they are known. */
  function ColumnParts(c: string, b: Bounds): seq<string> {
    (if b.min.Some? then [c + ">=" + IntText(b.min.value)] else [])
      + (if b.max.Some? then [c + "<=" + IntText(b.max.value)] else [])
  }

  /** The parts of each column in turn. */
  function Parts(columns: seq<string>, m: map<string, Bounds>): seq<string> {
    if columns == [] then []
    else
      var c := columns[0];
      ColumnParts(c, if c in m then m[c] else Bounds(None, None)) + Parts(columns[1..], m)
  }

  function Join(parts: seq<string>): string {
    if parts == [] then "" else if |parts| == 1 then parts[0] else parts[0] + "," + Join(parts[1..])
  }

  function Format(order: seq<string>, m: map<string, Bounds>): string {
    var parts := Parts(SortNames(order), m);
    if parts == [] then "(none)" else Join(parts)
  }

  /** The rendered text. */
  function RenderText(filters: seq<Expr>): string { Format(ColumnsOf([], NotesAll(filters)), Render(filters)) }

  lemma {:induction false} ColumnsFacts(order: seq<string>, notes: seq<Note>)
    requires NoRepeats(order)
    ensures NoRepeats(ColumnsOf(order, notes))
    ensures forall c :: c in ColumnsOf(order, notes) <==> c in order || exists n :: n in notes && n.column == c
    decreases |notes|
  {
    if notes != [] {
      ColumnsFacts(if notes[0].column in order then order else order + [notes[0].column], notes[1..]);
      assert notes == [notes[0]] + notes[1..];
      assert notes[0] in notes;
    }
  }

  /** The rendering depends only on which bounds the walk notes, not on where or how often. */
  lemma RenderDependsOnNotes(a: seq<Expr>, b: seq<Expr>)
    requires forall n :: n in NotesAll(a) <==> n in NotesAll(b)
    ensures Render(a) == Render(b) && RenderText(a) == RenderText(b)
  {
    SameColumns(NotesAll(a), NotesAll(b));
    forall c ensures c in Render(a) <==> c in Render(b) {
      NotedColumns(map[], NotesAll(a), c);
      NotedColumns(map[], NotesAll(b), c);
      if n :| n in NotesAll(a) && n.column == c { assert n in NotesAll(b); }
      if n :| n in NotesAll(b) && n.column == c { assert n in NotesAll(a); }
    }
    forall c | c in Render(a) ensures Render(a)[c] == Render(b)[c] {
      SameSide(a, b, c, Lower);
      SameSide(a, b, c, Upper);
    }
  }

  lemma SameColumns(a: seq<Note>, b: seq<Note>)
    requires forall n :: n in a <==> n in b
    ensures SortNames(ColumnsOf([], a)) == SortNames(ColumnsOf([], b))
  {
    ColumnsFacts([], a);
    ColumnsFacts([], b);
    SortNamesFacts(ColumnsOf([], a));
    SortNamesFacts(ColumnsOf([], b));
    forall c ensures c in ColumnsOf([], a) <==> c in ColumnsOf([], b) {
      if n :| n in a && n.column == c { assert n in b; }
      if n :| n in b && n.column == c { assert n in a; }
    }
    AlphabeticalUnique(SortNames(ColumnsOf([], a)), SortNames(ColumnsOf([], b)));
  }

  lemma SameSide(a: seq<Expr>, b: seq<Expr>, column: string, side: Side)
    requires forall n :: n in NotesAll(a) <==> n in NotesAll(b)
    ensures SideOf(Render(a), column, side) == SideOf(Render(b), column, side)
  {
    AbsorbedBound(map[], NotesAll(a), column, side);
    AbsorbedBound(map[], NotesAll(b), column, side);
    var x, y := SideOf(Render(a), column, side), SideOf(Render(b), column, side);
    if x.Some? { assert Note(column, side, x.value) in NotesAll(b); }
    if y.Some? { assert Note(column, side, y.value) in NotesAll(a); }
  }

  lemma {:induction false} NotedColumns(m: map<string, Bounds>, notes: seq<Note>, c: string)
    ensures c in AbsorbAll(m, notes) <==> c in m || exists n :: n in notes && n.column == c
    decreases |notes|
  {
    if notes != [] {
      NotedColumns(Absorb(m, notes[0]), notes[1..], c);
      assert notes == [notes[0]] + notes[1..];
      assert notes[0] in notes;
    }
  }

  /**
   The rendering is canonical: filter sets with the same leaf predicates render
   alike, however their children are ordered, grouped or repeated.
   */
  lemma RenderingIsCanonical(a: seq<Expr>, b: seq<Expr>)
    requires forall e :: e in LeavesAll(a) <==> e in LeavesAll(b)
    ensures Render(a) == Render(b) && RenderText(a) == RenderText(b)
  {
    AllLeavesKeepNotes(a);
    AllLeavesKeepNotes(b);
    forall n ensures n in NotesAll(a) <==> n in NotesAll(b) {
      NoteHasSource(LeavesAll(a), n);
      NoteHasSource(LeavesAll(b), n);
    }
    RenderDependsOnNotes(a, b);
  }

  // ---- what the text says ------------------------------------------------

  datatype Key = Key(column: string, side: Side)

  /** The part `column>=t` for a lower and `column<=t` for an upper bound, where `t` is the numeral of the bound. */
  ghost predicate Writes(part: string, column: string, side: Side, bound: int) {
    exists t :: ReadInt(t) == Some(bound) && part == column + (match side case Lower => ">=" case Upper => "<=") + t
  }

  /** Columns ascend, and a column's lower bound comes before its upper one. */
  ghost predicate InOrder(keys: seq<Key>) {
    forall i, j :: 0 <= i < j < |keys| ==>
      || ComesFirst(keys[i].column, keys[j].column)
      || (keys[i].column == keys[j].column && keys[i].side == Lower && keys[j].side == Upper)
  }

  /** Part for part, the bounds of the map written out. */
  ghost predicate AllWrite(parts: seq<string>, keys: seq<Key>, m: map<string, Bounds>) {
    && |parts| == |keys|
    && forall i :: 0 <= i < |keys| ==>
      SideOf(m, keys[i].column, keys[i].side).Some?
      && Writes(parts[i], keys[i].column, keys[i].side, SideOf(m, keys[i].column, keys[i].side).value)
  }

  /** There is one part for each bound of the map, in order. */
  ghost predicate Tells(parts: seq<string>, keys: seq<Key>, m: map<string, Bounds>) {
    && InOrder(keys)
    && (forall key: Key :: key in keys <==> SideOf(m, key.column, key.side).Some?)
    && AllWrite(parts, keys, m)
  }

  /** The text is the comma-separated list of those parts, or `(none)`. */
  ghost predicate Says(text: string, m: map<string, Bounds>) {
    exists parts, keys :: Tells(parts, keys, m) && text == if parts == [] then "(none)" else Join(parts)
  }

  lemma {:induction false} JoinAppend(a: seq<string>, b: seq<string>)
    requires a != [] && b != []
    ensures Join(a + b) == Join(a) + "," + Join(b)
  {
    if |a| == 1 {
      assert a + b == [a[0]] + b && (a + b)[1..] == b;
    } else {
      assert (a + b)[1..] == a[1..] + b;
      JoinAppend(a[1..], b);
    }
  }

  function Sides(column: string, m: map<string, Bounds>): seq<Key> {
    (if SideOf(m, column, Lower).Some? then [Key(column, Lower)] else [])
      + (if SideOf(m, column, Upper).Some? then [Key(column, Upper)] else [])
  }

  function SidesOf(columns: seq<string>, m: map<string, Bounds>): seq<Key> {
    if columns == [] then [] else Sides(columns[0], m) + SidesOf(columns[1..], m)
  }

  lemma SidesMembers(column: string, m: map<string, Bounds>, key: Key)
    ensures key in Sides(column, m) <==> key.column == column && SideOf(m, column, key.side).Some?
  {
    var lower := if SideOf(m, column, Lower).Some? then [Key(column, Lower)] else [];
    var upper := if SideOf(m, column, Upper).Some? then [Key(column, Upper)] else [];
    assert key in lower + upper <==> key in lower || key in upper;
  }

  lemma {:induction false} SidesOfMembers(columns: seq<string>, m: map<string, Bounds>, key: Key)
    ensures key in SidesOf(columns, m) <==> key.column in columns && SideOf(m, key.column, key.side).Some?
  {
    hide Sides, SideOf;
    if columns != [] {
      SidesMembers(columns[0], m, key);
      SidesOfMembers(columns[1..], m, key);
      assert columns == [columns[0]] + columns[1..];
    }
  }

  lemma {:induction false} SidesInOrder(columns: seq<string>, m: map<string, Bounds>)
    requires Alphabetical(columns)
    ensures InOrder(SidesOf(columns, m))
  {
    if columns != [] {
      var c, rest := columns[0], SidesOf(columns[1..], m);
      SidesInOrder(columns[1..], m);
      forall i | 0 <= i < |rest| ensures ComesFirst(c, rest[i].column) {
        SidesOfMembers(columns[1..], m, rest[i]);
        assert rest[i] in rest;
        var k :| 0 <= k < |columns[1..]| && columns[1..][k] == rest[i].column;
        assert Before(c, columns[k+1]);
        BeforeMeans(c, rest[i].column);
      }
      hide ComesFirst, SidesOf, Alphabetical;
      AheadInOrder(c, m, rest);
    }
  }

  lemma AheadInOrder(c: string, m: map<string, Bounds>, rest: seq<Key>)
    requires InOrder(rest) && forall i :: 0 <= i < |rest| ==> ComesFirst(c, rest[i].column)
    ensures InOrder(Sides(c, m) + rest)
  {
    hide ComesFirst, SideOf;
  }

  lemma {:induction false} PartsWrite(columns: seq<string>, m: map<string, Bounds>)
    ensures AllWrite(Parts(columns, m), SidesOf(columns, m), m)
  {
    if columns != [] {
      var c := columns[0];
      PartsWrite(columns[1..], m);
      ColumnPartsWrite(c, m);
      hide ColumnParts, Sides, Writes, SideOf;
    }
  }

  lemma ColumnPartsWrite(c: string, m: map<string, Bounds>)
    ensures AllWrite(ColumnParts(c, if c in m then m[c] else Bounds(None, None)), Sides(c, m), m)
  {
    if SideOf(m, c, Lower).Some? { PartWrites(c, Lower, SideOf(m, c, Lower).value); }
    if SideOf(m, c, Upper).Some? { PartWrites(c, Upper, SideOf(m, c, Upper).value); }
    hide Writes;
  }

  lemma PartWrites(c: string, side: Side, v: int)
    ensures side == Lower ==> Writes(c + ">=" + IntText(v), c, side, v)
    ensures side == Upper ==> Writes(c + "<=" + IntText(v), c, side, v)
  {
    ReadIntText(v);
  }

  /** The rendered text says what the bounds are. */
  lemma TextSays(filters: seq<Expr>)
    ensures Says(RenderText(filters), Render(filters))
  {
    var m, order := Render(filters), ColumnsOf([], NotesAll(filters));
    var columns := SortNames(order);
    ColumnsFacts([], NotesAll(filters));
    SortNamesFacts(order);
    SidesInOrder(columns, m);
    PartsWrite(columns, m);
    forall key: Key ensures key in SidesOf(columns, m) <==> SideOf(m, key.column, key.side).Some? {
      SidesOfMembers(columns, m, key);
      NotedColumns(map[], NotesAll(filters), key.column);
    }
    assert Tells(Parts(columns, m), SidesOf(columns, m), m);
  }

  lemma {:induction false} InOrderUnique(a: seq<Key>, b: seq<Key>)
    requires InOrder(a) && InOrder(b) && forall key :: key in a <==> key in b
    ensures a == b
  {
    assert a != [] ==> a[0] in a;
    assert b != [] ==> b[0] in b;
    if a != [] {
      FirstInOrder(a, b[0]);
      FirstInOrder(b, a[0]);
      KeyOrder(a[0], b[0]);
      forall key ensures key in a[1..] <==> key in b[1..] {
        RestInOrder(a, key);
        RestInOrder(b, key);
      }
      InOrderUnique(a[1..], b[1..]);
    }
  }

  ghost predicate KeyBefore(x: Key, y: Key) {
    ComesFirst(x.column, y.column) || (x.column == y.column && x.side == Lower && y.side == Upper)
  }

  lemma FirstInOrder(keys: seq<Key>, x: Key)
    requires InOrder(keys) && x in keys
    ensures x == keys[0] || KeyBefore(keys[0], x)
  {
    hide ComesFirst;
    var i :| 0 <= i < |keys| && keys[i] == x;
  }

  lemma RestInOrder(keys: seq<Key>, x: Key)
    requires keys != [] && InOrder(keys)
    ensures x in keys[1..] <==> x in keys && x != keys[0]
  {
    hide ComesFirst;
    assert keys == [keys[0]] + keys[1..];
    if x in keys[1..] {
      var k :| 0 <= k < |keys[1..]| && keys[1..][k] == x;
      assert KeyBefore(keys[0], keys[k+1]);
      KeyOrder(keys[0], x);
    }
  }

  lemma KeyOrder(x: Key, y: Key)
    ensures !(KeyBefore(x, y) && KeyBefore(y, x))
    ensures KeyBefore(x, y) ==> x != y
  {
    hide ComesFirst, Before;
    BeforeIsOrder(x.column, y.column, x.column);
    BeforeMeans(x.column, y.column);
    BeforeMeans(y.column, x.column);
    BeforeMeans(x.column, x.column);
  }

  lemma SameParts(a: seq<string>, b: seq<string>, keys: seq<Key>, keys': seq<Key>, m: map<string, Bounds>)
    requires Tells(a, keys, m) && Tells(b, keys', m)
    ensures a == b
  {
    hide InOrder, Writes, SideOf;
    InOrderUnique(keys, keys');
    forall i | 0 <= i < |a| ensures a[i] == b[i] {
      OnePart(a[i], b[i], keys[i].column, keys[i].side, SideOf(m, keys[i].column, keys[i].side).value);
    }
  }

  /** Byte for byte: no other text says the same. */
  lemma OnlyText(a: string, b: string, m: map<string, Bounds>)
    requires Says(a, m) && Says(b, m)
    ensures a == b
  {
    hide Tells, Join;
    var parts, keys: seq<Key> :| Tells(parts, keys, m) && a == if parts == [] then "(none)" else Join(parts);
    var parts', keys': seq<Key> :| Tells(parts', keys', m) && b == if parts' == [] then "(none)" else Join(parts');
    SameParts(parts, parts', keys, keys', m);
  }

  lemma OnePart(a: string, b: string, column: string, side: Side, bound: int)
    requires Writes(a, column, side, bound) && Writes(b, column, side, bound)
    ensures a == b
  {
    var sign := match side case Lower => ">=" case Upper => "<=";
    var s :| ReadInt(s) == Some(bound) && a == column + sign + s;
    var t :| ReadInt(t) == Some(bound) && b == column + sign + t;
    ReadIntUnique(s, t);
  }

  /** The text is `(none)` exactly when no side of any column has a bound. */
  lemma NoneIff(text: string, m: map<string, Bounds>)
    requires Says(text, m)
    ensures text == "(none)" <==> forall column, side :: SideOf(m, column, side).None?
  {
    var parts, keys: seq<Key> :| Tells(parts, keys, m) && text == if parts == [] then "(none)" else Join(parts);
    if parts != [] {
      assert keys[0] in keys;
      var c, side := keys[0].column, keys[0].side;
      var t :| parts[0] == c + (match side case Lower => ">=" case Upper => "<=") + t;
      assert parts[0][|c| + 1] == '=';
      assert text[|c| + 1] == '=';
    } else {
      forall column, side ensures SideOf(m, column, side).None? {
        assert Key(column, side) !in keys;
      }
    }
  }

  /** Walk every filter and write out the bounds; `None` when a null literal makes the walk throw. */
  method RenderFilters(filters: seq<Expr>) returns (text: Option<string>)
    ensures text.None? <==>
      exists l :: l in LeavesAll(filters) && l.Compare? && l.left.Column? && l.right == Literal(None)
    ensures text.Some? ==> text.value == RenderText(filters) && Says(text.value, Render(filters))
  {
    TextSays(filters);
    SomeThrowsAtLeaf(filters);
    if filters == [] { return Some("(none)"); }
    var walk := new BoundsWalk();
    var ok := walk.WalkAll(filters);
    if !ok { return None; }
    text := Some(Format(walk.order, walk.bounds));
  }
}
