/**
 The `nest_tensor` aggregate: rows of (coordinates, value) become a dense nested
 list over the sorted distinct values of each axis, however the rows were batched
 and combined.
 */
module NestTensor {
  import opened Seqs

  datatype Nested<+T> = Leaf(value: T) | Node(items: seq<Nested<T>>)

  /** An accepted row: its coordinates, one per axis, and its possibly null value. */
  datatype Row = Row(coords: seq<int>, value: Option<int>)

  /** A raw input row: a null axes struct is skipped, a null coordinate is an error. */
  datatype Input = NullAxes | Axes(coords: seq<Option<int>>, value: Option<int>)

  datatype Dense = Dense(tensor: Nested<Option<int>>, axes: seq<seq<int>>)

  // ---- accumulating ------------------------------------------------------

  predicate HasNull(row: Input) { row.Axes? && None in row.coords }

  predicate NoNulls(batch: seq<Input>) {
    forall i :: 0 <= i < |batch| ==> !HasNull(batch[i])
  }

  ghost predicate NoDuplicates(batch: seq<Input>) {
    forall i, j :: 0 <= i < j < |batch| && batch[i].Axes? && batch[j].Axes? ==> batch[i].coords != batch[j].coords
  }

  /** A batch the aggregate accepts: no null coordinate, and no coordinate tuple twice. */
  ghost predicate Clean(batch: seq<Input>) { NoNulls(batch) && NoDuplicates(batch) }

  /** These are the input's coordinates, axis by axis. */
  ghost predicate Names(x: Input, coords: seq<int>) {
    x.Axes? && |x.coords| == |coords| && forall a :: 0 <= a < |coords| ==> x.coords[a] == Some(coords[a])
  }

  /** The row holds the input: the same coordinates and the same value. */
  ghost predicate Holds(row: Row, x: Input) { Names(x, row.coords) && x.value == row.value }

  /** The rows hold the inputs in order, null axes left out. */
  ghost predicate Lists(rows: seq<Row>, batch: seq<Input>) {
    if batch == [] then rows == []
    else if batch[0].NullAxes? then Lists(rows, batch[1..])
    else rows != [] && Holds(rows[0], batch[0]) && Lists(rows[1..], batch[1..])
  }

  function Values(cs: seq<Option<int>>): (vs: seq<int>)
    ensures |vs| == |cs| && forall a :: 0 <= a < |cs| && cs[a].Some? ==> cs[a] == Some(vs[a])
  {
    Map(cs, (c: Option<int>) => if c.Some? then c.value else 0)
  }

  /** The rows a batch contributes, in order. */
  function Parsed(batch: seq<Input>): seq<Row> {
    if batch == [] then []
    else (if batch[0].NullAxes? then [] else [Row(Values(batch[0].coords), batch[0].value)]) + Parsed(batch[1..])
  }

  lemma {:induction false} ParsedAppend(a: seq<Input>, b: seq<Input>)
    ensures Parsed(a + b) == Parsed(a) + Parsed(b)
  {
    if a == [] {
      assert a + b == b;
    } else {
      assert (a + b)[1..] == a[1..] + b;
      ParsedAppend(a[1..], b);
    }
  }

  ghost predicate DistinctCoords(rows: seq<Row>) {
    forall i, j :: 0 <= i < j < |rows| ==> rows[i].coords != rows[j].coords
  }

  lemma {:induction false} ParsedLists(batch: seq<Input>)
    requires NoNulls(batch)
    ensures Lists(Parsed(batch), batch)
  {
    if batch != [] {
      assert !HasNull(batch[0]);
      ParsedLists(batch[1..]);
      if batch[0].Axes? {
        assert Holds(Row(Values(batch[0].coords), batch[0].value), batch[0]);
        assert Parsed(batch)[1..] == Parsed(batch[1..]);
      } else {
        assert Parsed(batch) == Parsed(batch[1..]);
      }
    }
  }

  lemma {:induction false} RowHasInput(rows: seq<Row>, batch: seq<Input>, k: nat) returns (i: nat)
    requires Lists(rows, batch) && k < |rows|
    ensures i < |batch| && Holds(rows[k], batch[i])
  {
    if batch[0].Axes? && k == 0 { return 0; }
    i := RowHasInput(if batch[0].Axes? then rows[1..] else rows, batch[1..], if batch[0].Axes? then k - 1 else k);
    i := i + 1;
  }

  lemma {:induction false} InputHasRow(rows: seq<Row>, batch: seq<Input>, i: nat) returns (k: nat)
    requires Lists(rows, batch) && i < |batch| && batch[i].Axes?
    ensures k < |rows| && Holds(rows[k], batch[i])
  {
    if i == 0 { return 0; }
    k := InputHasRow(if batch[0].Axes? then rows[1..] else rows, batch[1..], i - 1);
    k := if batch[0].Axes? then k + 1 else k;
  }

  lemma SameCoords(row: Row, x: Input, other: Row, y: Input)
    requires Holds(row, x) && Holds(other, y)
    ensures row.coords == other.coords <==> x.coords == y.coords
  {
    if row.coords == other.coords { assert x.coords == y.coords; }
    if x.coords == y.coords {
      forall a | 0 <= a < |row.coords| ensures row.coords[a] == other.coords[a] {
        assert x.coords[a] == y.coords[a];
      }
    }
  }

  lemma {:induction false} ListsDistinct(rows: seq<Row>, batch: seq<Input>)
    requires Lists(rows, batch)
    ensures DistinctCoords(rows) <==> NoDuplicates(batch)
  {
    if batch != [] {
      assert batch == [batch[0]] + batch[1..];
      if batch[0].NullAxes? {
        ListsDistinct(rows, batch[1..]);
      } else {
        assert rows == [rows[0]] + rows[1..];
        ListsDistinct(rows[1..], batch[1..]);
        if DistinctCoords(rows) { FirstInputOnce(rows, batch); }
        if NoDuplicates(batch) { FirstRowOnce(rows, batch); }
      }
    }
  }

  lemma FirstInputOnce(rows: seq<Row>, batch: seq<Input>)
    requires Lists(rows, batch) && batch != [] && batch[0].Axes? && DistinctCoords(rows)
    ensures forall j :: 0 < j < |batch| && batch[j].Axes? ==> batch[0].coords != batch[j].coords
  {
    forall j | 0 < j < |batch| && batch[j].Axes? ensures batch[0].coords != batch[j].coords {
      var k := InputHasRow(rows[1..], batch[1..], j - 1);
      SameCoords(rows[0], batch[0], rows[k+1], batch[j]);
    }
  }

  lemma FirstRowOnce(rows: seq<Row>, batch: seq<Input>)
    requires Lists(rows, batch) && batch != [] && batch[0].Axes? && NoDuplicates(batch)
    ensures forall k :: 0 < k < |rows| ==> rows[0].coords != rows[k].coords
  {
    forall k | 0 < k < |rows| ensures rows[0].coords != rows[k].coords {
      var i := RowHasInput(rows[1..], batch[1..], k - 1);
      SameCoords(rows[0], batch[0], rows[k], batch[i+1]);
    }
  }

  lemma CleanRows(batch: seq<Input>)
    requires NoNulls(batch)
    ensures Lists(Parsed(batch), batch)
    ensures Clean(batch) <==> DistinctCoords(Parsed(batch))
  {
    ParsedLists(batch);
    ListsDistinct(Parsed(batch), batch);
  }

  /** Fold one batch into a group's rows, refusing null coordinates and repeats within the batch. */
  method Update(state: seq<Row>, batch: seq<Input>) returns (r: Result<seq<Row>>)
    ensures r.Ok? <==> Clean(batch)
    ensures r.Ok? ==> r.value == state + Parsed(batch) && Lists(Parsed(batch), batch)
  {
    hide Folded, HasNull;
    if NoNulls(batch) { CleanRows(batch); }
    var rows := state;
    var seen: set<seq<int>> := {};
    StartFolded(state);
    for i := 0 to |batch|
      invariant Folded(state, batch[..i], rows, seen)
    {
      var x := batch[i];
      assert batch[..i+1] == batch[..i] + [x];
      if x.NullAxes? {
        FoldedNull(state, batch[..i], rows, seen);
        continue;
      }
      if HasNull(x) { return Err("null coord value"); }
      var row := Row(Values(x.coords), x.value);
      if row.coords in seen {
        SeenFails(state, batch, i, rows, seen);
        return Err("duplicate coordinate");
      }
      FoldedRow(state, batch[..i], rows, seen, x);
      seen := seen + {row.coords};
      rows := rows + [row];
    }
    assert batch[..|batch|] == batch;
    AllFoldedIn(state, batch, rows, seen);
    r := Ok(rows);
  }

  /** `done` has been folded into `state` without complaint. */
  ghost predicate Folded(state: seq<Row>, done: seq<Input>, rows: seq<Row>, seen: set<seq<int>>) {
    && NoNulls(done) && DistinctCoords(Parsed(done))
    && rows == state + Parsed(done)
    && forall c :: c in seen <==> HasCoords(Parsed(done), c)
  }

  lemma StartFolded(state: seq<Row>)
    ensures Folded(state, [], state, {})
  {
    assert state + [] == state;
  }

  lemma FoldedNull(before: seq<Row>, done: seq<Input>, rows: seq<Row>, seen: set<seq<int>>)
    requires Folded(before, done, rows, seen)
    ensures Folded(before, done + [NullAxes], rows, seen)
  {
    ParsedAppend(done, [NullAxes]);
    assert Parsed([NullAxes]) == [] + Parsed([]);
    assert Parsed(done) + [] == Parsed(done);
  }

  lemma FoldedRow(before: seq<Row>, done: seq<Input>, rows: seq<Row>, seen: set<seq<int>>, input: Input)
    requires Folded(before, done, rows, seen) && input.Axes? && !HasNull(input) && Values(input.coords) !in seen
    ensures var row := Row(Values(input.coords), input.value);
      Folded(before, done + [input], rows + [row], seen + {row.coords})
  {
    var row := Row(Values(input.coords), input.value);
    ParsedAppend(done, [input]);
    assert Parsed([input]) == [row] + Parsed([]) == [row];
    assert Parsed(done + [input]) == Parsed(done) + [row];
    AddRow(Parsed(done), row);
    Assoc(before, Parsed(done), [row]);
  }

  lemma SeenFails(before: seq<Row>, batch: seq<Input>, i: nat, rows: seq<Row>, seen: set<seq<int>>)
    requires i < |batch| && Folded(before, batch[..i], rows, seen)
    requires batch[i].Axes? && Values(batch[i].coords) in seen
    ensures !Clean(batch)
  {
    RepeatStays(batch, i, Values(batch[i].coords));
    if NoNulls(batch) { CleanRows(batch); }
  }

  lemma AllFoldedIn(before: seq<Row>, batch: seq<Input>, rows: seq<Row>, seen: set<seq<int>>)
    requires Folded(before, batch, rows, seen)
    ensures Clean(batch) && rows == before + Parsed(batch)
  {
    CleanRows(batch);
  }

  lemma AddRow(rows: seq<Row>, row: Row)
    requires DistinctCoords(rows) && !HasCoords(rows, row.coords)
    ensures DistinctCoords(rows + [row])
    ensures forall c :: HasCoords(rows + [row], c) <==> HasCoords(rows, c) || c == row.coords
  {
    forall c ensures HasCoords(rows + [row], c) <==> HasCoords(rows, c) || c == row.coords {
      if HasCoords(rows, c) {
        var i :| 0 <= i < |rows| && rows[i].coords == c;
        assert (rows + [row])[i].coords == c;
      }
      if c == row.coords { assert (rows + [row])[|rows|].coords == c; }
    }
  }

  ghost predicate HasCoords(rows: seq<Row>, c: seq<int>) {
    exists i :: 0 <= i < |rows| && rows[i].coords == c
  }

  lemma RepeatStays(batch: seq<Input>, i: nat, coords: seq<int>)
    requires i < |batch| && batch[i].Axes? && Values(batch[i].coords) == coords
    requires HasCoords(Parsed(batch[..i]), coords)
    ensures !DistinctCoords(Parsed(batch))
  {
    assert batch == batch[..i] + ([batch[i]] + batch[i+1..]);
    ParsedAppend(batch[..i], [batch[i]] + batch[i+1..]);
    ParsedAppend([batch[i]], batch[i+1..]);
    var n := |Parsed(batch[..i])|;
    var j :| 0 <= j < n && Parsed(batch[..i])[j].coords == coords;
    assert Parsed(batch)[j].coords == coords && Parsed(batch)[n].coords == coords;
  }

  /** How a group's state came about: any mixture of updates and combines. */
  datatype Plan =
    | Initial
    | Updated(from: Plan, batch: seq<Input>)
    | Combined(src: Plan, tgt: Plan)

  /** Every input row of a plan, in the order its state holds them (target before source). */
  function Inputs(p: Plan): seq<Input> {
    match p
    case Initial => []
    case Updated(from, batch) => Inputs(from) + batch
    case Combined(src, tgt) => Inputs(tgt) + Inputs(src)
  }

  ghost predicate Accepts(p: Plan) {
    match p
    case Initial => true
    case Updated(from, batch) => Accepts(from) && Clean(batch)
    case Combined(src, tgt) => Accepts(src) && Accepts(tgt)
  }

  /** Run a plan. */
  method Accumulate(p: Plan) returns (r: Result<seq<Row>>)
    ensures r.Ok? <==> Accepts(p)
    ensures r.Ok? ==> r.value == Parsed(Inputs(p)) && Lists(r.value, Inputs(p))
    decreases p
  {
    match p {
      case Initial =>
        r := Ok([]);
      case Updated(from, batch) =>
        r := Accumulate(from);
        ParsedAppend(Inputs(from), batch);
        if r.Ok? { r := Update(r.value, batch); }
      case Combined(src, tgt) =>
        var s := Accumulate(src);
        r := Accumulate(tgt);
        ParsedAppend(Inputs(tgt), Inputs(src));
        if s.Err? { return s; }
        if r.Ok? { r := Ok(r.value + s.value); }
    }
    if r.Ok? {
      AcceptedHasNoNulls(p);
      ParsedLists(Inputs(p));
    }
  }

  /** A refused plan has a null or repeated coordinate among its inputs. */
  lemma {:induction false} CleanInputsAccepted(p: Plan)
    requires Clean(Inputs(p))
    ensures Accepts(p)
  {
    match p
    case Initial =>
    case Updated(from, batch) =>
      SplitClean(Inputs(from), batch);
      CleanInputsAccepted(from);
    case Combined(src, tgt) =>
      SplitClean(Inputs(tgt), Inputs(src));
      CleanInputsAccepted(src);
      CleanInputsAccepted(tgt);
  }

  lemma SplitClean(a: seq<Input>, b: seq<Input>)
    requires Clean(a + b)
    ensures Clean(a) && Clean(b)
  {
    assert a == (a + b)[..|a|] && b == (a + b)[|a|..];
  }

  lemma {:induction false} AcceptedHasNoNulls(p: Plan)
    requires Accepts(p)
    ensures NoNulls(Inputs(p))
  {
    match p
    case Initial =>
    case Updated(from, batch) => AcceptedHasNoNulls(from);
    case Combined(src, tgt) =>
      AcceptedHasNoNulls(src);
      AcceptedHasNoNulls(tgt);
  }

  // ---- the reference -----------------------------------------------------

  ghost predicate Wide(rows: seq<Row>, d: nat) {
    forall i :: 0 <= i < |rows| ==> |rows[i].coords| == d
  }

  /** Strictly ascending, holding exactly the values axis `a` takes. */
  ghost predicate IsAxis(axis: seq<int>, rows: seq<Row>, a: nat)
    requires forall i :: 0 <= i < |rows| ==> a < |rows[i].coords|
  {
    && Ascending(axis)
    && forall v :: v in axis <==> exists i :: 0 <= i < |rows| && rows[i].coords[a] == v
  }

  ghost predicate Ascending(s: seq<int>) {
    forall i, j :: 0 <= i < j < |s| ==> s[i] < s[j]
  }

  ghost predicate AreAxes(axes: seq<seq<int>>, rows: seq<Row>, d: nat)
    requires Wide(rows, d)
  {
    |axes| == d && forall a :: 0 <= a < d ==> IsAxis(axes[a], rows, a)
  }

  /** The value a row gives these coordinates, null if no row does. */
  function Lookup(rows: seq<Row>, c: seq<int>): Option<int> {
    if rows == [] then None
    else if rows[|rows|-1].coords == c then rows[|rows|-1].value
    else Lookup(rows[..|rows|-1], c)
  }

  function Has(rows: seq<Row>, c: seq<int>): bool {
    if rows == [] then false
    else rows[|rows|-1].coords == c || Has(rows[..|rows|-1], c)
  }

  lemma {:induction false} HasMeans(rows: seq<Row>, c: seq<int>)
    ensures Has(rows, c) <==> HasCoords(rows, c)
  {
    if rows != [] {
      var n := |rows| - 1;
      HasMeans(rows[..n], c);
      if HasCoords(rows[..n], c) {
        var i :| 0 <= i < n && rows[..n][i].coords == c;
        assert rows[i].coords == c;
      }
      if HasCoords(rows, c) && rows[n].coords != c {
        var i :| 0 <= i < |rows| && rows[i].coords == c;
        assert rows[..n][i].coords == c;
      }
    }
  }

  lemma {:induction false} LookupMeans(rows: seq<Row>, i: nat)
    requires DistinctCoords(rows) && i < |rows|
    ensures Lookup(rows, rows[i].coords) == rows[i].value
  {
    var n := |rows| - 1;
    if i < n {
      LookupMeans(rows[..n], i);
      assert rows[..n][i] == rows[i];
    }
  }

  lemma {:induction false} LookupAbsent(rows: seq<Row>, c: seq<int>)
    requires !HasCoords(rows, c)
    ensures Lookup(rows, c) == None
  {
    if rows != [] {
      var n := |rows| - 1;
      forall i | 0 <= i < n ensures rows[..n][i].coords != c {
        assert rows[i].coords != c;
      }
      LookupAbsent(rows[..n], c);
    }
  }

  /** The dense nested list over `axes` whose cell at each coordinate tuple is `f` of it. */
  function Fill<T>(axes: seq<seq<int>>, f: seq<int> -> T, prefix: seq<int>): Nested<T>
    decreases |axes|
  {
    if axes == [] then Leaf(f(prefix))
    else Node(seq(|axes[0]|, i requires 0 <= i < |axes[0]| => Fill(axes[1..], f, prefix + [axes[0][i]])))
  }

  function Product(shape: seq<nat>): nat {
    if shape == [] then 1 else shape[0] * Product(shape[1..])
  }

  function Shape(axes: seq<seq<int>>): seq<nat> { Map(axes, (a: seq<int>) => |a|) }

  lemma {:induction false} FillExt<T>(axes: seq<seq<int>>, f: seq<int> -> T, g: seq<int> -> T, prefix: seq<int>)
    requires forall c :: |c| == |prefix| + |axes| && prefix <= c ==> f(c) == g(c)
    ensures Fill(axes, f, prefix) == Fill(axes, g, prefix)
    decreases |axes|
  {
    if axes != [] {
      forall i | 0 <= i < |axes[0]|
        ensures Fill(axes[1..], f, prefix + [axes[0][i]]) == Fill(axes[1..], g, prefix + [axes[0][i]])
      {
        FillExt(axes[1..], f, g, prefix + [axes[0][i]]);
      }
    }
  }

  // ---- building in place -------------------------------------------------

  function MakeNested<T>(shape: seq<nat>, fill: T): Nested<T> {
    if shape == [] then Leaf(fill)
    else Node(seq(shape[0], i requires 0 <= i < shape[0] => MakeNested(shape[1..], fill)))
  }

  lemma {:induction false} MakeIsFill<T>(axes: seq<seq<int>>, fill: T, prefix: seq<int>)
    ensures MakeNested(Shape(axes), fill) == Fill(axes, c => fill, prefix)
    decreases |axes|
  {
    if axes != [] {
      assert Shape(axes)[1..] == Shape(axes[1..]);
      forall i | 0 <= i < |axes[0]|
        ensures MakeNested(Shape(axes[1..]), fill) == Fill(axes[1..], c => fill, prefix + [axes[0][i]])
      {
        MakeIsFill(axes[1..], fill, prefix + [axes[0][i]]);
      }
    }
  }

  ghost predicate Within(idx: seq<nat>, axes: seq<seq<int>>) {
    |idx| == |axes| && forall a :: 0 <= a < |idx| ==> idx[a] < |axes[a]|
  }

  /** The coordinates at an index tuple. */
  function At(axes: seq<seq<int>>, idx: seq<nat>): seq<int>
    requires Within(idx, axes)
  {
    seq(|idx|, a requires 0 <= a < |idx| => axes[a][idx[a]])
  }

  lemma AtStep(axes: seq<seq<int>>, idx: seq<nat>)
    requires Within(idx, axes) && idx != []
    ensures Within(idx[1..], axes[1..])
    ensures At(axes, idx) == [axes[0][idx[0]]] + At(axes[1..], idx[1..])
  {
  }

  ghost predicate Shaped<T>(t: Nested<T>, shape: seq<nat>)
    decreases |shape|
  {
    if shape == [] then t.Leaf?
    else t.Node? && |t.items| == shape[0] && forall i :: 0 <= i < |t.items| ==> Shaped(t.items[i], shape[1..])
  }

  /** Follow an index tuple down the nesting; running off the structure gives null. */
  function IndexNested<T>(t: Nested<T>, idx: seq<nat>): Option<T>
    decreases |idx|
  {
    if idx == [] then (if t.Leaf? then Some(t.value) else None)
    else if t.Node? && idx[0] < |t.items| then IndexNested(t.items[idx[0]], idx[1..])
    else None
  }

  function Put<T>(t: Nested<T>, idx: seq<nat>, v: T): Nested<T>
    decreases |idx|
  {
    if idx == [] then Leaf(v)
    else if t.Node? && idx[0] < |t.items| then Node(t.items[idx[0] := Put(t.items[idx[0]], idx[1..], v)])
    else t
  }

  lemma {:induction false} IndexFill<T>(axes: seq<seq<int>>, f: seq<int> -> T, prefix: seq<int>, idx: seq<nat>)
    requires Within(idx, axes)
    ensures IndexNested(Fill(axes, f, prefix), idx) == Some(f(prefix + At(axes, idx)))
    decreases |axes|
  {
    if idx == [] {
      assert prefix + At(axes, idx) == prefix;
    } else {
      AtStep(axes, idx);
      var p := prefix + [axes[0][idx[0]]];
      IndexFill(axes[1..], f, p, idx[1..]);
      assert p + At(axes[1..], idx[1..]) == prefix + At(axes, idx);
    }
  }

  /** Writing one cell changes the filled function at exactly that cell's coordinates. */
  lemma {:induction false} PutFill<T>(
      axes: seq<seq<int>>, f: seq<int> -> T, g: seq<int> -> T, prefix: seq<int>, idx: seq<nat>, v: T)
    requires Within(idx, axes) && forall a :: 0 <= a < |axes| ==> Ascending(axes[a])
    requires g(prefix + At(axes, idx)) == v
    requires forall c :: c != prefix + At(axes, idx) ==> g(c) == f(c)
    ensures Put(Fill(axes, f, prefix), idx, v) == Fill(axes, g, prefix)
    decreases |axes|
  {
    if idx == [] {
      assert prefix + At(axes, idx) == prefix;
    } else {
      AtStep(axes, idx);
      var target := prefix + At(axes, idx);
      var k := idx[0];
      assert prefix + [axes[0][k]] + At(axes[1..], idx[1..]) == target;
      PutFill(axes[1..], f, g, prefix + [axes[0][k]], idx[1..], v);
      forall i | 0 <= i < |axes[0]| && i != k
        ensures Fill(axes[1..], f, prefix + [axes[0][i]]) == Fill(axes[1..], g, prefix + [axes[0][i]])
      {
        var p := prefix + [axes[0][i]];
        assert p[|prefix|] != target[|prefix|];
        FillExt(axes[1..], f, g, p);
      }
      var whole := Fill(axes, f, prefix);
      assert Put(whole, idx, v).items == Fill(axes, g, prefix).items;
    }
  }

  // ---- axes --------------------------------------------------------------

  function Id(x: int): int { x }

  /** First appearances, in order. */
  function Dedup(s: seq<int>): seq<int> {
    if s == [] then []
    else
      var d, last := Dedup(s[..|s|-1]), s[|s|-1];
      if last in d then d else d + [last]
  }

  function Column(rows: seq<Row>, a: nat): seq<int>
    requires forall i :: 0 <= i < |rows| ==> a < |rows[i].coords|
  {
    seq(|rows|, i requires 0 <= i < |rows| => rows[i].coords[a])
  }

  function AxisOf(rows: seq<Row>, a: nat): seq<int>
    requires forall i :: 0 <= i < |rows| ==> a < |rows[i].coords|
  {
    StableSort(Dedup(Column(rows, a)), Id)
  }

  ghost function AxesOf(rows: seq<Row>, d: nat): seq<seq<int>>
    requires Wide(rows, d)
  {
    seq(d, a requires 0 <= a < d => AxisOf(rows, a))
  }

  lemma {:induction false} DedupFacts(s: seq<int>)
    ensures forall i, j :: 0 <= i < j < |Dedup(s)| ==> Dedup(s)[i] != Dedup(s)[j]
    ensures forall v :: v in Dedup(s) <==> v in s
  {
    if s != [] {
      DedupFacts(s[..|s|-1]);
      assert s == s[..|s|-1] + [s[|s|-1]];
    }
  }

  lemma SortedDistinctAscends(s: seq<int>)
    requires forall i, j :: 0 <= i < j < |s| ==> s[i] != s[j]
    ensures Ascending(StableSort(s, Id))
    ensures forall v :: v in StableSort(s, Id) <==> v in s
  {
    var t := StableSort(s, Id);
    StableSortFacts(s, Id);
    forall v ensures v in t <==> v in s {
      assert v in multiset(t) <==> v in multiset(s);
    }
    forall i, j | 0 <= i < j < |t| ensures t[i] < t[j] {
      assert Id(t[i]) <= Id(t[j]);
      if t[i] == t[j] {
        TwiceCounts(t, i, j);
        OnceCounts(s, t[i]);
        assert false;
      }
    }
  }

  lemma TwiceCounts(s: seq<int>, i: nat, j: nat)
    requires i < j < |s| && s[i] == s[j]
    ensures multiset(s)[s[i]] >= 2
  {
    assert s == s[..i] + [s[i]] + s[i+1..j] + [s[j]] + s[j+1..];
  }

  lemma {:induction false} OnceCounts(s: seq<int>, v: int)
    requires forall i, j :: 0 <= i < j < |s| ==> s[i] != s[j]
    ensures multiset(s)[v] <= 1
  {
    if s != [] {
      assert s == [s[0]] + s[1..];
      OnceCounts(s[1..], v);
      if v == s[0] { assert v !in s[1..]; }
    }
  }

  /** The computed axis is the one the reference describes, and there is only one such. */
  lemma AxisIsAxis(rows: seq<Row>, a: nat)
    requires forall i :: 0 <= i < |rows| ==> a < |rows[i].coords|
    ensures IsAxis(AxisOf(rows, a), rows, a)
  {
    var col := Column(rows, a);
    DedupFacts(col);
    SortedDistinctAscends(Dedup(col));
    forall v ensures v in AxisOf(rows, a) <==> exists i :: 0 <= i < |rows| && rows[i].coords[a] == v {
      assert v in AxisOf(rows, a) <==> v in col;
      if i :| 0 <= i < |rows| && rows[i].coords[a] == v { assert col[i] == v; }
      if v in col {
        var i :| 0 <= i < |col| && col[i] == v;
        assert rows[i].coords[a] == v;
      }
    }
  }

  lemma {:induction false} AscendingUnique(a: seq<int>, b: seq<int>)
    requires Ascending(a) && Ascending(b) && forall v :: v in a <==> v in b
    ensures a == b
  {
    assert a != [] ==> a[0] in a;
    assert b != [] ==> b[0] in b;
    if a != [] {
      assert a[0] == b[0];
      forall v ensures v in a[1..] <==> v in b[1..] {
        assert v in a[1..] <==> v in a && v != a[0];
        assert v in b[1..] <==> v in b && v != b[0];
      }
      AscendingUnique(a[1..], b[1..]);
    }
  }

  method DistinctSorted(rows: seq<Row>, a: nat) returns (axis: seq<int>)
    requires forall i :: 0 <= i < |rows| ==> a < |rows[i].coords|
    ensures axis == AxisOf(rows, a)
    ensures IsAxis(axis, rows, a)
  {
    var distinct := [];
    var col := Column(rows, a);
    for i := 0 to |rows|
      invariant distinct == Dedup(col[..i])
    {
      var v := rows[i].coords[a];
      assert col[..i+1][..i] == col[..i];
      if v !in distinct { distinct := distinct + [v]; }
    }
    assert col[..|rows|] == col;
    axis := StableSort(distinct, Id);
    AxisIsAxis(rows, a);
  }

  // ---- finalize ----------------------------------------------------------

  function CellFn(rows: seq<Row>): seq<int> -> Option<int> { c => Lookup(rows, c) }

  function HasFn(rows: seq<Row>): seq<int> -> bool { c => Has(rows, c) }

  /** What a group's rows denote. */
  ghost function Reference(rows: seq<Row>, d: nat): Dense
    requires Wide(rows, d)
  {
    Dense(Fill(AxesOf(rows, d), CellFn(rows), []), AxesOf(rows, d))
  }

  ghost function CellCount(rows: seq<Row>, d: nat): nat
    requires Wide(rows, d)
  {
    Product(Shape(AxesOf(rows, d)))
  }

  function Position(axis: seq<int>, v: int): (i: nat)
    requires v in axis
    ensures i < |axis| && axis[i] == v
  {
    if axis[0] == v then 0 else 1 + Position(axis[1..], v)
  }

  lemma {:induction false} ProductFold(shape: seq<nat>, n: nat)
    requires n < |shape|
    ensures Product(shape[..n+1]) == Product(shape[..n]) * shape[n]
  {
    if n == 0 {
      assert shape[..1] == [shape[0]] && shape[..0] == [] && [shape[0]][1..] == [];
    } else {
      ProductFold(shape[1..], n - 1);
      assert shape[..n+1][1..] == shape[1..][..n] && shape[..n][1..] == shape[1..][..n-1];
      var p, q := Product(shape[1..][..n-1]), shape[n];
      assert shape[0] * (p * q) == (shape[0] * p) * q;
    }
  }

  /** The index tuple of one row. */
  method Locate(axes: seq<seq<int>>, rows: seq<Row>, d: nat, r: nat) returns (idx: seq<nat>)
    requires Wide(rows, d) && AreAxes(axes, rows, d) && r < |rows|
    ensures Within(idx, axes) && At(axes, idx) == rows[r].coords
  {
    idx := [];
    for a := 0 to d
      invariant |idx| == a
      invariant forall k :: 0 <= k < a ==> idx[k] < |axes[k]| && axes[k][idx[k]] == rows[r].coords[k]
    {
      assert IsAxis(axes[a], rows, a);
      idx := idx + [Position(axes[a], rows[r].coords[a])];
    }
  }

  method MakeAxes(rows: seq<Row>, d: nat) returns (axes: seq<seq<int>>)
    requires Wide(rows, d)
    ensures axes == AxesOf(rows, d) && AreAxes(axes, rows, d)
  {
    axes := [];
    for a := 0 to d
      invariant |axes| == a
      invariant forall k :: 0 <= k < a ==> axes[k] == AxisOf(rows, k) && IsAxis(axes[k], rows, k)
    {
      var axis := DistinctSorted(rows, a);
      axes := axes + [axis];
    }
  }

  method CountCells(shape: seq<nat>) returns (total: nat)
    ensures total == Product(shape)
  {
    total := 1;
    for i := 0 to |shape|
      invariant total == Product(shape[..i])
    {
      ProductFold(shape, i);
      total := total * shape[i];
    }
    assert shape[..|shape|] == shape;
  }

  /** Build the tensor, or refuse a repeated coordinate or an oversized product. */
  method Finalize(rows: seq<Row>, d: nat, cap: nat) returns (r: Result<Dense>)
    requires Wide(rows, d) && d > 0 && cap > 0
    ensures r.Ok? <==> DistinctCoords(rows) && CellCount(rows, d) <= cap
    ensures r.Ok? ==> r.value == Reference(rows, d)
  {
    if rows == [] {
      EmptyGroup(d);
      return Ok(Dense(MakeNested(seq(d, _ => 0), None), seq(d, _ => [])));
    }
    var axes := MakeAxes(rows, d);
    var total := CountCells(Shape(axes));
    if total > cap { return Err("tensor exceeds the cell limit"); }
    var tensor := MakeNested(Shape(axes), None);
    var filled := MakeNested(Shape(axes), false);
    StartFilled(axes);
    for k := 0 to |rows|
      invariant tensor == Fill(axes, CellFn(rows[..k]), [])
      invariant filled == Fill(axes, HasFn(rows[..k]), [])
      invariant DistinctCoords(rows[..k])
    {
      var idx := Locate(axes, rows, d, k);
      CheckCell(axes, rows, k, idx);
      if IndexNested(filled, idx) == Some(true) { return Err("duplicate coordinate"); }
      WriteCell(axes, rows, d, k, idx);
      tensor := Put(tensor, idx, rows[k].value);
      filled := Put(filled, idx, true);
    }
    assert rows[..|rows|] == rows;
    r := Ok(Dense(tensor, axes));
  }

  /** A group without rows is the empty tensor of the right depth. */
  lemma EmptyGroup(d: nat)
    requires d > 0
    ensures Reference([], d) == Dense(MakeNested(seq(d, _ => 0), None), seq(d, _ => []))
    ensures CellCount([], d) == 0
  {
    assert AxesOf([], d) == seq<seq<int>>(d, _ => []);
    assert Shape(AxesOf([], d)) == seq(d, _ => 0);
    assert Fill(AxesOf([], d), CellFn([]), []) == Node([]);
  }

  lemma StartFilled(axes: seq<seq<int>>)
    ensures MakeNested<Option<int>>(Shape(axes), None) == Fill(axes, CellFn([]), [])
    ensures MakeNested(Shape(axes), false) == Fill(axes, HasFn([]), [])
  {
    MakeIsFill<Option<int>>(axes, None, []);
    FillExt(axes, (c: seq<int>) => None, CellFn([]), []);
    MakeIsFill(axes, false, []);
    FillExt(axes, (c: seq<int>) => false, HasFn([]), []);
  }

  lemma CheckCell(axes: seq<seq<int>>, rows: seq<Row>, k: nat, idx: seq<nat>)
    requires k < |rows| && Within(idx, axes) && At(axes, idx) == rows[k].coords
    requires DistinctCoords(rows[..k])
    ensures IndexNested(Fill(axes, HasFn(rows[..k]), []), idx) == Some(true) ==> !DistinctCoords(rows)
    ensures IndexNested(Fill(axes, HasFn(rows[..k]), []), idx) != Some(true) ==> DistinctCoords(rows[..k+1])
  {
    IndexFill(axes, HasFn(rows[..k]), [], idx);
    assert [] + At(axes, idx) == rows[k].coords;
    HasMeans(rows[..k], rows[k].coords);
    if Has(rows[..k], rows[k].coords) {
      var i :| 0 <= i < k && rows[..k][i].coords == rows[k].coords;
      assert rows[i].coords == rows[k].coords;
    } else {
      AddRow(rows[..k], rows[k]);
      assert rows[..k+1] == rows[..k] + [rows[k]];
    }
  }

  lemma WriteCell(axes: seq<seq<int>>, rows: seq<Row>, d: nat, k: nat, idx: seq<nat>)
    requires Wide(rows, d) && AreAxes(axes, rows, d)
    requires k < |rows| && Within(idx, axes) && At(axes, idx) == rows[k].coords
    ensures Put(Fill(axes, CellFn(rows[..k]), []), idx, rows[k].value) == Fill(axes, CellFn(rows[..k+1]), [])
    ensures Put(Fill(axes, HasFn(rows[..k]), []), idx, true) == Fill(axes, HasFn(rows[..k+1]), [])
  {
    assert [] + At(axes, idx) == rows[k].coords;
    assert rows[..k+1][..k] == rows[..k];
    forall a | 0 <= a < |axes| ensures Ascending(axes[a]) { assert IsAxis(axes[a], rows, a); }
    PutFill(axes, CellFn(rows[..k]), CellFn(rows[..k+1]), [], idx, rows[k].value);
    PutFill(axes, HasFn(rows[..k]), HasFn(rows[..k+1]), [], idx, true);
  }

  // ---- what the tensor says of the inputs --------------------------------

  /** Every input has `d` coordinates, null or not: one for each axis. */
  ghost predicate Even(inputs: seq<Input>, d: nat) {
    forall i :: 0 <= i < |inputs| && inputs[i].Axes? ==> |inputs[i].coords| == d
  }

  ghost predicate OnAxis(inputs: seq<Input>, a: nat, v: int) {
    exists i :: 0 <= i < |inputs| && inputs[i].Axes? && a < |inputs[i].coords| && inputs[i].coords[a] == Some(v)
  }

  /** One strictly ascending axis per coordinate, holding exactly the numbers the inputs have there. */
  ghost predicate Spans(axes: seq<seq<int>>, inputs: seq<Input>, d: nat) {
    && |axes| == d
    && forall a :: 0 <= a < d ==> Ascending(axes[a]) && forall v :: v in axes[a] <==> OnAxis(inputs, a, v)
  }

  /** The input belongs in the cell at this index: on each axis its coordinate stands at the index. */
  ghost predicate InCell(x: Input, axes: seq<seq<int>>, idx: seq<nat>)
    requires Within(idx, axes)
  {
    && x.Axes? && |x.coords| == |axes|
    && forall a :: 0 <= a < |axes| ==> x.coords[a] == Some(axes[a][idx[a]])
  }

  /** The tensor of these inputs: each value in its cell, and null in every other cell. */
  ghost predicate Depicts(r: Dense, inputs: seq<Input>, d: nat) {
    && Spans(r.axes, inputs, d)
    && Shaped(r.tensor, Shape(r.axes))
    && forall idx :: Within(idx, r.axes) ==> CellSays(IndexNested(r.tensor, idx), inputs, r.axes, idx)
  }

  ghost predicate CellSays(cell: Option<Option<int>>, inputs: seq<Input>, axes: seq<seq<int>>, idx: seq<nat>)
    requires Within(idx, axes)
  {
    && (forall i :: 0 <= i < |inputs| && InCell(inputs[i], axes, idx) ==> cell == Some(inputs[i].value))
    && ((forall i :: 0 <= i < |inputs| ==> !InCell(inputs[i], axes, idx)) ==> cell == Some(None))
  }

  lemma {:induction false} FillShaped<T>(axes: seq<seq<int>>, f: seq<int> -> T, prefix: seq<int>)
    ensures Shaped(Fill(axes, f, prefix), Shape(axes))
    decreases |axes|
  {
    if axes != [] {
      assert Shape(axes)[1..] == Shape(axes[1..]);
      forall i | 0 <= i < |axes[0]| ensures Shaped(Fill(axes[1..], f, prefix + [axes[0][i]]), Shape(axes[1..])) {
        FillShaped(axes[1..], f, prefix + [axes[0][i]]);
      }
    }
  }

  lemma ListsWide(rows: seq<Row>, inputs: seq<Input>, d: nat)
    requires Lists(rows, inputs) && Even(inputs, d)
    ensures Wide(rows, d)
  {
    forall k | 0 <= k < |rows| ensures |rows[k].coords| == d {
      var i := RowHasInput(rows, inputs, k);
    }
  }

  lemma AxisHolds(rows: seq<Row>, inputs: seq<Input>, d: nat, a: nat, v: int)
    requires Lists(rows, inputs) && Even(inputs, d) && Wide(rows, d) && a < d
    ensures v in AxisOf(rows, a) <==> OnAxis(inputs, a, v)
  {
    hide Lists, AxisOf;
    AxisIsAxis(rows, a);
    if k :| 0 <= k < |rows| && rows[k].coords[a] == v {
      var i := RowHasInput(rows, inputs, k);
      assert inputs[i].coords[a] == Some(v);
    }
    if OnAxis(inputs, a, v) {
      var i :| 0 <= i < |inputs| && inputs[i].Axes? && a < |inputs[i].coords| && inputs[i].coords[a] == Some(v);
      var k := InputHasRow(rows, inputs, i);
      assert rows[k].coords[a] == v;
    }
  }

  lemma ReferenceSpans(rows: seq<Row>, inputs: seq<Input>, d: nat)
    requires Lists(rows, inputs) && Even(inputs, d) && Wide(rows, d)
    ensures Spans(AxesOf(rows, d), inputs, d)
  {
    hide Lists, AxisOf, OnAxis, Ascending;
    forall a: nat, v | a < d ensures v in AxisOf(rows, a) <==> OnAxis(inputs, a, v) {
      AxisHolds(rows, inputs, d, a, v);
    }
    forall a | 0 <= a < d ensures Ascending(AxisOf(rows, a)) { AxisIsAxis(rows, a); }
  }

  lemma NamedCell(rows: seq<Row>, inputs: seq<Input>, axes: seq<seq<int>>, idx: seq<nat>, i: nat)
    requires Lists(rows, inputs) && DistinctCoords(rows) && Within(idx, axes)
    requires i < |inputs| && InCell(inputs[i], axes, idx)
    ensures Lookup(rows, At(axes, idx)) == inputs[i].value
  {
    hide Lists, Lookup, DistinctCoords;
    var k := InputHasRow(rows, inputs, i);
    assert rows[k].coords == At(axes, idx);
    LookupMeans(rows, k);
  }

  lemma UnnamedCell(rows: seq<Row>, inputs: seq<Input>, axes: seq<seq<int>>, idx: seq<nat>)
    requires Lists(rows, inputs) && Within(idx, axes)
    requires forall i :: 0 <= i < |inputs| ==> !InCell(inputs[i], axes, idx)
    ensures Lookup(rows, At(axes, idx)) == None
  {
    hide Lists, Lookup;
    forall k | 0 <= k < |rows| ensures rows[k].coords != At(axes, idx) {
      var i := RowHasInput(rows, inputs, k);
      assert !InCell(inputs[i], axes, idx);
    }
    LookupAbsent(rows, At(axes, idx));
  }

  lemma ReferenceCell(rows: seq<Row>, inputs: seq<Input>, d: nat, idx: seq<nat>)
    requires Lists(rows, inputs) && Wide(rows, d) && DistinctCoords(rows) && Within(idx, AxesOf(rows, d))
    ensures CellSays(IndexNested(Reference(rows, d).tensor, idx), inputs, AxesOf(rows, d), idx)
  {
    hide Lists, Lookup, DistinctCoords, AxesOf, Fill;
    var axes := AxesOf(rows, d);
    IndexFill(axes, CellFn(rows), [], idx);
    assert [] + At(axes, idx) == At(axes, idx);
    forall i | 0 <= i < |inputs| && InCell(inputs[i], axes, idx)
      ensures Lookup(rows, At(axes, idx)) == inputs[i].value
    {
      NamedCell(rows, inputs, axes, idx, i);
    }
    if forall i :: 0 <= i < |inputs| ==> !InCell(inputs[i], axes, idx) { UnnamedCell(rows, inputs, axes, idx); }
  }

  /** The tensor the rows denote is the tensor of the inputs they hold. */
  lemma ReferenceDepicts(rows: seq<Row>, inputs: seq<Input>, d: nat)
    requires Lists(rows, inputs) && Even(inputs, d) && Wide(rows, d) && DistinctCoords(rows)
    ensures Depicts(Reference(rows, d), inputs, d)
  {
    ReferenceSpans(rows, inputs, d);
    FillShaped(AxesOf(rows, d), CellFn(rows), []);
    forall idx | Within(idx, AxesOf(rows, d))
      ensures CellSays(IndexNested(Reference(rows, d).tensor, idx), inputs, AxesOf(rows, d), idx)
    {
      ReferenceCell(rows, inputs, d, idx);
    }
  }

  lemma {:induction false} ShapedUnique<T>(t: Nested<T>, u: Nested<T>, axes: seq<seq<int>>)
    requires Shaped(t, Shape(axes)) && Shaped(u, Shape(axes))
    requires forall idx :: Within(idx, axes) ==> IndexNested(t, idx) == IndexNested(u, idx)
    ensures t == u
    decreases |axes|
  {
    if axes == [] {
      assert Within([], axes);
    } else {
      assert Shape(axes)[1..] == Shape(axes[1..]);
      forall k | 0 <= k < |axes[0]| ensures t.items[k] == u.items[k] {
        forall idx | Within(idx, axes[1..]) ensures IndexNested(t.items[k], idx) == IndexNested(u.items[k], idx) {
          var whole: seq<nat> := [k] + idx;
          assert Within(whole, axes) && whole[1..] == idx;
        }
        ShapedUnique(t.items[k], u.items[k], axes[1..]);
      }
    }
  }

  lemma SpansUnique(a: seq<seq<int>>, b: seq<seq<int>>, inputs: seq<Input>, d: nat)
    requires Spans(a, inputs, d) && Spans(b, inputs, d)
    ensures a == b
  {
    forall k | 0 <= k < d ensures a[k] == b[k] { AscendingUnique(a[k], b[k]); }
  }

  /** No other tensor is the tensor of these inputs. */
  lemma DepictedOnce(r: Dense, s: Dense, inputs: seq<Input>, d: nat)
    requires Depicts(r, inputs, d) && Depicts(s, inputs, d)
    ensures r == s
  {
    SpansUnique(r.axes, s.axes, inputs, d);
    forall idx | Within(idx, r.axes) ensures IndexNested(r.tensor, idx) == IndexNested(s.tensor, idx) {
      assert CellSays(IndexNested(r.tensor, idx), inputs, r.axes, idx);
      assert CellSays(IndexNested(s.tensor, idx), inputs, r.axes, idx);
    }
    ShapedUnique(r.tensor, s.tensor, r.axes);
  }

  /** The product of the axes the inputs span is within the cap. */
  ghost predicate FitsCap(inputs: seq<Input>, d: nat, cap: nat) {
    forall axes :: Spans(axes, inputs, d) ==> Product(Shape(axes)) <= cap
  }

  lemma FitsMeans(rows: seq<Row>, inputs: seq<Input>, d: nat, cap: nat)
    requires Lists(rows, inputs) && Even(inputs, d) && Wide(rows, d)
    ensures FitsCap(inputs, d, cap) <==> CellCount(rows, d) <= cap
  {
    ReferenceSpans(rows, inputs, d);
    forall axes | Spans(axes, inputs, d) ensures axes == AxesOf(rows, d) {
      SpansUnique(axes, AxesOf(rows, d), inputs, d);
    }
  }

  ghost predicate Fits(inputs: seq<Input>, d: nat, cap: nat) { NoDuplicates(inputs) && FitsCap(inputs, d, cap) }

  /** Finalize, said of the inputs the rows hold. */
  method FinalizeInputs(rows: seq<Row>, ghost inputs: seq<Input>, d: nat, cap: nat) returns (r: Result<Dense>)
    requires Lists(rows, inputs) && Even(inputs, d) && d > 0 && cap > 0
    ensures r.Ok? <==> Fits(inputs, d, cap)
    ensures r.Ok? ==> Depicts(r.value, inputs, d)
  {
    ListsWide(rows, inputs, d);
    ListsDistinct(rows, inputs);
    FitsMeans(rows, inputs, d, cap);
    r := Finalize(rows, d, cap);
    if r.Ok? { ReferenceDepicts(rows, inputs, d); }
  }

  // ---- partition independence --------------------------------------------

  /**
   The whole aggregate. However the inputs are batched and combined, it succeeds
   exactly when no coordinate is null or repeated and the product fits the cap,
   and then yields the tensor of its inputs.
   */
  method Aggregate(p: Plan, d: nat, cap: nat) returns (r: Result<Dense>)
    requires Even(Inputs(p), d) && d > 0 && cap > 0
    ensures r.Ok? <==> NoNulls(Inputs(p)) && Fits(Inputs(p), d, cap)
    ensures r.Ok? ==> Depicts(r.value, Inputs(p), d)
  {
    ghost var inputs := Inputs(p);
    var state := Accumulate(p);
    if Clean(inputs) { CleanInputsAccepted(p); }
    if state.Err? { return Err(state.error); }
    AcceptedHasNoNulls(p);
    r := FinalizeInputs(state.value, inputs, d, cap);
  }

  ghost predicate SameRows(a: seq<Row>, b: seq<Row>) {
    forall row :: row in a <==> row in b
  }

  /** The tensor, its axes and its cell count depend only on the set of rows. */
  lemma ReferenceDependsOnSet(a: seq<Row>, b: seq<Row>, d: nat)
    requires Wide(a, d) && Wide(b, d) && SameRows(a, b)
    requires DistinctCoords(a) && DistinctCoords(b)
    ensures Reference(a, d) == Reference(b, d)
    ensures CellCount(a, d) == CellCount(b, d)
  {
    SameAxes(a, b, d);
    forall c ensures CellFn(a)(c) == CellFn(b)(c) {
      SameLookup(a, b, c);
    }
    FillExt(AxesOf(a, d), CellFn(a), CellFn(b), []);
  }

  lemma SameLookup(a: seq<Row>, b: seq<Row>, c: seq<int>)
    requires SameRows(a, b) && DistinctCoords(a) && DistinctCoords(b)
    ensures Lookup(a, c) == Lookup(b, c)
  {
    if i :| 0 <= i < |a| && a[i].coords == c {
      assert a[i] in b;
      var j :| 0 <= j < |b| && b[j] == a[i];
      LookupMeans(a, i);
      LookupMeans(b, j);
    } else {
      forall j | 0 <= j < |b| ensures b[j].coords != c { assert b[j] in a; }
      LookupAbsent(a, c);
      LookupAbsent(b, c);
    }
  }

  lemma SameAxes(a: seq<Row>, b: seq<Row>, d: nat)
    requires Wide(a, d) && Wide(b, d) && SameRows(a, b)
    ensures AxesOf(a, d) == AxesOf(b, d)
  {
    forall k | 0 <= k < d ensures AxisOf(a, k) == AxisOf(b, k) {
      AxisIsAxis(a, k);
      AxisIsAxis(b, k);
      AxisSubset(a, b, k);
      AxisSubset(b, a, k);
      AscendingUnique(AxisOf(a, k), AxisOf(b, k));
    }
  }

  lemma AxisSubset(a: seq<Row>, b: seq<Row>, k: nat)
    requires forall i :: 0 <= i < |a| ==> k < |a[i].coords|
    requires forall i :: 0 <= i < |b| ==> k < |b[i].coords|
    requires SameRows(a, b)
    ensures forall v :: v in AxisOf(a, k) ==> v in AxisOf(b, k)
  {
    AxisIsAxis(a, k);
    AxisIsAxis(b, k);
    forall v | v in AxisOf(a, k) ensures v in AxisOf(b, k) {
      var i :| 0 <= i < |a| && a[i].coords[k] == v;
      assert a[i] in b;
      var j :| 0 <= j < |b| && b[j] == a[i];
      assert b[j].coords[k] == v;
    }
  }
}
