/**
 The two inverses of `nest_tensor`: the index enumeration of `unnest_tensor` and
 the recursive walk of `unnest_tensor_rows`.
 */
module UnnestTensor {
  import opened Seqs
  import opened NestTensor

  // ---- the inverses ------------------------------------------------------

  datatype Cell = Cell(value: Option<int>, coords: seq<int>)

  /** `x` in front of every tuple. */
  function Prefixed<T>(x: T, tuples: seq<seq<T>>): seq<seq<T>> {
    if tuples == [] then [] else [[x] + tuples[0]] + Prefixed(x, tuples[1..])
  }

  function Spread<T>(xs: seq<T>, tuples: seq<seq<T>>): seq<seq<T>> {
    if xs == [] then [] else Prefixed(xs[0], tuples) + Spread(xs[1..], tuples)
  }

  /** All tuples over the axes, in lexicographic order of position. */
  function Tuples<T>(axes: seq<seq<T>>): seq<seq<T>> {
    if axes == [] then [[]] else Spread(axes[0], Tuples(axes[1..]))
  }

  function UpTo(n: nat): seq<nat> { seq(n, i => i) }

  function IndexTuples(lengths: seq<nat>): seq<seq<nat>> {
    Tuples(Map(lengths, UpTo))
  }

  /** `_cartesianProduct`: the recursion over a pushed and popped accumulator. */
  method CartesianProduct(lengths: seq<nat>, acc: seq<nat>) returns (result: seq<seq<nat>>)
    ensures result == Under(acc, IndexTuples(lengths))
    decreases |lengths|
  {
    if lengths == [] {
      assert acc + [] == acc;
      return [acc];
    }
    result := [];
    var n := lengths[0];
    var rest := IndexTuples(lengths[1..]);
    for i := 0 to n
      invariant result == Under(acc, Spread(UpTo(n)[..i], rest))
    {
      var k: nat := i;
      var deeper := CartesianProduct(lengths[1..], acc + [k]);
      UnderPrefixed<nat>(acc, k, rest);
      assert UpTo(n)[..i+1] == UpTo(n)[..i] + [k];
      SpreadAppend<nat>(UpTo(n)[..i], k, rest);
      UnderAppend<nat>(acc, Spread<nat>(UpTo(n)[..i], rest), Prefixed<nat>(k, rest));
      result := result + deeper;
    }
    assert UpTo(n)[..n] == UpTo(n);
    assert Map(lengths, UpTo)[1..] == Map(lengths[1..], UpTo);
  }

  /** `acc` in front of every tuple. */
  function Under<T>(acc: seq<T>, tuples: seq<seq<T>>): seq<seq<T>> {
    if tuples == [] then [] else [acc + tuples[0]] + Under(acc, tuples[1..])
  }

  lemma {:induction false} UnderAppend<T>(acc: seq<T>, a: seq<seq<T>>, b: seq<seq<T>>)
    ensures Under(acc, a + b) == Under(acc, a) + Under(acc, b)
  {
    if a == [] {
      assert a + b == b;
    } else {
      assert (a + b)[1..] == a[1..] + b;
      UnderAppend(acc, a[1..], b);
    }
  }

  lemma {:induction false} UnderPrefixed<T>(acc: seq<T>, x: T, tuples: seq<seq<T>>)
    ensures Under(acc + [x], tuples) == Under(acc, Prefixed(x, tuples))
  {
    if tuples != [] {
      UnderPrefixed(acc, x, tuples[1..]);
      assert acc + [x] + tuples[0] == acc + ([x] + tuples[0]);
    }
  }

  lemma {:induction false} SpreadAppend<T>(xs: seq<T>, x: T, tuples: seq<seq<T>>)
    ensures Spread(xs + [x], tuples) == Spread(xs, tuples) + Prefixed(x, tuples)
  {
    if xs == [] {
      assert Spread([x], tuples) == Prefixed(x, tuples) + Spread([], tuples);
    } else {
      assert (xs + [x])[1..] == xs[1..] + [x];
      SpreadAppend(xs[1..], x, tuples);
    }
  }

  lemma {:induction false} UnderNothing<T>(tuples: seq<seq<T>>)
    ensures Under([], tuples) == tuples
  {
    if tuples != [] {
      UnderNothing(tuples[1..]);
      assert [] + tuples[0] == tuples[0];
    }
  }

  function Flat(v: Option<Option<int>>): Option<int> { if v.Some? then v.value else None }

  /** The cells at the given index tuples, looked up one by one. */
  ghost function Enumerate(
      t: Nested<Option<int>>, axes: seq<seq<int>>, prefix: seq<int>, tuples: seq<seq<nat>>): seq<Cell>
    requires forall i :: 0 <= i < |tuples| ==> Within(tuples[i], axes)
  {
    if tuples == [] then []
    else [Cell(Flat(IndexNested(t, tuples[0])), prefix + At(axes, tuples[0]))] + Enumerate(t, axes, prefix, tuples[1..])
  }

  /** `unnest_tensor_rows`: the recursive walk of the nesting. */
  function Walk(t: Nested<Option<int>>, axes: seq<seq<int>>, prefix: seq<int>): seq<Cell>
    decreases |axes|, 0
  {
    if axes == [] then (if t.Leaf? then [Cell(t.value, prefix)] else [])
    else if t.Leaf? then []
    else WalkItems(t.items, axes, prefix, 0)
  }

  function WalkItems(items: seq<Nested<Option<int>>>, axes: seq<seq<int>>, prefix: seq<int>, k: nat): seq<Cell>
    requires axes != []
    decreases |axes| - 1, |items| - k + 1
  {
    if k >= |items| || k >= |axes[0]| then []
    else Walk(items[k], axes[1..], prefix + [axes[0][k]]) + WalkItems(items, axes, prefix, k + 1)
  }

  ghost predicate AllWithin(tuples: seq<seq<nat>>, axes: seq<seq<int>>) {
    forall i :: 0 <= i < |tuples| ==> Within(tuples[i], axes)
  }

  lemma {:induction false} PrefixedWithin(k: nat, tuples: seq<seq<nat>>, axes: seq<seq<int>>)
    requires axes != [] && k < |axes[0]| && AllWithin(tuples, axes[1..])
    ensures AllWithin(Prefixed(k, tuples), axes)
  {
    if tuples != [] {
      PrefixedWithin(k, tuples[1..], axes);
      assert Within([k] + tuples[0], axes);
    }
  }

  lemma {:induction false} SpreadWithin(xs: seq<nat>, tuples: seq<seq<nat>>, axes: seq<seq<int>>)
    requires axes != [] && (forall i :: 0 <= i < |xs| ==> xs[i] < |axes[0]|) && AllWithin(tuples, axes[1..])
    ensures AllWithin(Spread(xs, tuples), axes)
  {
    if xs != [] {
      PrefixedWithin(xs[0], tuples, axes);
      SpreadWithin(xs[1..], tuples, axes);
    }
  }

  lemma {:induction false} IndexTuplesWithin(axes: seq<seq<int>>)
    ensures AllWithin(IndexTuples(Shape(axes)), axes)
  {
    if axes != [] {
      IndexTuplesWithin(axes[1..]);
      assert Shape(axes)[1..] == Shape(axes[1..]);
      assert Map(Shape(axes), UpTo)[1..] == Map(Shape(axes[1..]), UpTo);
      SpreadWithin(UpTo(|axes[0]|), IndexTuples(Shape(axes[1..])), axes);
    }
  }

  lemma {:induction false} EnumerateAppend(
      t: Nested<Option<int>>, axes: seq<seq<int>>, prefix: seq<int>, a: seq<seq<nat>>, b: seq<seq<nat>>)
    requires AllWithin(a, axes) && AllWithin(b, axes)
    ensures Enumerate(t, axes, prefix, a + b) == Enumerate(t, axes, prefix, a) + Enumerate(t, axes, prefix, b)
  {
    if a == [] {
      assert a + b == b;
    } else {
      assert (a + b)[1..] == a[1..] + b;
      EnumerateAppend(t, axes, prefix, a[1..], b);
    }
  }

  /** Looking up below child `k` is looking up in child `k`. */
  lemma {:induction false} EnumerateChild(
      t: Nested<Option<int>>, axes: seq<seq<int>>, prefix: seq<int>, k: nat, tuples: seq<seq<nat>>)
    requires axes != [] && t.Node? && k < |t.items| && k < |axes[0]| && AllWithin(tuples, axes[1..])
    requires AllWithin(Prefixed(k, tuples), axes)
    ensures Enumerate(t, axes, prefix, Prefixed(k, tuples))
         == Enumerate(t.items[k], axes[1..], prefix + [axes[0][k]], tuples)
  {
    if tuples != [] {
      PrefixedWithin(k, tuples[1..], axes);
      EnumerateChild(t, axes, prefix, k, tuples[1..]);
      var u := [k] + tuples[0];
      assert u[1..] == tuples[0];
      assert Prefixed(k, tuples)[0] == u && Prefixed(k, tuples)[1..] == Prefixed(k, tuples[1..]);
      AtStep(axes, u);
      assert prefix + At(axes, u) == (prefix + [axes[0][k]]) + At(axes[1..], tuples[0]);
    }
  }

  /** On a tensor whose nesting matches its axes, enumeration and walk give the same cells in the same order. */
  lemma {:induction false} EnumerateIsWalk(t: Nested<Option<int>>, axes: seq<seq<int>>, prefix: seq<int>)
    requires Shaped(t, Shape(axes))
    requires AllWithin(IndexTuples(Shape(axes)), axes)
    ensures Enumerate(t, axes, prefix, IndexTuples(Shape(axes))) == Walk(t, axes, prefix)
    decreases |axes|, 0
  {
    if axes == [] {
      assert prefix + At(axes, []) == prefix;
      assert IndexTuples(Shape(axes)) == [[]];
      assert Enumerate(t, axes, prefix, [[]]) == [Cell(t.value, prefix)] + Enumerate(t, axes, prefix, []);
    } else {
      assert Shape(axes)[1..] == Shape(axes[1..]);
      assert Map(Shape(axes), UpTo)[1..] == Map(Shape(axes[1..]), UpTo);
      IndexTuplesWithin(axes[1..]);
      ItemsAreWalked(t, axes, prefix, 0);
      assert UpTo(|axes[0]|)[0..] == UpTo(|axes[0]|);
    }
  }

  lemma {:induction false} ItemsAreWalked(t: Nested<Option<int>>, axes: seq<seq<int>>, prefix: seq<int>, k: nat)
    requires axes != [] && Shaped(t, Shape(axes)) && k <= |axes[0]|
    requires AllWithin(IndexTuples(Shape(axes[1..])), axes[1..])
    ensures var rest := Spread(UpTo(|axes[0]|)[k..], IndexTuples(Shape(axes[1..])));
      AllWithin(rest, axes) && Enumerate(t, axes, prefix, rest) == WalkItems(t.items, axes, prefix, k)
    decreases |axes| - 1, |axes[0]| - k + 1
  {
    var below := IndexTuples(Shape(axes[1..]));
    var ks := UpTo(|axes[0]|)[k..];
    SpreadWithin(ks, below, axes);
    if k < |axes[0]| {
      assert Shape(axes)[1..] == Shape(axes[1..]);
      ItemsAreWalked(t, axes, prefix, k + 1);
      assert ks[0] == k && ks[1..] == UpTo(|axes[0]|)[k+1..];
      PrefixedWithin(k, below, axes);
      EnumerateAppend(t, axes, prefix, Prefixed(k, below), Spread(ks[1..], below));
      EnumerateChild(t, axes, prefix, k, below);
      EnumerateIsWalk(t.items[k], axes[1..], prefix + [axes[0][k]]);
    }
  }

  lemma {:induction false} PrefixedMember<T>(x: T, tuples: seq<seq<T>>, c: seq<T>)
    ensures c in Prefixed(x, tuples) <==> |c| > 0 && c[0] == x && c[1..] in tuples
  {
    if tuples != [] {
      PrefixedMember(x, tuples[1..], c);
      if |c| > 0 && c[0] == x && c[1..] == tuples[0] { assert c == [x] + tuples[0]; }
      assert ([x] + tuples[0])[1..] == tuples[0];
      assert tuples == [tuples[0]] + tuples[1..];
    }
  }

  lemma {:induction false} SpreadMember<T>(xs: seq<T>, tuples: seq<seq<T>>, c: seq<T>)
    ensures c in Spread(xs, tuples) <==> |c| > 0 && c[0] in xs && c[1..] in tuples
  {
    if xs != [] {
      PrefixedMember(xs[0], tuples, c);
      SpreadMember(xs[1..], tuples, c);
      assert xs == [xs[0]] + xs[1..];
    }
  }

  /** The tuples are exactly those that take each coordinate from its axis. */
  lemma {:induction false} TupleMember<T>(axes: seq<seq<T>>, c: seq<T>)
    ensures c in Tuples(axes) <==> |c| == |axes| && forall a :: 0 <= a < |axes| ==> c[a] in axes[a]
    decreases |axes|
  {
    if axes != [] {
      SpreadMember(axes[0], Tuples(axes[1..]), c);
      if |c| > 0 {
        TupleMember(axes[1..], c[1..]);
        if forall a :: 0 <= a < |axes[1..]| ==> |c| == |axes| && c[1..][a] in axes[1..][a] {
          forall a | 1 <= a < |axes| && |c| == |axes| ensures c[a] in axes[a] {
            assert c[1..][a-1] in axes[1..][a-1];
          }
        }
      }
    }
  }

  /** The index tuples are exactly those within the axes. */
  lemma IndexTupleMember(axes: seq<seq<int>>, idx: seq<nat>)
    ensures idx in IndexTuples(Shape(axes)) <==> Within(idx, axes)
  {
    var all := Map(Shape(axes), UpTo);
    TupleMember<nat>(all, idx);
    if |idx| == |axes| {
      forall a | 0 <= a < |axes| ensures idx[a] in all[a] <==> idx[a] < |axes[a]| {
        if idx[a] < |axes[a]| { assert all[a][idx[a]] == idx[a]; }
      }
    }
  }

  /** At the first position where they differ, `a` has the smaller number. */
  ghost predicate LexBefore(a: seq<nat>, b: seq<nat>) {
    exists k: nat :: k < |a| && k < |b| && a[..k] == b[..k] && a[k] < b[k]
  }

  ghost predicate LexAscends(tuples: seq<seq<nat>>) {
    forall i, j :: 0 <= i < j < |tuples| ==> LexBefore(tuples[i], tuples[j])
  }

  lemma {:induction false} PrefixedAt<T>(x: T, tuples: seq<seq<T>>)
    ensures |Prefixed(x, tuples)| == |tuples|
    ensures forall i :: 0 <= i < |tuples| ==> Prefixed(x, tuples)[i] == [x] + tuples[i]
  {
    if tuples != [] { PrefixedAt(x, tuples[1..]); }
  }

  lemma LexPrefixed(x: nat, a: seq<nat>, b: seq<nat>)
    requires LexBefore(a, b)
    ensures LexBefore([x] + a, [x] + b)
  {
    var k: nat :| k < |a| && k < |b| && a[..k] == b[..k] && a[k] < b[k];
    var xa, xb := [x] + a, [x] + b;
    assert xa[..k+1] == [x] + a[..k] && xb[..k+1] == [x] + b[..k];
    assert xa[k+1] < xb[k+1];
  }

  lemma PrefixedAscends(x: nat, tuples: seq<seq<nat>>)
    requires LexAscends(tuples)
    ensures LexAscends(Prefixed(x, tuples))
  {
    PrefixedAt(x, tuples);
    forall i, j | 0 <= i < j < |tuples| ensures LexBefore(Prefixed(x, tuples)[i], Prefixed(x, tuples)[j]) {
      LexPrefixed(x, tuples[i], tuples[j]);
    }
  }

  lemma {:induction false} SpreadAscends(xs: seq<nat>, tuples: seq<seq<nat>>)
    requires LexAscends(tuples) && forall i, j :: 0 <= i < j < |xs| ==> xs[i] < xs[j]
    ensures LexAscends(Spread(xs, tuples))
  {
    if xs != [] {
      var head, rest := Prefixed(xs[0], tuples), Spread(xs[1..], tuples);
      PrefixedAt(xs[0], tuples);
      PrefixedAscends(xs[0], tuples);
      SpreadAscends(xs[1..], tuples);
      forall i, j | 0 <= i < |head| && 0 <= j < |rest| ensures LexBefore(head[i], rest[j]) {
        SpreadMember(xs[1..], tuples, rest[j]);
        assert rest[j][0] in xs[1..] && head[i][0] == xs[0];
        assert head[i][..0] == rest[j][..0] && head[i][0] < rest[j][0];
      }
    }
  }

  /** The index tuples come in the order of the nested loops: the last axis runs fastest. */
  lemma {:induction false} IndexTuplesAscend(lengths: seq<nat>)
    ensures LexAscends(IndexTuples(lengths))
  {
    if lengths != [] {
      IndexTuplesAscend(lengths[1..]);
      assert Map(lengths, UpTo)[1..] == Map(lengths[1..], UpTo);
      SpreadAscends(UpTo(lengths[0]), IndexTuples(lengths[1..]));
    }
  }

  /** The cells of a tensor, index by index: what is found there, or null, and the coordinates on the axes. */
  ghost predicate CellsOf(cells: seq<Cell>, t: Dense, tuples: seq<seq<nat>>) {
    && |cells| == |tuples| && LexAscends(tuples)
    && (forall idx :: idx in tuples <==> Within(idx, t.axes))
    && forall i :: 0 <= i < |cells| && Within(tuples[i], t.axes) ==> IsCell(cells[i], t, tuples[i])
  }

  ghost predicate IsCell(x: Cell, t: Dense, idx: seq<nat>)
    requires Within(idx, t.axes)
  {
    && |x.coords| == |t.axes| && (forall a :: 0 <= a < |t.axes| ==> x.coords[a] == t.axes[a][idx[a]])
    && x.value == match IndexNested(t.tensor, idx) case None => None case Some(v) => v
  }

  lemma {:induction false} EnumerateAt(t: Dense, tuples: seq<seq<nat>>, i: nat)
    requires AllWithin(tuples, t.axes) && i < |tuples|
    ensures |Enumerate(t.tensor, t.axes, [], tuples)| == |tuples|
    ensures IsCell(Enumerate(t.tensor, t.axes, [], tuples)[i], t, tuples[i])
  {
    if |tuples| > 1 {
      EnumerateAt(t, tuples[1..], if i == 0 then 0 else i - 1);
      assert tuples[1..] != [];
    }
    assert [] + At(t.axes, tuples[0]) == At(t.axes, tuples[0]);
  }

  lemma EnumeratedCells(t: Dense)
    requires AllWithin(IndexTuples(Shape(t.axes)), t.axes)
    ensures CellsOf(Enumerate(t.tensor, t.axes, [], IndexTuples(Shape(t.axes))), t, IndexTuples(Shape(t.axes)))
  {
    var tuples := IndexTuples(Shape(t.axes));
    IndexTuplesAscend(Shape(t.axes));
    forall idx ensures idx in tuples <==> Within(idx, t.axes) { IndexTupleMember(t.axes, idx); }
    if tuples != [] { EnumerateAt(t, tuples, 0); }
    forall i | 0 <= i < |tuples| ensures IsCell(Enumerate(t.tensor, t.axes, [], tuples)[i], t, tuples[i]) {
      EnumerateAt(t, tuples, i);
    }
  }

  /**
   `unnest_tensor`: a null row stays null; otherwise the cells of the Cartesian
   product, null where a ragged tensor has none. On a tensor that matches its axes
   those are the walk's cells.
   */
  method UnnestTensor(row: Option<Dense>) returns (cells: Option<seq<Cell>>)
    ensures cells.None? <==> row.None?
    ensures row.Some? ==>
      var t := row.value;
      && AllWithin(IndexTuples(Shape(t.axes)), t.axes)
      && cells.value == Enumerate(t.tensor, t.axes, [], IndexTuples(Shape(t.axes)))
      && (Shaped(t.tensor, Shape(t.axes)) ==> cells.value == Walk(t.tensor, t.axes, []))
    ensures row.Some? ==> exists tuples :: CellsOf(cells.value, row.value, tuples)
  {
    if row.None? { return None; }
    var t := row.value;
    IndexTuplesWithin(t.axes);
    EnumeratedCells(t);
    hide CellsOf;
    if Shaped(t.tensor, Shape(t.axes)) { EnumerateIsWalk(t.tensor, t.axes, []); }
    if 0 in Shape(t.axes) {
      NoTuples(Shape(t.axes));
      return Some([]);
    }
    var tuples := CartesianProduct(Shape(t.axes), []);
    UnderNothing(IndexTuples(Shape(t.axes)));
    var found := LookupCells(t, tuples);
    cells := Some(found);
  }

  method LookupCells(t: Dense, tuples: seq<seq<nat>>) returns (cells: seq<Cell>)
    requires AllWithin(tuples, t.axes)
    ensures cells == Enumerate(t.tensor, t.axes, [], tuples)
  {
    cells := [];
    for i := 0 to |tuples|
      invariant cells + Enumerate(t.tensor, t.axes, [], tuples[i..]) == Enumerate(t.tensor, t.axes, [], tuples)
    {
      var coords := CoordsAt(t.axes, tuples[i]);
      assert coords == [] + coords;
      var cell := Cell(Flat(IndexNested(t.tensor, tuples[i])), coords);
      assert tuples[i..][1..] == tuples[i+1..];
      assert cells + ([cell] + Enumerate(t.tensor, t.axes, [], tuples[i+1..]))
          == cells + [cell] + Enumerate(t.tensor, t.axes, [], tuples[i+1..]);
      cells := cells + [cell];
    }
  }

  method CoordsAt(axes: seq<seq<int>>, idx: seq<nat>) returns (coords: seq<int>)
    requires Within(idx, axes)
    ensures coords == At(axes, idx)
  {
    coords := [];
    for a := 0 to |axes|
      invariant |coords| == a
      invariant forall b :: 0 <= b < a ==> coords[b] == axes[b][idx[b]]
    {
      coords := coords + [axes[a][idx[a]]];
    }
  }

  lemma {:induction false} NoTuples(lengths: seq<nat>)
    requires 0 in lengths
    ensures IndexTuples(lengths) == []
  {
    assert Map(lengths, UpTo)[1..] == Map(lengths[1..], UpTo);
    if lengths[0] != 0 {
      NoTuples(lengths[1..]);
      SpreadNothing(UpTo(lengths[0]));
    }
  }

  lemma {:induction false} SpreadNothing<T>(xs: seq<T>)
    ensures Spread(xs, []) == []
  {
    if xs != [] { SpreadNothing(xs[1..]); }
  }

  // ---- unnesting what was nested -----------------------------------------

  /** The cells of `f` at the given coordinates. */
  function CellsAt(f: seq<int> -> Option<int>, prefix: seq<int>, tuples: seq<seq<int>>): seq<Cell> {
    if tuples == [] then []
    else [Cell(f(prefix + tuples[0]), prefix + tuples[0])] + CellsAt(f, prefix, tuples[1..])
  }

  lemma {:induction false} CellsAtAppend(
      f: seq<int> -> Option<int>, prefix: seq<int>, a: seq<seq<int>>, b: seq<seq<int>>)
    ensures CellsAt(f, prefix, a + b) == CellsAt(f, prefix, a) + CellsAt(f, prefix, b)
  {
    if a == [] {
      assert a + b == b;
    } else {
      assert (a + b)[1..] == a[1..] + b;
      CellsAtAppend(f, prefix, a[1..], b);
    }
  }

  lemma {:induction false} CellsAtPrefixed(f: seq<int> -> Option<int>, prefix: seq<int>, x: int, tuples: seq<seq<int>>)
    ensures CellsAt(f, prefix, Prefixed(x, tuples)) == CellsAt(f, prefix + [x], tuples)
  {
    if tuples != [] {
      CellsAtPrefixed(f, prefix, x, tuples[1..]);
      assert prefix + ([x] + tuples[0]) == prefix + [x] + tuples[0];
    }
  }

  lemma {:induction false} WalkFill(axes: seq<seq<int>>, f: seq<int> -> Option<int>, prefix: seq<int>)
    ensures Walk(Fill(axes, f, prefix), axes, prefix) == CellsAt(f, prefix, Tuples(axes))
    decreases |axes|, 0
  {
    if axes == [] {
      assert prefix + [] == prefix;
      assert CellsAt(f, prefix, [[]]) == [Cell(f(prefix), prefix)] + CellsAt(f, prefix, []);
    } else {
      WalkFillItems(axes, f, prefix, 0);
      assert axes[0][0..] == axes[0];
    }
  }

  lemma {:induction false} WalkFillItems(axes: seq<seq<int>>, f: seq<int> -> Option<int>, prefix: seq<int>, k: nat)
    requires axes != [] && k <= |axes[0]|
    ensures WalkItems(Fill(axes, f, prefix).items, axes, prefix, k)
         == CellsAt(f, prefix, Spread(axes[0][k..], Tuples(axes[1..])))
    decreases |axes| - 1, |axes[0]| - k + 1
  {
    if k < |axes[0]| {
      var x, below := axes[0][k], Tuples(axes[1..]);
      WalkFillItems(axes, f, prefix, k + 1);
      WalkFill(axes[1..], f, prefix + [x]);
      assert axes[0][k..][0] == x && axes[0][k..][1..] == axes[0][k+1..];
      CellsAtPrefixed(f, prefix, x, below);
      CellsAtAppend(f, prefix, Prefixed(x, below), Spread(axes[0][k+1..], below));
    }
  }

  /**
   Unnesting inverts nesting: one cell per tuple of the product of the axes, in
   order, holding the value of the row with those coordinates and null elsewhere.
   */
  lemma UnnestInvertsNest(rows: seq<Row>, d: nat)
    requires Wide(rows, d)
    ensures Shaped(Reference(rows, d).tensor, Shape(AxesOf(rows, d)))
    ensures Walk(Reference(rows, d).tensor, AxesOf(rows, d), []) == CellsAt(CellFn(rows), [], Tuples(AxesOf(rows, d)))
  {
    FillShaped(AxesOf(rows, d), CellFn(rows), []);
    WalkFill(AxesOf(rows, d), CellFn(rows), []);
  }

  lemma RowOnAxis(rows: seq<Row>, a: nat, i: nat)
    requires i < |rows| && forall k :: 0 <= k < |rows| ==> a < |rows[k].coords|
    ensures rows[i].coords[a] in AxisOf(rows, a)
  {
    AxisIsAxis(rows, a);
    var v := rows[i].coords[a];
    assert exists k :: 0 <= k < |rows| && rows[k].coords[a] == v;
  }

  lemma {:induction false} PrefixedDistinct(x: int, tuples: seq<seq<int>>)
    requires NoRepeats(tuples)
    ensures NoRepeats(Prefixed(x, tuples))
  {
    if tuples != [] {
      PrefixedDistinct(x, tuples[1..]);
      PrefixedMember(x, tuples[1..], [x] + tuples[0]);
      assert ([x] + tuples[0])[1..] == tuples[0];
    }
  }

  lemma {:induction false} SpreadDistinct(xs: seq<int>, tuples: seq<seq<int>>)
    requires Ascending(xs) && NoRepeats(tuples)
    ensures NoRepeats(Spread(xs, tuples))
  {
    if xs != [] {
      PrefixedDistinct(xs[0], tuples);
      SpreadDistinct(xs[1..], tuples);
      var a, b := Prefixed(xs[0], tuples), Spread(xs[1..], tuples);
      forall i, j | 0 <= i < |a| && 0 <= j < |b| ensures a[i] != b[j] {
        PrefixedMember(xs[0], tuples, a[i]);
        SpreadMember(xs[1..], tuples, b[j]);
      }
    }
  }

  /** No coordinate tuple is enumerated twice. */
  lemma {:induction false} TuplesDistinct(axes: seq<seq<int>>)
    requires forall a :: 0 <= a < |axes| ==> Ascending(axes[a])
    ensures NoRepeats(Tuples(axes))
  {
    if axes != [] {
      TuplesDistinct(axes[1..]);
      SpreadDistinct(axes[0], Tuples(axes[1..]));
    }
  }

  lemma {:induction false} CellsAtFacts(f: seq<int> -> Option<int>, tuples: seq<seq<int>>)
    ensures |CellsAt(f, [], tuples)| == |tuples|
    ensures forall i :: 0 <= i < |tuples| ==> CellsAt(f, [], tuples)[i] == Cell(f(tuples[i]), tuples[i])
  {
    if tuples != [] {
      CellsAtFacts(f, tuples[1..]);
      assert [] + tuples[0] == tuples[0];
    }
  }

  lemma {:induction false} SpreadCount<T>(xs: seq<T>, tuples: seq<seq<T>>)
    ensures |Spread(xs, tuples)| == |xs| * |tuples|
  {
    if xs != [] {
      SpreadCount(xs[1..], tuples);
      PrefixedAt(xs[0], tuples);
      assert |xs| * |tuples| == (|xs| - 1) * |tuples| + |tuples|;
    }
  }

  lemma {:induction false} TuplesCount(axes: seq<seq<int>>)
    ensures |Tuples(axes)| == Product(Shape(axes))
  {
    if axes != [] {
      TuplesCount(axes[1..]);
      SpreadCount(axes[0], Tuples(axes[1..]));
      assert Shape(axes)[1..] == Shape(axes[1..]);
    }
  }

  /**
   The round trip: unnesting a group's tensor yields one cell per coordinate tuple,
   no tuple twice; every row comes back, and every other cell is null.
   */
  lemma RoundTrip(rows: seq<Row>, d: nat)
    requires Wide(rows, d) && DistinctCoords(rows)
    ensures var cells := Walk(Reference(rows, d).tensor, AxesOf(rows, d), []);
      && |cells| == CellCount(rows, d)
      && (forall i, j :: 0 <= i < j < |cells| ==> cells[i].coords != cells[j].coords)
      && (forall i :: 0 <= i < |rows| ==> Cell(rows[i].value, rows[i].coords) in cells)
      && (forall x :: x in cells ==> Row(x.coords, x.value) in rows || (x.value == None && !HasCoords(rows, x.coords)))
  {
    var axes := AxesOf(rows, d);
    var tuples := Tuples(axes);
    var cells := Walk(Reference(rows, d).tensor, axes, []);
    UnnestInvertsNest(rows, d);
    CellsAtFacts(CellFn(rows), tuples);
    TuplesCount(axes);
    forall a | 0 <= a < d ensures Ascending(axes[a]) { AxisIsAxis(rows, a); }
    TuplesDistinct(axes);
    forall i | 0 <= i < |rows| ensures Cell(rows[i].value, rows[i].coords) in cells {
      RowHasTuple(rows, d, i);
      LookupMeans(rows, i);
      var k :| 0 <= k < |tuples| && tuples[k] == rows[i].coords;
      assert cells[k] == Cell(rows[i].value, rows[i].coords);
    }
    forall x | x in cells
      ensures Row(x.coords, x.value) in rows || (x.value == None && !HasCoords(rows, x.coords))
    {
      if i :| 0 <= i < |rows| && rows[i].coords == x.coords {
        LookupMeans(rows, i);
        assert rows[i] == Row(x.coords, x.value);
      } else {
        LookupAbsent(rows, x.coords);
      }
    }
  }

  lemma RowHasTuple(rows: seq<Row>, d: nat, i: nat)
    requires Wide(rows, d) && i < |rows|
    ensures rows[i].coords in Tuples(AxesOf(rows, d))
  {
    TupleMember(AxesOf(rows, d), rows[i].coords);
    forall a | 0 <= a < d ensures rows[i].coords[a] in AxesOf(rows, d)[a] {
      RowOnAxis(rows, a, i);
    }
  }

  /** The index at which an input's value stands. */
  lemma InputHasIndex(r: Dense, inputs: seq<Input>, d: nat, i: nat) returns (idx: seq<nat>)
    requires Depicts(r, inputs, d) && Even(inputs, d) && NoNulls(inputs)
    requires i < |inputs| && inputs[i].Axes?
    ensures Within(idx, r.axes) && InCell(inputs[i], r.axes, idx)
  {
    var x := inputs[i];
    assert !HasNull(x);
    forall a: nat | a < d ensures x.coords[a].Some? && x.coords[a].value in r.axes[a] {
      assert x.coords[a] in x.coords;
      assert OnAxis(inputs, a, x.coords[a].value);
    }
    idx := seq(d, a requires 0 <= a < d => Position(r.axes[a], x.coords[a].value));
  }

  lemma InputComesBack(r: Dense, inputs: seq<Input>, d: nat, cells: seq<Cell>, tuples: seq<seq<nat>>, i: nat)
    returns (k: nat)
    requires Depicts(r, inputs, d) && Even(inputs, d) && NoNulls(inputs) && CellsOf(cells, r, tuples)
    requires i < |inputs| && inputs[i].Axes?
    ensures k < |cells| && Names(inputs[i], cells[k].coords) && cells[k].value == inputs[i].value
  {
    var idx := InputHasIndex(r, inputs, d, i);
    hide Spans, Shaped, LexAscends;
    assert idx in tuples;
    k :| 0 <= k < |tuples| && tuples[k] == idx;
    assert IsCell(cells[k], r, idx);
    assert CellSays(IndexNested(r.tensor, idx), inputs, r.axes, idx);
  }

  lemma CellIsExplained(r: Dense, inputs: seq<Input>, d: nat, cells: seq<Cell>, tuples: seq<seq<nat>>, k: nat)
    requires Depicts(r, inputs, d) && CellsOf(cells, r, tuples) && k < |cells|
    ensures forall i :: 0 <= i < |inputs| && Names(inputs[i], cells[k].coords) ==> cells[k].value == inputs[i].value
    ensures (forall i :: 0 <= i < |inputs| ==> !Names(inputs[i], cells[k].coords)) ==> cells[k].value == None
  {
    var idx := tuples[k];
    hide Spans, Shaped, LexAscends;
    assert idx in tuples && Within(idx, r.axes) && IsCell(cells[k], r, idx);
    assert CellSays(IndexNested(r.tensor, idx), inputs, r.axes, idx);
    forall i | 0 <= i < |inputs| ensures InCell(inputs[i], r.axes, idx) <==> Names(inputs[i], cells[k].coords) {}
  }

  /**
   From end to end: of the tensor of some inputs, unnesting gives every input back with
   its own value, and null for every other combination of coordinates.
   */
  lemma InputsComeBack(r: Dense, inputs: seq<Input>, d: nat, cells: seq<Cell>, tuples: seq<seq<nat>>)
    requires Depicts(r, inputs, d) && Even(inputs, d) && NoNulls(inputs) && CellsOf(cells, r, tuples)
    ensures forall i :: 0 <= i < |inputs| && inputs[i].Axes? ==>
      exists x :: x in cells && Names(inputs[i], x.coords) && x.value == inputs[i].value
    ensures forall x :: x in cells ==>
      && (forall i :: 0 <= i < |inputs| && Names(inputs[i], x.coords) ==> x.value == inputs[i].value)
      && ((forall i :: 0 <= i < |inputs| ==> !Names(inputs[i], x.coords)) ==> x.value == None)
  {
    hide CellsOf, Depicts;
    forall i | 0 <= i < |inputs| && inputs[i].Axes?
      ensures exists x :: x in cells && Names(inputs[i], x.coords) && x.value == inputs[i].value
    {
      var k := InputComesBack(r, inputs, d, cells, tuples, i);
      assert cells[k] in cells;
    }
    forall x | x in cells
      ensures forall i :: 0 <= i < |inputs| && Names(inputs[i], x.coords) ==> x.value == inputs[i].value
      ensures (forall i :: 0 <= i < |inputs| ==> !Names(inputs[i], x.coords)) ==> x.value == None
    {
      var k :| 0 <= k < |cells| && cells[k] == x;
      CellIsExplained(r, inputs, d, cells, tuples, k);
    }
  }
}
