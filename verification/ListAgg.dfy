/**
 `vgi_listagg`: strings joined by commas, folded per partition and combined.
 */
module ListAgg {
  import opened Seqs

  /** One non-null value folded into a group's state; an empty state is simply replaced. */
  function Fold1(acc: string, v: string): string { if acc == "" then v else acc + "," + v }

  function FoldFrom(acc: string, vs: seq<string>): string
    decreases |vs|
  {
    if vs == [] then acc else FoldFrom(Fold1(acc, vs[0]), vs[1..])
  }

  function Fold(vs: seq<string>): string { FoldFrom("", vs) }

  /** The target comes before the source; an empty side yields to the other. */
  function Combine(src: string, tgt: string): string {
    if src != "" && tgt != "" then tgt + "," + src else if tgt != "" then tgt else src
  }

  /** A group's column with nulls skipped. */
  function Present(column: seq<Option<string>>): seq<string> {
    if column == [] then [] else (if column[0].Some? then [column[0].value] else []) + Present(column[1..])
  }

  /** A group's state after some values: it comes into being with the first one. */
  function Onto(state: Option<string>, vs: seq<string>): Option<string> {
    if vs == [] then state else Some(FoldFrom(Text(state), vs))
  }

  function Text(state: Option<string>): string { if state.Some? then state.value else "" }

  /** An update of one group; nulls never bring its state into being. */
  method Update(state: Option<string>, column: seq<Option<string>>) returns (s: Option<string>)
    ensures s == Onto(state, Present(column))
  {
    s := state;
    for i := 0 to |column|
      invariant Onto(s, Present(column[i..])) == Onto(state, Present(column))
    {
      assert column[i..][1..] == column[i+1..];
      if column[i].None? {
        assert Present(column[i..]) == Present(column[i+1..]);
        continue;
      }
      OntoNext(s, column[i].value, Present(column[i+1..]));
      var values := if s.Some? then s.value else "";
      s := Some(if values != "" then values + "," + column[i].value else column[i].value);
    }
  }

  lemma OntoNext(state: Option<string>, v: string, rest: seq<string>)
    ensures Onto(state, [v] + rest) == Onto(Some(Fold1(Text(state), v)), rest)
  {
    assert ([v] + rest)[1..] == rest;
    assert FoldFrom(Text(state), [v] + rest) == FoldFrom(Fold1(Text(state), v), rest);
  }

  /** One more cell: a null changes nothing, a value starts the text or is put behind a comma. */
  lemma {:induction false} CellOnto(state: Option<string>, column: seq<Option<string>>, cell: Option<string>)
    ensures Onto(state, Present([])) == state
    ensures var before := Onto(state, Present(column));
      Onto(state, Present(column + [cell])) ==
        match cell
        case None => before
        case Some(v) => Some(if before.None? || before.value == "" then v else before.value + "," + v)
  {
    PresentAppend(column, [cell]);
    assert Present([cell]) == (if cell.Some? then [cell.value] else []) + Present([]);
    if cell.None? {
      assert Present(column) + [] == Present(column);
    } else {
      var acc := FoldFrom(Text(state), Present(column));
      assert Present(column + [cell]) == Present(column) + [cell.value];
      FoldAppend(Text(state), Present(column), [cell.value]);
      assert [cell.value][1..] == [];
      assert FoldFrom(acc, [cell.value]) == FoldFrom(Fold1(acc, cell.value), []);
      assert Text(Onto(state, Present(column))) == acc;
    }
  }

  /** Merging two groups: an absent one counts as the initial state, two absent ones stay absent. */
  function Merge(src: Option<string>, tgt: Option<string>): Option<string> {
    if src.None? && tgt.None? then None else Some(Combine(Text(src), Text(tgt)))
  }

  lemma {:induction false} FoldAppend(acc: string, a: seq<string>, b: seq<string>)
    ensures FoldFrom(acc, a + b) == FoldFrom(FoldFrom(acc, a), b)
    decreases |a|
  {
    if a == [] {
      assert a + b == b;
    } else {
      assert (a + b)[1..] == a[1..] + b;
      FoldAppend(Fold1(acc, a[0]), a[1..], b);
    }
  }

  /** Folding onto a non-empty state appends the values, comma-separated, to it. */
  lemma {:induction false} FoldOnto(acc: string, v: string, vs: seq<string>)
    requires acc != "" && v != ""
    ensures FoldFrom(acc + "," + v, vs) == acc + "," + FoldFrom(v, vs)
    decreases |vs|
  {
    if vs != [] {
      FoldOnto(acc, v + "," + vs[0], vs[1..]);
      assert (acc + "," + v) + "," + vs[0] == acc + "," + (v + "," + vs[0]);
    }
  }

  lemma {:induction false} FoldGrows(acc: string, vs: seq<string>)
    ensures |FoldFrom(acc, vs)| >= |acc|
    decreases |vs|
  {
    if vs != [] { FoldGrows(Fold1(acc, vs[0]), vs[1..]); }
  }

  /** With a leading empty value, folding on writes one separator more than combining does. */
  lemma {:induction false} LeadingEmptyAddsMore(acc: string, vs: seq<string>)
    requires acc != ""
    ensures |FoldFrom(acc + ",", vs)| > |Combine(FoldFrom("", vs), acc)|
    decreases |vs|
  {
    if vs != [] {
      if vs[0] == "" {
        assert (acc + ",") + "," + "" == (acc + ",") + ",";
        LeadingEmptyAddsMore(acc, vs[1..]);
        FoldLonger(acc + ",", vs[1..]);
      } else {
        FoldGrows(vs[0], vs[1..]);
        FoldOnto(acc + ",", vs[0], vs[1..]);
      }
    }
  }

  /** A longer non-empty state stays longer by as much. */
  lemma {:induction false} FoldLonger(acc: string, vs: seq<string>)
    requires acc != ""
    ensures |FoldFrom(acc + ",", vs)| == |FoldFrom(acc, vs)| + 1
    decreases |vs|
  {
    if vs != [] { FoldLength(acc, vs); FoldLength(acc + ",", vs); }
  }

  function Lengths(vs: seq<string>): nat { if vs == [] then 0 else 1 + |vs[0]| + Lengths(vs[1..]) }

  lemma {:induction false} FoldLength(acc: string, vs: seq<string>)
    requires acc != ""
    ensures |FoldFrom(acc, vs)| == |acc| + Lengths(vs)
    decreases |vs|
  {
    if vs != [] { FoldLength(acc + "," + vs[0], vs[1..]); }
  }

  /**
   Folding two partitions and combining them equals folding the whole list exactly
   when the first is empty text, the second has no value, or its first value is not "".
   Otherwise it is shorter.
   */
  lemma CombineIsFoldIff(a: seq<string>, b: seq<string>)
    ensures Combine(Fold(b), Fold(a)) == Fold(a + b) <==> Fold(a) == "" || b == [] || b[0] != ""
    ensures Combine(Fold(b), Fold(a)) == Fold(a + b) || |Combine(Fold(b), Fold(a))| < |Fold(a + b)|
  {
    var acc := Fold(a);
    FoldAppend("", a, b);
    if acc != "" && b != [] {
      if b[0] != "" {
        FoldOnto(acc, b[0], b[1..]);
        FoldGrows(b[0], b[1..]);
      } else {
        assert acc + "," + "" == acc + ",";
        LeadingEmptyAddsMore(acc, b[1..]);
      }
    }
  }

  lemma {:induction false} FoldBound(vs: seq<string>)
    ensures vs != [] ==> |Fold(vs)| < Lengths(vs)
    decreases |vs|
  {
    if vs != [] {
      assert Fold(vs) == FoldFrom(vs[0], vs[1..]);
      if vs[0] == "" { FoldBound(vs[1..]); } else { FoldLength(vs[0], vs[1..]); }
    }
  }

  /** Text that is already too short never catches up. */
  lemma ShortStaysShort(short: string, a: seq<string>, b: seq<string>)
    requires short != "" && |short| < |Fold(a)|
    ensures Combine(Fold(b), short) != "" && |Combine(Fold(b), short)| < |Fold(a + b)|
  {
    FoldAppend("", a, b);
    FoldLength(Fold(a), b);
    FoldBound(b);
  }

  // ---- any number of partitions ------------------------------------------

  function MergeAll(parts: seq<seq<Option<string>>>): Option<string> {
    if parts == [] then None
    else Merge(Onto(None, Present(parts[|parts|-1])), MergeAll(parts[..|parts|-1]))
  }

  /** What a group is without any partitioning. */
  function Whole(parts: seq<seq<Option<string>>>): Option<string> { Onto(None, Present(Flatten(parts))) }

  /** Partition `k` does not put an empty string behind text. */
  predicate JoinsAt(parts: seq<seq<Option<string>>>, k: nat)
    requires k < |parts|
  {
    Text(Whole(parts[..k])) == "" || Present(parts[k]) == [] || Present(parts[k])[0] != ""
  }

  lemma {:induction false} PresentAppend(a: seq<Option<string>>, b: seq<Option<string>>)
    ensures Present(a + b) == Present(a) + Present(b)
  {
    if a == [] {
      assert a + b == b;
    } else {
      assert (a + b)[1..] == a[1..] + b;
      PresentAppend(a[1..], b);
    }
  }

  lemma WholeSnoc(parts: seq<seq<Option<string>>>, last: seq<Option<string>>)
    ensures Present(Flatten(parts + [last])) == Present(Flatten(parts)) + Present(last)
  {
    FlattenAppend(parts, [last]);
    assert Flatten([last]) == last + Flatten([]) == last;
    PresentAppend(Flatten(parts), last);
  }

  /**
   Partitioning is invisible exactly when no partition puts an empty string behind
   text; a group is null exactly when no partition has a value.
   */
  lemma {:induction false} PartitionsAgreeIff(parts: seq<seq<Option<string>>>)
    ensures MergeAll(parts) == Whole(parts) <==> forall k :: 0 <= k < |parts| ==> JoinsAt(parts, k)
    ensures MergeAll(parts).None? <==> Whole(parts).None?
    ensures MergeAll(parts) == Whole(parts)
      || (Text(MergeAll(parts)) != "" && |Text(MergeAll(parts))| < |Text(Whole(parts))|)
  {
    if parts != [] {
      var n := |parts| - 1;
      var init, a, b := parts[..n], Present(Flatten(parts[..n])), Present(parts[n]);
      assert parts == init + [parts[n]];
      PartitionsAgreeIff(init);
      WholeSnoc(init, parts[n]);
      forall k | 0 <= k < n ensures JoinsAt(parts, k) <==> JoinsAt(init, k) {
        assert parts[..k] == init[..k];
      }
      assert Text(Whole(init)) == Fold(a) && Text(Onto(None, b)) == Fold(b);
      assert JoinsAt(parts, n) <==> Fold(a) == "" || b == [] || b[0] != "";
      if forall k :: 0 <= k < n ==> JoinsAt(init, k) {
        assert forall k :: 0 <= k < n ==> JoinsAt(parts, k);
      }
      if MergeAll(init) == Whole(init) {
        CombineIsFoldIff(a, b);
        BothOrNeither(a, b);
      } else {
        ShortStaysShort(Text(MergeAll(init)), a, b);
        assert exists k :: 0 <= k < n && !JoinsAt(init, k);
      }
    }
  }

  /** Text that came out shorter is not empty. */
  lemma BothOrNeither(a: seq<string>, b: seq<string>)
    ensures Combine(Fold(b), Fold(a)) == "" ==> Fold(a + b) == ""
  {
    if Fold(a) == "" { FoldAppend("", a, b); }
  }

  /** On non-empty strings the aggregate does not depend on how an ordered list is partitioned. */
  lemma PartitionsDoNotMatter(parts: seq<seq<Option<string>>>)
    requires forall i, j :: 0 <= i < |parts| && 0 <= j < |parts[i]| ==> parts[i][j] != Some("")
    ensures MergeAll(parts) == Whole(parts)
  {
    forall k | 0 <= k < |parts| ensures JoinsAt(parts, k) { PresentNonEmpty(parts[k]); }
    PartitionsAgreeIff(parts);
  }

  lemma {:induction false} PresentNonEmpty(column: seq<Option<string>>)
    requires forall j :: 0 <= j < |column| ==> column[j] != Some("")
    ensures Present(column) != [] ==> Present(column)[0] != ""
  {
    if column != [] { PresentNonEmpty(column[1..]); }
  }
}
