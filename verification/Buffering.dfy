/**
 Sink, combine, source. Parallel sinks append to an execution's log, one combine
 rearranges it, and the source drains it one entry per tick from a cursor.
 */
module Buffering {
  import opened Seqs
  import opened Bytes

  /** One row of the append-only log; ids ascend over all namespaces together. */
  datatype LogRow = LogRow(id: nat, ns: string, blob: seq<Byte>)

  ghost predicate Ascending(log: seq<LogRow>) {
    forall i, j :: 0 <= i < j < |log| ==> log[i].id < log[j].id
  }

  /** The rows of a namespace after an id, in order. */
  function Scan(log: seq<LogRow>, ns: string, after: int): seq<LogRow> {
    if log == [] then []
    else (if log[0].ns == ns && log[0].id > after then [log[0]] else []) + Scan(log[1..], ns, after)
  }

  function Blobs(rows: seq<LogRow>): seq<seq<Byte>> { Map(rows, (r: LogRow) => r.blob) }

  lemma {:induction false} ScanAppend(a: seq<LogRow>, b: seq<LogRow>, ns: string, after: int)
    ensures Scan(a + b, ns, after) == Scan(a, ns, after) + Scan(b, ns, after)
  {
    if a == [] {
      assert a + b == b;
    } else {
      assert (a + b)[1..] == a[1..] + b;
      ScanAppend(a[1..], b, ns, after);
    }
  }

  lemma {:induction false} ScanMember(log: seq<LogRow>, ns: string, after: int)
    ensures forall r :: r in Scan(log, ns, after) ==> r in log && r.ns == ns && r.id > after
  {
    if log != [] { ScanMember(log[1..], ns, after); }
  }

  /** Resuming after the first row of a scan gives the rest of it. */
  lemma {:induction false} ScanResumes(log: seq<LogRow>, ns: string, after: int)
    requires Ascending(log) && Scan(log, ns, after) != []
    ensures Scan(log, ns, Scan(log, ns, after)[0].id) == Scan(log, ns, after)[1..]
    ensures Scan(log, ns, after)[0].id > after
  {
    var first := Scan(log, ns, after)[0];
    ScanMember(log, ns, after);
    if log[0].ns == ns && log[0].id > after {
      AllLater(log[1..], ns, after, log[0].id);
    } else {
      ScanResumes(log[1..], ns, after);
      ScanMember(log[1..], ns, after);
    }
  }

  lemma {:induction false} AllLater(log: seq<LogRow>, ns: string, a: int, b: int)
    requires a <= b && forall i :: 0 <= i < |log| ==> log[i].id > b
    ensures Scan(log, ns, a) == Scan(log, ns, b)
  {
    if log != [] { AllLater(log[1..], ns, a, b); }
  }

  /** The blobs of a namespace, in append order. */
  function Staged(log: seq<LogRow>, ns: string): seq<seq<Byte>> { Blobs(Scan(log, ns, -1)) }

  lemma StagedAppend(log: seq<LogRow>, r: LogRow, ns: string)
    ensures Staged(log + [r], ns) == if r.ns == ns then Staged(log, ns) + [r.blob] else Staged(log, ns)
  {
    ScanAppend(log, [r], ns, -1);
    assert Scan([r], ns, -1) == (if r.ns == ns then [r] else []) + Scan([], ns, -1);
  }

  // ---- ordering by batch index -------------------------------------------

  datatype Indexed = Indexed(index: int, bytes: seq<Byte>)

  function IndexOf(p: Indexed): int { p.index }

  function BytesOf(p: Indexed): seq<Byte> { p.bytes }

  function Pack(p: Indexed): (s: seq<Byte>)
    ensures |s| >= 8
  {
    Put64(p.index) + p.bytes
  }

  function Unpack(blob: seq<Byte>): Indexed
    requires |blob| >= 8
  {
    Indexed(GetI64(blob[..8]), blob[8..])
  }

  lemma UnpackPack(p: Indexed)
    requires FitsI64(p.index)
    ensures Unpack(Pack(p)) == p
  {
    I64RoundTrip(p.index);
    assert Pack(p)[..8] == Put64(p.index) && Pack(p)[8..] == p.bytes;
  }

  const UNSORTED := "unsorted"
  const BUF := "buf"

  ghost predicate FitsAll(arrived: seq<Indexed>) {
    forall i :: 0 <= i < |arrived| ==> FitsI64(arrived[i].index)
  }

  method UnpackAll(blobs: seq<seq<Byte>>, ghost packed: seq<Indexed>) returns (pairs: seq<Indexed>)
    requires blobs == Map(packed, Pack) && FitsAll(packed)
    ensures pairs == packed
  {
    pairs := [];
    for i := 0 to |blobs|
      invariant pairs == packed[..i]
    {
      UnpackPack(packed[i]);
      pairs := pairs + [Unpack(blobs[i])];
    }
  }

  /** An execution's log and the operations on it. */
  class Execution {
    var log: seq<LogRow>
    var nextId: nat

    ghost predicate Valid() reads this {
      Ascending(log) && forall i :: 0 <= i < |log| ==> log[i].id < nextId
    }

    constructor ()
      ensures Valid() && log == []
    {
      log, nextId := [], 0;
    }

    method Append(ns: string, blob: seq<Byte>)
      requires Valid()
      modifies this
      ensures Valid() && nextId == old(nextId) + 1
      ensures Staged(log, ns) == old(Staged(log, ns)) + [blob]
      ensures forall other :: other != ns ==> Staged(log, other) == old(Staged(log, other))
    {
      StagedAppend(log, LogRow(nextId, ns, blob), ns);
      forall other | other != ns ensures Staged(log + [LogRow(nextId, ns, blob)], other) == Staged(log, other) {
        StagedAppend(log, LogRow(nextId, ns, blob), other);
      }
      log := log + [LogRow(nextId, ns, blob)];
      nextId := nextId + 1;
    }

    /** One sink call of `batch_index_buffer_input`; a missing index is an error. */
    method Sink(index: Option<int>, batch: seq<Byte>) returns (ok: bool)
      requires Valid()
      modifies this
      ensures Valid() && ok == index.Some?
      ensures ok ==> Staged(log, UNSORTED) == old(Staged(log, UNSORTED)) + [Pack(Indexed(index.value, batch))]
      ensures ok ==> forall other :: other != UNSORTED ==> Staged(log, other) == old(Staged(log, other))
      ensures !ok ==> log == old(log)
    {
      if index.None? { return false; }
      Append(UNSORTED, Pack(Indexed(index.value, batch)));
      ok := true;
    }

    method Stage(pairs: seq<Indexed>)
      requires Valid() && Staged(log, BUF) == []
      modifies this
      ensures Valid() && Staged(log, BUF) == Map(pairs, BytesOf)
    {
      for i := 0 to |pairs|
        invariant Valid()
        invariant Staged(log, BUF) == Map(pairs, BytesOf)[..i]
      {
        Append(BUF, pairs[i].bytes);
      }
    }

    /** Sort what the sinks left by index and stage it for the source. */
    method Combine(ghost arrived: seq<Indexed>)
      requires Valid() && Staged(log, BUF) == [] && FitsAll(arrived)
      requires Staged(log, UNSORTED) == Map(arrived, Pack)
      modifies this
      ensures Valid()
      ensures Staged(log, BUF) == Map(StableSort(arrived, IndexOf), BytesOf)
    {
      var pairs := UnpackAll(Staged(log, UNSORTED), arrived);
      Stage(StableSort(pairs, IndexOf));
    }

    /** One source tick: the next staged entry after the cursor, or the end. */
    method Tick(ns: string, afterId: int) returns (out: Option<seq<Byte>>, afterId': int)
      requires Valid()
      ensures var rows := Scan(log, ns, afterId);
        if rows == [] then out == None && afterId' == afterId
        else out == Some(rows[0].blob) && afterId' == rows[0].id
    {
      var rows := Scan(log, ns, afterId);
      if rows == [] { return None, afterId; }
      out, afterId' := Some(rows[0].blob), rows[0].id;
    }

    /** Ticking until the end emits every entry of the namespace once, in append order. */
    method Drain(ns: string) returns (out: seq<seq<Byte>>)
      requires Valid()
      ensures out == Staged(log, ns)
    {
      out := [];
      var afterId := -1;
      var done := false;
      while !done
        invariant done ==> Scan(log, ns, afterId) == []
        invariant out + Blobs(Scan(log, ns, afterId)) == Blobs(Scan(log, ns, -1))
        decreases |Scan(log, ns, afterId)|, !done
      {
        ghost var rows := Scan(log, ns, afterId);
        var next;
        next, afterId := Tick(ns, afterId);
        if next.None? {
          done := true;
        } else {
          ScanResumesFrom(log, ns, rows, afterId);
          out := out + [next.value];
        }
      }
    }
  }

  lemma ScanResumesFrom(log: seq<LogRow>, ns: string, rows: seq<LogRow>, id: int)
    requires Ascending(log) && rows != [] && id == rows[0].id
    requires exists after :: rows == Scan(log, ns, after)
    ensures Scan(log, ns, id) == rows[1..]
    ensures Blobs(rows) == [rows[0].blob] + Blobs(rows[1..])
  {
    hide Scan, Ascending;
    var after :| rows == Scan(log, ns, after);
    ScanResumes(log, ns, after);
  }

  /**
   The whole operator: whatever order the sinks' batches arrived in, the source
   emits each of them once, ordered by batch index.
   */
  method BufferByIndex(arrived: seq<Indexed>) returns (out: seq<seq<Byte>>)
    requires FitsAll(arrived)
    ensures out == Map(StableSort(arrived, IndexOf), BytesOf)
  {
    var ex := new Execution();
    assert |UNSORTED| != |BUF|;
    for i := 0 to |arrived|
      invariant ex.Valid() && fresh(ex)
      invariant Staged(ex.log, UNSORTED) == Map(arrived, Pack)[..i]
      invariant Staged(ex.log, BUF) == []
    {
      var _ := ex.Sink(Some(arrived[i].index), arrived[i].bytes);
    }
    ex.Combine(arrived);
    out := ex.Drain(BUF);
  }

  /** With distinct indices, every arrival order of a source reproduces the source's order. */
  lemma ArrivalOrderDoesNotMatter(arrived: seq<Indexed>, source: seq<Indexed>)
    requires multiset(arrived) == multiset(source) && StrictlyBy(source, IndexOf)
    ensures Map(StableSort(arrived, IndexOf), BytesOf) == Map(source, BytesOf)
  {
    SortOfPermutation(arrived, source, IndexOf);
  }

  // ---- distributed sums --------------------------------------------------

  function Total(column: seq<Option<int>>): int {
    if column == [] then 0 else
      var last := column[|column|-1];
      Total(column[..|column|-1]) + if last.Some? then last.value else 0
  }

  /** A sink's partial sum of one integer column, nulls skipped. */
  method PartialSum(column: seq<Option<int>>) returns (sum: int)
    ensures sum == Total(column)
  {
    sum := 0;
    for i := 0 to |column|
      invariant sum == Total(column[..i])
    {
      assert column[..i+1][..i] == column[..i];
      if column[i].None? { continue; }
      sum := sum + column[i].value;
    }
    assert column[..|column|] == column;
  }

  lemma {:induction false} TotalAppend(a: seq<Option<int>>, b: seq<Option<int>>)
    ensures Total(a + b) == Total(a) + Total(b)
  {
    if b == [] {
      assert a + b == a;
    } else {
      assert (a + b)[..|a + b|-1] == a + b[..|b|-1];
      TotalAppend(a, b[..|b|-1]);
    }
  }

  /** A null adds nothing to a sum, a number itself. */
  lemma TotalOfOne(cell: Option<int>)
    ensures Total([cell]) == match cell case None => 0 case Some(v) => v
  {
    assert [cell][..0] == [];
  }

  const PARTIAL := "partial"

  /** One cell of an Int64 column. */
  function Cell(v: int): seq<Byte> { Put64(v) }

  /** The sum of what the cells hold. */
  function CellSum(cells: seq<seq<Byte>>): int
    requires forall i :: 0 <= i < |cells| ==> |cells[i]| == 8
  {
    if cells == [] then 0 else CellSum(cells[..|cells|-1]) + GetI64(cells[|cells|-1])
  }

  method AddCells(cells: seq<seq<Byte>>) returns (merged: int)
    requires forall i :: 0 <= i < |cells| ==> |cells[i]| == 8
    ensures merged == CellSum(cells)
  {
    merged := 0;
    for i := 0 to |cells|
      invariant merged == CellSum(cells[..i])
    {
      assert cells[..i+1][..i] == cells[..i];
      merged := merged + GetI64(cells[i]);
    }
    assert cells[..|cells|] == cells;
  }

  /** Equal modulo 2^64. */
  ghost predicate Congruent(a: int, b: int) { exists k: int :: a - b == k * TWO_64 }

  lemma CongruentAdd(a: int, b: int, c: int, d: int)
    requires Congruent(a, b) && Congruent(c, d)
    ensures Congruent(a + c, b + d)
  {
    var k :| a - b == k * TWO_64;
    var m :| c - d == m * TWO_64;
    assert (a + c) - (b + d) == (k + m) * TWO_64;
  }

  lemma CellIsCongruent(v: int)
    ensures FitsI64(GetI64(Cell(v))) && Congruent(GetI64(Cell(v)), v)
  {
    I64Wraps(v);
    var u := GetI64(Cell(v));
    assert u - v == (if v % TWO_64 < TWO_63 then -(v / TWO_64) else -(v / TWO_64) - 1) * TWO_64;
  }

  /** Two 64-bit values are congruent only when equal. */
  lemma CongruentFits(a: int, b: int)
    requires Congruent(a, b) && FitsI64(a) && FitsI64(b)
    ensures a == b
  {
  }

  /** One sink call: the batch's partial sum, as a cell of the log. */
  method SinkPartial(ex: Execution, batch: seq<Option<int>>)
    requires ex.Valid()
    modifies ex
    ensures ex.Valid() && Staged(ex.log, PARTIAL) == old(Staged(ex.log, PARTIAL)) + [Cell(Total(batch))]
    ensures forall other :: other != PARTIAL ==> Staged(ex.log, other) == old(Staged(ex.log, other))
  {
    var sum := PartialSum(batch);
    ex.Append(PARTIAL, Cell(sum));
  }

  lemma NextPartial(batches: seq<seq<Option<int>>>, cells: seq<seq<Byte>>, i: nat)
    requires i < |batches| && forall k :: 0 <= k < |cells| ==> |cells[k]| == 8
    requires Congruent(CellSum(cells), Total(Flatten(batches[..i])))
    ensures Congruent(CellSum(cells + [Cell(Total(batches[i]))]), Total(Flatten(batches[..i+1])))
  {
    var more := cells + [Cell(Total(batches[i]))];
    assert more[..|cells|] == cells;
    CellIsCongruent(Total(batches[i]));
    assert batches[..i+1] == batches[..i] + [batches[i]];
    FlattenAppend(batches[..i], [batches[i]]);
    assert Flatten([batches[i]]) == batches[i] + Flatten([]) == batches[i];
    TotalAppend(Flatten(batches[..i]), batches[i]);
    CongruentAdd(CellSum(cells), Total(Flatten(batches[..i])), GetI64(Cell(Total(batches[i]))), Total(batches[i]));
  }

  /**
   Sink, combine, source: the one value emitted is the sum over all the input modulo
   2^64, however it was batched and whichever partial sums overflowed; so it is the
   sum exactly when the sum fits a cell.
   */
  method SumColumn(batches: seq<seq<Option<int>>>) returns (merged: int)
    ensures FitsI64(merged) && Congruent(merged, Total(Flatten(batches)))
    ensures merged == Total(Flatten(batches)) <==> FitsI64(Total(Flatten(batches)))
  {
    var ex := new Execution();
    SinkAll(ex, batches);
    var sum := AddCells(Staged(ex.log, PARTIAL));
    ex.Append(BUF, Cell(sum));
    var out := ex.Drain(BUF);
    assert out == [Cell(sum)];
    merged := GetI64(out[0]);
    CellIsCongruent(sum);
    CongruentTrans(merged, sum, Total(Flatten(batches)));
    if FitsI64(Total(Flatten(batches))) { CongruentFits(merged, Total(Flatten(batches))); }
  }

  method SinkAll(ex: Execution, batches: seq<seq<Option<int>>>)
    requires ex.Valid() && Staged(ex.log, PARTIAL) == [] == Staged(ex.log, BUF)
    modifies ex
    ensures ex.Valid() && Staged(ex.log, BUF) == []
    ensures forall k :: 0 <= k < |Staged(ex.log, PARTIAL)| ==> |Staged(ex.log, PARTIAL)[k]| == 8
    ensures Congruent(CellSum(Staged(ex.log, PARTIAL)), Total(Flatten(batches)))
  {
    hide Staged, Congruent;
    assert |PARTIAL| != |BUF|;
    NothingSunk(batches);
    for i := 0 to |batches|
      invariant ex.Valid() && Staged(ex.log, BUF) == []
      invariant forall k :: 0 <= k < |Staged(ex.log, PARTIAL)| ==> |Staged(ex.log, PARTIAL)[k]| == 8
      invariant Congruent(CellSum(Staged(ex.log, PARTIAL)), Total(Flatten(batches[..i])))
    {
      NextPartial(batches, Staged(ex.log, PARTIAL), i);
      SinkPartial(ex, batches[i]);
    }
    assert batches[..|batches|] == batches;
  }

  lemma NothingSunk(batches: seq<seq<Option<int>>>)
    ensures Congruent(CellSum([]), Total(Flatten(batches[..0])))
  {
    assert 0 - 0 == 0 * TWO_64;
  }

  lemma CongruentTrans(a: int, b: int, c: int)
    requires Congruent(a, b) && Congruent(b, c)
    ensures Congruent(a, c)
  {
    var k :| a - b == k * TWO_64;
    var m :| b - c == m * TWO_64;
    assert a - c == (k + m) * TWO_64;
  }
}
