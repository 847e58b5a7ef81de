/**
 Fan-out over a shared work queue. Setup queues fixed-size chunks; any number of
 workers pop chunks first-in first-out and emit batches tagged with the chunk's
 partition id; a replay sorts the captured substreams by that tag.
 */
module WorkQueue {
  import opened Seqs

  datatype Chunk = Chunk(pid: nat, start: int, end: int)

  datatype Batch = Batch(pid: int, rows: seq<int>)

  function ChunkPid(c: Chunk): int { c.pid }

  function BatchPid(b: Batch): int { b.pid }

  function BatchRows(b: Batch): seq<int> { b.rows }

  // ---- filling the queue -------------------------------------------------

  /** Chunks of `size` rows covering `[start, rows)`, numbered from `pid`. */
  function ChunksFrom(rows: int, size: nat, pid: nat, start: int): seq<Chunk>
    requires size > 0
    decreases rows - start
  {
    if start >= rows then [] else
      [Chunk(pid, start, Min(start + size, rows))] + ChunksFrom(rows, size, pid + 1, start + size)
  }

  function Chunks(rows: int, size: nat): seq<Chunk>
    requires size > 0
  {
    ChunksFrom(rows, size, 0, 0)
  }

  /** Queue the work; a scan never has more readers than chunks, and at least one. */
  method OnInit(rows: int, size: nat) returns (items: seq<Chunk>, maxWorkers: nat)
    requires size > 0
    ensures items == Chunks(rows, size)
    ensures maxWorkers == Max(1, |items|)
  {
    items := [];
    var pid, start := 0, 0;
    while start < rows
      invariant items + ChunksFrom(rows, size, pid, start) == Chunks(rows, size)
    {
      assert items + ([Chunk(pid, start, Min(start + size, rows))] + ChunksFrom(rows, size, pid + 1, start + size))
          == (items + [Chunk(pid, start, Min(start + size, rows))]) + ChunksFrom(rows, size, pid + 1, start + size);
      items := items + [Chunk(pid, start, Min(start + size, rows))];
      pid := pid + 1;
      start := start + size;
    }
    maxWorkers := Max(1, |items|);
  }

  /** Chunk `i` carries id `i`, no chunk is empty, and there are `ceil(rows / size)` of them. */
  lemma {:induction false} ChunkFacts(rows: int, size: nat, pid: nat, start: int)
    requires size > 0
    ensures var cs := ChunksFrom(rows, size, pid, start);
      forall i :: 0 <= i < |cs| ==> cs[i].pid == pid + i && cs[i].start < cs[i].end
    ensures var k := |ChunksFrom(rows, size, pid, start)|;
      start < rows ==> (k - 1) * size < rows - start <= k * size
    decreases rows - start
  {
    if start < rows {
      ChunkFacts(rows, size, pid + 1, start + size);
      var rest := ChunksFrom(rows, size, pid + 1, start + size);
      if start + size < rows {
        assert |rest| * size == (|rest| - 1) * size + size;
        assert (|rest| + 1) * size == |rest| * size + size;
      } else {
        assert rest == [];
      }
    }
  }

  /** Chunk `i` holds the `i`-th run of `size` rows; only the last may be shorter. */
  lemma {:induction false} ChunkSizes(rows: int, size: nat, pid: nat, start: int, i: nat)
    requires size > 0 && i < |ChunksFrom(rows, size, pid, start)|
    ensures var c := ChunksFrom(rows, size, pid, start)[i];
      c == Chunk(pid + i, start + i * size, Min(start + i * size + size, rows)) && c.start < rows
    decreases i
  {
    if i > 0 {
      ChunkSizes(rows, size, pid + 1, start + size, i - 1);
      assert i * size == (i - 1) * size + size;
    }
  }

  /** `cache_parallel` sizes its chunks so that at most 24 are queued. */
  lemma AtMostTwentyFour(rows: nat)
    ensures |Chunks(rows, Max(1, CeilDiv(rows, 24)))| <= 24
  {
    var size := Max(1, CeilDiv(rows, 24));
    ChunkFacts(rows, size, 0, 0);
    if rows > 0 {
      assert rows <= 24 * size;
    }
  }

  // ---- one worker --------------------------------------------------------

  /** A worker that never popped has no partition and an empty current chunk. */
  datatype Worker = Worker(partitionId: Option<nat>, currentStart: int, currentEnd: int, currentIdx: int) {
    predicate NeedsWork() { partitionId.None? || currentIdx >= currentEnd }
  }

  const FRESH := Worker(None, 0, 0, 0)

  function Load(c: Chunk): Worker { Worker(Some(c.pid), c.start, c.end, c.start) }

  /** Emit the next `size` rows of the current chunk. */
  function Emit(w: Worker, size: nat): (Worker, Batch)
    requires w.partitionId.Some?
  {
    var batchEnd := Min(w.currentIdx + size, w.currentEnd);
    (w.(currentIdx := batchEnd), Batch(w.partitionId.value, Interval(w.currentIdx, batchEnd)))
  }

  /** One process call against the shared queue: `None` is end of stream. */
  function Process(w: Worker, queue: seq<Chunk>, size: nat): (Worker, seq<Chunk>, Option<Batch>) {
    if !w.NeedsWork() then
      var (w', b) := Emit(w, size);
      (w', queue, Some(b))
    else if queue == [] then (w, queue, None)
    else
      var (w', b) := Emit(Load(queue[0]), size);
      (w', queue[1..], Some(b))
  }

  /** The execution-scoped queue; popping is atomic and first-in first-out. */
  class SharedQueue {
    var items: seq<Chunk>

    constructor (work: seq<Chunk>)
      ensures items == work
    {
      items := work;
    }

    method Pop() returns (item: Option<Chunk>)
      modifies this
      ensures old(items) == [] ==> item == None && items == []
      ensures old(items) != [] ==> item == Some(old(items)[0]) && items == old(items)[1..]
    {
      if items == [] { return None; }
      item := Some(items[0]);
      items := items[1..];
    }
  }

  class QueueWorker {
    var partitionId: Option<nat>
    var currentStart: int
    var currentEnd: int
    var currentIdx: int
    var advertised: bool

    ghost function State(): Worker reads this { Worker(partitionId, currentStart, currentEnd, currentIdx) }

    constructor ()
      ensures State() == FRESH && !advertised
    {
      partitionId, currentStart, currentEnd, currentIdx := None, 0, 0, 0;
      advertised := false;
    }

    /** Emit one batch; only a worker's first advertises the cache lifetime, if the function has one. */
    method ProcessCall(queue: SharedQueue, size: nat, cacheTtl: Option<nat>)
      returns (out: Option<Batch>, ttl: Option<nat>)
      modifies this, queue
      ensures (State(), queue.items, out) == Process(old(State()), old(queue.items), size)
      ensures ttl == if out.Some? && !old(advertised) then cacheTtl else None
      ensures advertised == (old(advertised) || out.Some?)
    {
      ttl := None;
      if partitionId.None? || currentIdx >= currentEnd {
        var item := queue.Pop();
        if item.None? { return None, None; }
        partitionId := Some(item.value.pid);
        currentStart := item.value.start;
        currentEnd := item.value.end;
        currentIdx := item.value.start;
      }
      var batchEnd := Min(currentIdx + size, currentEnd);
      var values := [];
      var i := currentIdx;
      while i < batchEnd
        invariant currentIdx <= i
        invariant i <= batchEnd || (i == currentIdx && batchEnd < i)
        invariant values == Interval(currentIdx, i)
      {
        values := values + [i];
        i := i + 1;
      }
      out := Some(Batch(partitionId.value, values));
      if !advertised { ttl := cacheTtl; }
      advertised := true;
      currentIdx := batchEnd;
    }
  }

  // ---- what a chunk is worth ---------------------------------------------

  function Pieces(pid: int, cur: int, end: int, size: nat): seq<Batch>
    requires size > 0
    decreases end - cur
  {
    if cur >= end then [] else
      var next := Min(cur + size, end);
      [Batch(pid, Interval(cur, next))] + Pieces(pid, next, end, size)
  }

  function Drain(size: nat): Chunk -> seq<Batch>
    requires size > 0
  {
    (c: Chunk) => Pieces(c.pid, c.start, c.end, size)
  }

  function BatchesOf(cs: seq<Chunk>, size: nat): seq<Batch>
    requires size > 0
  {
    FlatMap(cs, Drain(size))
  }

  /** What the worker's current chunk still owes. */
  function Left(w: Worker, size: nat): seq<Batch>
    requires size > 0
  {
    if w.partitionId.None? then [] else Pieces(w.partitionId.value, w.currentIdx, w.currentEnd, size)
  }

  lemma {:induction false} PiecesFacts(pid: int, cur: int, end: int, size: nat)
    requires size > 0
    ensures FlatMap(Pieces(pid, cur, end, size), BatchRows) == Interval(cur, end)
    ensures forall i :: 0 <= i < |Pieces(pid, cur, end, size)| ==> Pieces(pid, cur, end, size)[i].pid == pid
    decreases end - cur
  {
    if cur < end {
      var next := Min(cur + size, end);
      PiecesFacts(pid, next, end, size);
      assert Pieces(pid, cur, end, size)[1..] == Pieces(pid, next, end, size);
      IntervalSplit(cur, next, end);
    }
  }

  /** A chunk is emitted in batches of `size` rows; only its last may be shorter, and none is empty. */
  lemma {:induction false} PieceSizes(pid: int, cur: int, end: int, size: nat, i: nat)
    requires size > 0 && i < |Pieces(pid, cur, end, size)|
    ensures var ps := Pieces(pid, cur, end, size);
      if i + 1 < |ps| then |ps[i].rows| == size else 0 < |ps[i].rows| <= size
    decreases i
  {
    if i > 0 { PieceSizes(pid, Min(cur + size, end), end, size, i - 1); }
  }

  // ---- the whole scan ----------------------------------------------------

  /** `claimed` and `streams` record what each worker popped and emitted. */
  datatype Scan = Scan(queue: seq<Chunk>, workers: seq<Worker>, claimed: seq<seq<Chunk>>, streams: seq<seq<Batch>>)

  function Start(work: seq<Chunk>, workers: nat): Scan {
    Scan(work, seq(workers, i => FRESH), seq(workers, i => []), seq(workers, i => []))
  }

  predicate Aligned(s: Scan) { |s.workers| == |s.claimed| == |s.streams| }

  /** Worker `i` makes one process call. */
  function Call(s: Scan, i: nat, size: nat): Scan
    requires Aligned(s) && i < |s.workers|
  {
    var (w', queue', out) := Process(s.workers[i], s.queue, size);
    var popped := s.queue[..|s.queue| - |queue'|];
    Scan(queue', s.workers[i := w'],
         s.claimed[i := s.claimed[i] + popped],
         s.streams[i := s.streams[i] + (if out.Some? then [out.value] else [])])
  }

  predicate Names(schedule: seq<nat>, workers: nat) {
    forall k :: 0 <= k < |schedule| ==> schedule[k] < workers
  }

  /** Any interleaving of process calls, named by worker. */
  function Run(s: Scan, schedule: seq<nat>, size: nat): (s': Scan)
    requires Aligned(s) && Names(schedule, |s.workers|)
    ensures Aligned(s') && |s'.workers| == |s.workers|
    decreases |schedule|
  {
    if schedule == [] then s else Run(Call(s, schedule[0], size), schedule[1..], size)
  }

  ghost predicate Numbered(work: seq<Chunk>) {
    forall i :: 0 <= i < |work| ==> work[i].pid == i && work[i].start < work[i].end
  }

  ghost predicate Accounted(s: Scan, i: nat, size: nat)
    requires size > 0 && Aligned(s) && i < |s.workers|
  {
    && s.streams[i] + Left(s.workers[i], size) == BatchesOf(s.claimed[i], size)
    && StrictlyBy(s.claimed[i], ChunkPid)
    && forall c :: c in s.claimed[i] && s.queue != [] ==> c.pid < s.queue[0].pid
  }

  /** The queue is what is left of the work; everything popped is accounted for by its worker. */
  ghost predicate Inv(work: seq<Chunk>, s: Scan, size: nat)
    requires size > 0
  {
    && Aligned(s)
    && |s.queue| <= |work| && s.queue == work[|work| - |s.queue|..]
    && multiset(Flatten(s.claimed)) + multiset(s.queue) == multiset(work)
    && forall i :: 0 <= i < |s.workers| ==> Accounted(s, i, size)
  }

  lemma StartInv(work: seq<Chunk>, workers: nat, size: nat)
    requires size > 0
    ensures Inv(work, Start(work, workers), size)
  {
    FlattenEmpty<Chunk>(workers);
  }

  lemma LoadedBatches(c: Chunk, claimed: seq<Chunk>, size: nat)
    requires size > 0
    ensures BatchesOf(claimed + [c], size) == BatchesOf(claimed, size) + Left(Load(c), size)
  {
    FlatMapAppend(claimed, [c], Drain(size));
    assert FlatMap([c], Drain(size)) == Drain(size)(c) + FlatMap([], Drain(size));
  }

  lemma EmitTakesHead(w: Worker, size: nat)
    requires size > 0 && !w.NeedsWork()
    ensures Left(w, size) == [Emit(w, size).1] + Left(Emit(w, size).0, size)
  {
  }

  /** A popped chunk's id is above those popped before and below those still queued. */
  lemma PopAscends(work: seq<Chunk>, queue: seq<Chunk>, claimed: seq<Chunk>)
    requires Numbered(work) && 0 < |queue| <= |work| && queue == work[|work| - |queue|..]
    requires StrictlyBy(claimed, ChunkPid) && forall c :: c in claimed ==> c.pid < queue[0].pid
    ensures StrictlyBy(claimed + [queue[0]], ChunkPid)
    ensures forall c :: c in claimed + [queue[0]] && queue[1..] != [] ==> c.pid < queue[1..][0].pid
    ensures queue[0].start < queue[0].end
  {
    var k := |work| - |queue|;
    assert queue[0] == work[k];
    if queue[1..] != [] { assert queue[1..][0] == work[k+1]; }
  }

  lemma PopKeepsOwner(work: seq<Chunk>, s: Scan, i: nat, size: nat)
    requires size > 0 && Numbered(work) && Inv(work, s, size) && i < |s.workers|
    requires s.workers[i].NeedsWork() && s.queue != []
    ensures Accounted(Call(s, i, size), i, size)
  {
    var c, claimed := s.queue[0], s.claimed[i];
    assert Accounted(s, i, size) && Left(s.workers[i], size) == [];
    assert s.streams[i] + [] == s.streams[i];
    assert s.queue[..1] == [c];
    PopAscends(work, s.queue, claimed);
    LoadedBatches(c, claimed, size);
    EmitTakesHead(Load(c), size);
    hide BatchesOf, Left, Emit, StrictlyBy, Inv, Numbered;
    var (w, b) := Emit(Load(c), size);
    Assoc(s.streams[i], [b], Left(w, size));
  }

  lemma CallKeepsOwner(work: seq<Chunk>, s: Scan, i: nat, size: nat)
    requires size > 0 && Numbered(work) && Inv(work, s, size) && i < |s.workers|
    ensures Accounted(Call(s, i, size), i, size)
  {
    if s.workers[i].NeedsWork() && s.queue != [] {
      PopKeepsOwner(work, s, i, size);
    } else {
      assert Accounted(s, i, size);
      assert s.queue[..0] == [] && s.claimed[i] + [] == s.claimed[i];
    }
  }

  lemma CallKeepsWork(work: seq<Chunk>, s: Scan, i: nat, size: nat)
    requires size > 0 && Inv(work, s, size) && i < |s.workers|
    ensures var s' := Call(s, i, size);
      && |s'.queue| <= |work| && s'.queue == work[|work| - |s'.queue|..]
      && multiset(Flatten(s'.claimed)) + multiset(s'.queue) == multiset(work)
  {
    var s' := Call(s, i, size);
    var popped := s.queue[..|s.queue| - |s'.queue|];
    assert s.queue == popped + s'.queue;
    FlattenGrow(s.claimed, i, popped);
  }

  lemma CallKeepsInv(work: seq<Chunk>, s: Scan, i: nat, size: nat)
    requires size > 0 && Numbered(work) && Inv(work, s, size) && i < |s.workers|
    ensures Inv(work, Call(s, i, size), size)
  {
    var s' := Call(s, i, size);
    CallKeepsWork(work, s, i, size);
    CallKeepsOwner(work, s, i, size);
    forall j | 0 <= j < |s'.workers| && j != i ensures Accounted(s', j, size) {
      assert Accounted(s, j, size);
      if s'.queue != [] {
        assert s.queue[0] == work[|work| - |s.queue|] && s'.queue[0] == work[|work| - |s'.queue|];
      }
    }
  }

  lemma {:induction false} RunKeepsInv(work: seq<Chunk>, s: Scan, schedule: seq<nat>, size: nat)
    requires size > 0 && Numbered(work) && Inv(work, s, size)
    requires Names(schedule, |s.workers|)
    ensures Inv(work, Run(s, schedule, size), size)
    decreases |schedule|
  {
    if schedule != [] {
      CallKeepsInv(work, s, schedule[0], size);
      RunKeepsInv(work, Call(s, schedule[0], size), schedule[1..], size);
    }
  }

  ghost predicate Complete(s: Scan) {
    s.queue == [] && forall i :: 0 <= i < |s.workers| ==> s.workers[i].NeedsWork()
  }

  // ---- order -------------------------------------------------------------

  lemma {:induction false} BatchesAscend(cs: seq<Chunk>, size: nat)
    requires size > 0 && StrictlyBy(cs, ChunkPid)
    ensures SortedBy(BatchesOf(cs, size), BatchPid)
    ensures forall b :: b in BatchesOf(cs, size) ==> cs != [] && cs[0].pid <= b.pid
  {
    if cs != [] {
      BatchesAscend(cs[1..], size);
      PiecesFacts(cs[0].pid, cs[0].start, cs[0].end, size);
      var head, tail := Drain(size)(cs[0]), BatchesOf(cs[1..], size);
      forall i, j | 0 <= i < j < |head + tail|
        ensures BatchPid((head + tail)[i]) <= BatchPid((head + tail)[j])
      {
        if i < |head| <= j { assert tail[j - |head|] in tail; }
      }
    }
  }

  lemma ChunksNumbered(rows: int, chunk: nat)
    requires chunk > 0
    ensures Numbered(Chunks(rows, chunk)) && StrictlyBy(Chunks(rows, chunk), ChunkPid)
  {
    ChunkFacts(rows, chunk, 0, 0);
  }

  lemma ReachableInv(rows: int, chunk: nat, size: nat, workers: nat, schedule: seq<nat>)
    requires chunk > 0 && size > 0 && Names(schedule, workers)
    ensures Inv(Chunks(rows, chunk), Run(Start(Chunks(rows, chunk), workers), schedule, size), size)
  {
    ChunksNumbered(rows, chunk);
    StartInv(Chunks(rows, chunk), workers, size);
    RunKeepsInv(Chunks(rows, chunk), Start(Chunks(rows, chunk), workers), schedule, size);
  }

  lemma PrefixSorted(prefix: seq<Batch>, rest: seq<Batch>)
    requires SortedBy(prefix + rest, BatchPid)
    ensures SortedBy(prefix, BatchPid)
  {
    forall j, k | 0 <= j < k < |prefix| ensures BatchPid(prefix[j]) <= BatchPid(prefix[k]) {
      assert (prefix + rest)[j] == prefix[j] && (prefix + rest)[k] == prefix[k];
    }
  }

  /** At every moment of every interleaving, each worker's tags never decrease. */
  lemma StreamTagsNeverDecrease(rows: int, chunk: nat, size: nat, workers: nat, schedule: seq<nat>, i: nat)
    requires chunk > 0 && size > 0 && i < workers && Names(schedule, workers)
    ensures SortedBy(Run(Start(Chunks(rows, chunk), workers), schedule, size).streams[i], BatchPid)
  {
    hide Run, BatchesOf, Left, SortedBy, ChunksFrom;
    ReachableInv(rows, chunk, size, workers, schedule);
    var s := Run(Start(Chunks(rows, chunk), workers), schedule, size);
    assert Accounted(s, i, size);
    BatchesAscend(s.claimed[i], size);
    PrefixSorted(s.streams[i], Left(s.workers[i], size));
  }

  lemma {:induction false} CompleteStreams(claimed: seq<seq<Chunk>>, streams: seq<seq<Batch>>, size: nat)
    requires size > 0 && |claimed| == |streams|
    requires forall i :: 0 <= i < |claimed| ==> streams[i] == BatchesOf(claimed[i], size)
    ensures Flatten(streams) == BatchesOf(Flatten(claimed), size)
  {
    if claimed != [] {
      CompleteStreams(claimed[1..], streams[1..], size);
      FlatMapAppend(claimed[0], Flatten(claimed[1..]), Drain(size));
    }
  }

  /** The batches tagged `k` are those of the chunks with id `k`. */
  lemma {:induction false} TagSelectsChunks(cs: seq<Chunk>, size: nat, k: int)
    requires size > 0
    ensures WithKey(BatchesOf(cs, size), BatchPid, k) == BatchesOf(WithKey(cs, ChunkPid, k), size)
  {
    if cs != [] {
      var head := Drain(size)(cs[0]);
      TagSelectsChunks(cs[1..], size, k);
      WithKeyAppend(head, BatchesOf(cs[1..], size), BatchPid, k);
      PiecesFacts(cs[0].pid, cs[0].start, cs[0].end, size);
      if cs[0].pid == k {
        WithKeyAll(head, BatchPid, k);
        assert WithKey(cs, ChunkPid, k) == [cs[0]] + WithKey(cs[1..], ChunkPid, k);
        FlatMapAppend([cs[0]], WithKey(cs[1..], ChunkPid, k), Drain(size));
        assert FlatMap([cs[0]], Drain(size)) == head + FlatMap([], Drain(size));
      } else {
        WithKeyNone(head, BatchPid, k);
        assert WithKey(cs, ChunkPid, k) == WithKey(cs[1..], ChunkPid, k);
      }
    }
  }

  lemma {:induction false} OneChunkPerId(cs: seq<Chunk>, k: int)
    requires StrictlyBy(cs, ChunkPid)
    ensures |WithKey(cs, ChunkPid, k)| <= 1
  {
    if cs != [] {
      OneChunkPerId(cs[1..], k);
      if cs[0].pid == k { WithKeyNone(cs[1..], ChunkPid, k); }
    }
  }

  /** Sorting the batches of the chunks in any order restores the queue's order. */
  lemma SortRestoresQueueOrder(cs: seq<Chunk>, work: seq<Chunk>, size: nat)
    requires size > 0 && multiset(cs) == multiset(work) && StrictlyBy(work, ChunkPid)
    ensures StableSort(BatchesOf(cs, size), BatchPid) == BatchesOf(work, size)
  {
    var sorted := StableSort(BatchesOf(cs, size), BatchPid);
    StableSortFacts(BatchesOf(cs, size), BatchPid);
    BatchesAscend(work, size);
    forall k ensures WithKey(sorted, BatchPid, k) == WithKey(BatchesOf(work, size), BatchPid, k) {
      TagSelectsChunks(cs, size, k);
      TagSelectsChunks(work, size, k);
      WithKeyPerm(cs, work, ChunkPid, k);
      OneChunkPerId(work, k);
      SingletonBag(WithKey(cs, ChunkPid, k), WithKey(work, ChunkPid, k));
    }
    SortedStableUnique(sorted, BatchesOf(work, size), BatchPid);
  }

  lemma SingletonBag<T>(a: seq<T>, b: seq<T>)
    requires multiset(a) == multiset(b) && |b| <= 1
    ensures a == b
  {
    assert |a| == |multiset(b)| == |b|;
    if |b| == 1 { assert a[0] in multiset(b); }
  }

  lemma {:induction false} ChunkRows(rows: int, chunk: nat, size: nat, pid: nat, start: int)
    requires chunk > 0 && size > 0
    ensures FlatMap(BatchesOf(ChunksFrom(rows, chunk, pid, start), size), BatchRows) == Interval(start, rows)
    decreases rows - start
  {
    if start < rows {
      var end := Min(start + chunk, rows);
      ChunkRows(rows, chunk, size, pid + 1, start + chunk);
      PiecesFacts(pid, start, end, size);
      var rest := ChunksFrom(rows, chunk, pid + 1, start + chunk);
      assert ChunksFrom(rows, chunk, pid, start)[1..] == rest;
      FlatMapAppend(Pieces(pid, start, end, size), BatchesOf(rest, size), BatchRows);
      IntervalSplit(start, end, rows);
    }
  }

  /**
   Ordered replay: for any number of workers and any interleaving, sorting the
   concatenated substreams by tag restores `0 .. rows-1`, each row once, in order.
   */
  lemma ReplayRestoresOrder(rows: int, chunk: nat, size: nat, workers: nat, schedule: seq<nat>)
    requires chunk > 0 && size > 0 && Names(schedule, workers)
    requires Complete(Run(Start(Chunks(rows, chunk), workers), schedule, size))
    ensures var s := Run(Start(Chunks(rows, chunk), workers), schedule, size);
      var replay := StableSort(Flatten(s.streams), BatchPid);
      replay == BatchesOf(Chunks(rows, chunk), size) && FlatMap(replay, BatchRows) == Interval(0, rows)
  {
    hide Run, BatchesOf, StableSort, FlatMap, Flatten, ChunksFrom, Inv, Complete, StrictlyBy;
    var work := Chunks(rows, chunk);
    ChunksNumbered(rows, chunk);
    ReachableInv(rows, chunk, size, workers, schedule);
    var s := Run(Start(work, workers), schedule, size);
    CompleteIsPermutation(work, s, size);
    SortRestoresQueueOrder(Flatten(s.claimed), work, size);
    ChunkRows(rows, chunk, size, 0, 0);
  }

  lemma CompleteIsPermutation(work: seq<Chunk>, s: Scan, size: nat)
    requires size > 0 && Inv(work, s, size) && Complete(s)
    ensures Flatten(s.streams) == BatchesOf(Flatten(s.claimed), size)
    ensures multiset(Flatten(s.claimed)) == multiset(work)
  {
    forall i | 0 <= i < |s.workers| ensures s.streams[i] == BatchesOf(s.claimed[i], size) {
      assert Accounted(s, i, size) && s.workers[i].NeedsWork();
      assert s.streams[i] + [] == s.streams[i];
    }
    CompleteStreams(s.claimed, s.streams, size);
  }

  /** Without tags the rows are still read exactly once (`cache_parallel`). */
  lemma RowsReadOnce(rows: int, chunk: nat, size: nat, workers: nat, schedule: seq<nat>)
    requires chunk > 0 && size > 0 && Names(schedule, workers)
    requires Complete(Run(Start(Chunks(rows, chunk), workers), schedule, size))
    ensures var s := Run(Start(Chunks(rows, chunk), workers), schedule, size);
      multiset(FlatMap(Flatten(s.streams), BatchRows)) == multiset(Interval(0, rows))
  {
    ReplayRestoresOrder(rows, chunk, size, workers, schedule);
    var emitted := Flatten(Run(Start(Chunks(rows, chunk), workers), schedule, size).streams);
    StableSortFacts(emitted, BatchPid);
    FlatMapPerm(emitted, StableSort(emitted, BatchPid), BatchRows);
  }

  // ---- progress ----------------------------------------------------------

  lemma {:induction false} RunAppend(s: Scan, a: seq<nat>, b: seq<nat>, size: nat)
    requires Aligned(s) && Names(a, |s.workers|) && Names(b, |s.workers|)
    ensures Names(a + b, |s.workers|)
    ensures Run(s, a + b, size) == Run(Run(s, a, size), b, size)
    decreases |a|
  {
    if a == [] {
      assert a + b == b;
    } else {
      assert (a + b)[1..] == a[1..] + b;
      RunAppend(Call(s, a[0], size), a[1..], b, size);
    }
  }

  /** Called often enough, one worker empties the queue and its own chunk, whatever the others hold. */
  lemma {:induction false} WorkerFinishes(s: Scan, i: nat, size: nat) returns (calls: seq<nat>)
    requires size > 0 && Aligned(s) && i < |s.workers|
    ensures Names(calls, |s.workers|)
    ensures var s' := Run(s, calls, size);
      && s'.queue == [] && s'.workers[i].NeedsWork()
      && forall j :: 0 <= j < |s.workers| && j != i ==> s'.workers[j] == s.workers[j]
    decreases |s.queue|, Max(0, s.workers[i].currentEnd - s.workers[i].currentIdx)
  {
    if s.queue == [] && s.workers[i].NeedsWork() { return []; }
    calls := WorkerFinishes(Call(s, i, size), i, size);
    assert ([i] + calls)[1..] == calls;
    calls := [i] + calls;
  }

  lemma {:induction false} WorkersFinish(s: Scan, k: nat, size: nat) returns (calls: seq<nat>)
    requires size > 0 && Aligned(s) && k <= |s.workers|
    requires forall i :: k <= i < |s.workers| ==> s.workers[i].NeedsWork()
    requires k == 0 ==> s.queue == []
    ensures Names(calls, |s.workers|) && Complete(Run(s, calls, size))
    decreases k
  {
    if k == 0 { return []; }
    var first := WorkerFinishes(s, k - 1, size);
    var others := WorkersFinish(Run(s, first, size), k - 1, size);
    RunAppend(s, first, others, size);
    calls := first + others;
  }

  /** No interleaving gets stuck: with at least one worker, every scan in progress can be completed. */
  lemma EveryScanCanComplete(work: seq<Chunk>, size: nat, workers: nat, schedule: seq<nat>) returns (rest: seq<nat>)
    requires size > 0 && workers > 0 && Names(schedule, workers)
    ensures Names(schedule + rest, workers) && Complete(Run(Start(work, workers), schedule + rest, size))
  {
    rest := WorkersFinish(Run(Start(work, workers), schedule, size), workers, size);
    RunAppend(Start(work, workers), schedule, rest, size);
  }
}
