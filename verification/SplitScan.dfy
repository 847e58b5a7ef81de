/**
 The reading half of a split scan. Readers claim tokens and emit one batch per
 call from a resumable cursor; any number of them interleave freely.
 */
module SplitScan {
  import opened Seqs
  import opened Bytes
  import opened SplitPlan

  /** `stride` is the batch-index space per split; without it batches carry no index. */
  datatype Config = Config(maxBatch: nat, stride: Option<nat>) {
    predicate Valid() { maxBatch > 0 }
  }

  datatype Batch = Batch(index: Option<int>, rows: seq<int>)

  function BatchRows(b: Batch): seq<int> { b.rows }

  function BatchIndex(b: Batch): int { if b.index.Some? then b.index.value else 0 }

  function IndexAt(cfg: Config, ordinal: int, nth: nat): Option<int> {
    if cfg.stride.Some? then Some(ordinal * cfg.stride.value + nth) else None
  }

  // ---- what a token is worth ---------------------------------------------

  /** The batches of rows `[cur, hi)` of one split, the next being its `nth`. */
  function Chop(cfg: Config, cur: int, hi: int, ordinal: int, nth: nat): seq<Batch>
    requires cfg.Valid()
    decreases hi - cur
  {
    if cur >= hi then [] else
      var size := Min(hi - cur, cfg.maxBatch);
      [Batch(IndexAt(cfg, ordinal, nth), Interval(cur, cur + size))]
        + Chop(cfg, cur + size, hi, ordinal, if cfg.stride.Some? then nth + 1 else nth)
  }

  function TokenBatches(cfg: Config, t: Token): seq<Batch>
    requires cfg.Valid()
  {
    match Decode(t, cfg.stride.Some?)
    case Err(_) => []
    case Ok(c) => Chop(cfg, c.range.lo, c.range.hi, c.ordinal, 0)
  }

  function Redeem(cfg: Config): Token -> seq<Batch>
    requires cfg.Valid()
  {
    t => TokenBatches(cfg, t)
  }

  function BatchesOf(cfg: Config, tokens: seq<Token>): seq<Batch>
    requires cfg.Valid()
  {
    FlatMap(tokens, Redeem(cfg))
  }

  lemma {:induction false} ChopRows(cfg: Config, cur: int, hi: int, ordinal: int, nth: nat)
    requires cfg.Valid() && cur <= hi
    ensures FlatMap(Chop(cfg, cur, hi, ordinal, nth), BatchRows) == Interval(cur, hi)
    decreases hi - cur
  {
    if cur < hi {
      var size := Min(hi - cur, cfg.maxBatch);
      var next := if cfg.stride.Some? then nth + 1 else nth;
      ChopRows(cfg, cur + size, hi, ordinal, next);
      assert Chop(cfg, cur, hi, ordinal, nth)[1..] == Chop(cfg, cur + size, hi, ordinal, next);
      IntervalSplit(cur, cur + size, hi);
    }
  }

  /**
   A split's batches are as long as they may be, all but the last, and numbered on
   from the start of its index space.
   */
  lemma {:induction false} ChopSizes(cfg: Config, cur: int, hi: int, ordinal: int, nth: nat, i: nat)
    requires cfg.Valid() && i < |Chop(cfg, cur, hi, ordinal, nth)|
    ensures var bs := Chop(cfg, cur, hi, ordinal, nth);
      && (if i + 1 < |bs| then |bs[i].rows| == cfg.maxBatch else 0 < |bs[i].rows| <= cfg.maxBatch)
      && bs[i].index == match cfg.stride case None => None case Some(stride) => Some(ordinal * stride + nth + i)
    decreases i
  {
    if i > 0 {
      ChopSizes(cfg, cur + Min(hi - cur, cfg.maxBatch), hi, ordinal, if cfg.stride.Some? then nth + 1 else nth, i - 1);
    }
  }

  // ---- one reader --------------------------------------------------------

  datatype Reader = Reader(ranges: seq<Range>, ordinals: seq<int>, idx: nat, cur: int, emittedInSplit: nat) {
    predicate Finished() { idx >= |ranges| }

    function OrdinalAt(cfg: Config, i: nat): int {
      if cfg.stride.None? then 0 else if i < |ordinals| then ordinals[i] else i
    }
  }

  /** Seed a cursor from the verified payloads; no payloads at all is an error, not an empty scan. */
  function Seed(cfg: Config, payloads: Option<seq<Token>>): Result<Reader> {
    match payloads
    case None => Err("split-only function initialized with no split tokens")
    case Some(tokens) =>
      match DecodeAll(tokens, cfg.stride.Some?)
      case Err(e) => Err(e)
      case Ok(claims) =>
        var ranges := Map(claims, (c: Claim) => c.range);
        var ordinals := if cfg.stride.Some? then Map(claims, (c: Claim) => c.ordinal) else [];
        Ok(Reader(ranges, ordinals, 0, if |ranges| > 0 then ranges[0].lo else 0, 0))
  }

  function DecodeAll(tokens: seq<Token>, withOrdinals: bool): (r: Result<seq<Claim>>)
    ensures r.Ok? ==> |r.value| == |tokens|
    ensures r.Ok? ==> forall i :: 0 <= i < |tokens| ==> Decode(tokens[i], withOrdinals) == Ok(r.value[i])
  {
    if tokens == [] then Ok([]) else
      match Decode(tokens[0], withOrdinals)
      case Err(e) => Err(e)
      case Ok(c) =>
        match DecodeAll(tokens[1..], withOrdinals)
        case Err(e) => Err(e)
        case Ok(rest) => Ok([c] + rest)
  }

  /** A reader starts exactly when it was given tokens, be it none, and each has the length of its kind. */
  lemma SeedIff(cfg: Config, payloads: Option<seq<Token>>)
    ensures Seed(cfg, payloads).Ok? <==>
      && payloads.Some?
      && forall i :: 0 <= i < |payloads.value| ==> |payloads.value[i]| == if cfg.stride.Some? then 24 else 16
  {
    if payloads.Some? { DecodesIff(payloads.value, cfg.stride.Some?); }
  }

  lemma {:induction false} DecodesIff(tokens: seq<Token>, withOrdinals: bool)
    ensures DecodeAll(tokens, withOrdinals).Ok? <==>
      forall i :: 0 <= i < |tokens| ==> |tokens[i]| == if withOrdinals then 24 else 16
  {
    if tokens != [] {
      DecodesIff(tokens[1..], withOrdinals);
      assert tokens == [tokens[0]] + tokens[1..];
    }
  }

  function Advance(r: Reader): Reader
    requires !r.Finished()
  {
    r.(idx := r.idx + 1, emittedInSplit := 0,
       cur := if r.idx + 1 < |r.ranges| then r.ranges[r.idx + 1].lo else r.cur)
  }

  /** One process call: the next batch, or `None` for end of stream. */
  function Step(cfg: Config, r: Reader): (Reader, Option<Batch>)
    requires cfg.Valid()
    decreases |r.ranges| - r.idx
  {
    if r.Finished() then (r, None)
    else if r.cur >= r.ranges[r.idx].hi then Step(cfg, Advance(r))
    else
      var size := Min(r.ranges[r.idx].hi - r.cur, cfg.maxBatch);
      (r.(cur := r.cur + size, emittedInSplit := if cfg.stride.Some? then r.emittedInSplit + 1 else r.emittedInSplit),
       Some(Batch(IndexAt(cfg, r.OrdinalAt(cfg, r.idx), r.emittedInSplit), Interval(r.cur, r.cur + size))))
  }

  /** Everything the reader has still to emit, in order. */
  function Remaining(cfg: Config, r: Reader): seq<Batch>
    requires cfg.Valid()
  {
    if r.Finished() then [] else
      Chop(cfg, r.cur, r.ranges[r.idx].hi, r.OrdinalAt(cfg, r.idx), r.emittedInSplit)
        + Unread(cfg, r, r.idx + 1)
  }

  function Unread(cfg: Config, r: Reader, i: nat): seq<Batch>
    requires cfg.Valid()
    decreases |r.ranges| - i
  {
    if i >= |r.ranges| then [] else
      Chop(cfg, r.ranges[i].lo, r.ranges[i].hi, r.OrdinalAt(cfg, i), 0) + Unread(cfg, r, i + 1)
  }

  lemma {:induction false} UnreadFrame(cfg: Config, r: Reader, r': Reader, i: nat)
    requires cfg.Valid() && r.ranges == r'.ranges && r.ordinals == r'.ordinals
    ensures Unread(cfg, r, i) == Unread(cfg, r', i)
    decreases |r.ranges| - i
  {
    if i < |r.ranges| { UnreadFrame(cfg, r, r', i + 1); }
  }

  lemma AdvanceRemaining(cfg: Config, r: Reader)
    requires cfg.Valid() && !r.Finished() && r.cur >= r.ranges[r.idx].hi
    ensures Remaining(cfg, Advance(r)) == Remaining(cfg, r)
  {
    UnreadFrame(cfg, r, Advance(r), r.idx + 1);
    UnreadFrame(cfg, r, Advance(r), r.idx + 2);
  }

  /**
   A call emits exactly the next batch owed and leaves the rest owed; it ends
   the stream if and only if nothing is owed, however many empty ranges lie ahead.
   */
  lemma {:induction false} StepEmitsNext(cfg: Config, r: Reader)
    requires cfg.Valid()
    ensures var (r', out) := Step(cfg, r);
      && (out == None <==> Remaining(cfg, r) == [])
      && (out == None ==> r'.Finished() && Remaining(cfg, r') == [])
      && (out.Some? ==> 0 < |out.value.rows| <= cfg.maxBatch
                        && Remaining(cfg, r) == [out.value] + Remaining(cfg, r'))
    decreases |r.ranges| - r.idx
  {
    if r.Finished() {
    } else if r.cur >= r.ranges[r.idx].hi {
      AdvanceRemaining(cfg, r);
      StepEmitsNext(cfg, Advance(r));
    } else {
      var (r', _) := Step(cfg, r);
      UnreadFrame(cfg, r, r', r.idx + 1);
    }
  }

  /** A fresh reader owes exactly the batches of the tokens it claimed, in claim order. */
  lemma SeedOwesClaims(cfg: Config, tokens: seq<Token>)
    requires cfg.Valid() && Seed(cfg, Some(tokens)).Ok?
    ensures Remaining(cfg, Seed(cfg, Some(tokens)).value) == BatchesOf(cfg, tokens)
  {
    var r := Seed(cfg, Some(tokens)).value;
    UnreadIsBatches(cfg, tokens, r, 0);
    assert tokens[0..] == tokens;
  }

  lemma {:induction false} UnreadIsBatches(cfg: Config, tokens: seq<Token>, r: Reader, i: nat)
    requires cfg.Valid() && Seed(cfg, Some(tokens)) == Ok(r) && i <= |tokens|
    ensures Unread(cfg, r, i) == BatchesOf(cfg, tokens[i..])
    decreases |tokens| - i
  {
    if i < |tokens| {
      UnreadIsBatches(cfg, tokens, r, i + 1);
      assert tokens[i..][1..] == tokens[i+1..];
      assert Decode(tokens[i], cfg.stride.Some?) == Ok(DecodeAll(tokens, cfg.stride.Some?).value[i]);
      assert tokens[i..][0] == tokens[i];
    }
  }

  method Values(lo: int, size: nat) returns (values: seq<int>)
    ensures values == Interval(lo, lo + size)
  {
    values := [];
    for i := 0 to size
      invariant values == Interval(lo, lo + i)
    {
      values := values + [lo + i];
    }
  }

  /** The per-connection state, updated in place by `emitNext`. */
  class SplitReader {
    var ranges: seq<Range>
    var ordinals: seq<int>
    var idx: nat
    var cur: int
    var emittedInSplit: nat
    var cacheAdvertised: bool

    ghost function State(): Reader reads this { Reader(ranges, ordinals, idx, cur, emittedInSplit) }

    constructor (r: Reader)
      ensures State() == r && !cacheAdvertised
    {
      ranges, ordinals, idx, cur, emittedInSplit := r.ranges, r.ordinals, r.idx, r.cur, r.emittedInSplit;
      cacheAdvertised := false;
    }

    /** Emit one batch; only the first of the stream advertises the cache lifetime. */
    method EmitNext(cfg: Config, cacheTtl: Option<nat>) returns (out: Option<Batch>, ttl: Option<nat>)
      requires cfg.Valid()
      modifies this
      ensures (State(), out) == Step(cfg, old(State()))
      ensures ttl == if out.Some? && !old(cacheAdvertised) then cacheTtl else None
      ensures cacheAdvertised == (old(cacheAdvertised) || ttl.Some?)
    {
      ttl := None;
      while true
        invariant Step(cfg, State()) == Step(cfg, old(State()))
        invariant cacheAdvertised == old(cacheAdvertised) && ttl == None
        decreases |ranges| - idx
      {
        if idx >= |ranges| { return None, None; }
        var r := ranges[idx];
        if cur >= r.hi {
          idx := idx + 1;
          emittedInSplit := 0;
          if idx < |ranges| { cur := ranges[idx].lo; }
          continue;
        }
        var size := Min(r.hi - cur, cfg.maxBatch);
        var values := Values(cur, size);
        cur := cur + size;
        if cacheTtl.Some? && !cacheAdvertised {
          cacheAdvertised := true;
          ttl := cacheTtl;
        }
        var index: Option<int> := None;
        if cfg.stride.Some? {
          var ordinal := if idx < |ordinals| then ordinals[idx] else idx;
          index := Some(ordinal * cfg.stride.value + emittedInSplit);
          emittedInSplit := emittedInSplit + 1;
        }
        return Some(Batch(index, values)), ttl;
      }
    }
  }

  // ---- the whole scan ----------------------------------------------------

  /**
   A scan in progress. `claims` and `streams` record, per connection, every token
   it ever claimed and every batch it ever emitted.
   */
  datatype Scan = Scan(
    unclaimed: multiset<Token>,
    readers: seq<Reader>,
    claims: seq<seq<Token>>,
    streams: seq<seq<Batch>>)

  datatype Action =
    | Init(reader: nat, group: seq<Token>)   // claim a group of tokens and (re-)initialize
    | Process(reader: nat)

  const IDLE := Reader([], [], 0, 0, 0)

  function Start(plan: seq<Token>, readers: nat): Scan {
    Scan(multiset(plan), seq(readers, i => IDLE), seq(readers, i => []), seq(readers, i => []))
  }

  ghost predicate WellFormed(s: Scan) {
    |s.readers| == |s.claims| == |s.streams|
  }

  /** A connection is initialized only once its previous stream has ended. */
  predicate Enabled(cfg: Config, s: Scan, a: Action) {
    && a.reader < |s.readers|
    && |s.readers| == |s.claims| == |s.streams|
    && (a.Init? ==> s.readers[a.reader].Finished()
                    && multiset(a.group) <= s.unclaimed
                    && Seed(cfg, Some(a.group)).Ok?)
  }

  function Apply(cfg: Config, s: Scan, a: Action): Scan
    requires cfg.Valid() && Enabled(cfg, s, a)
  {
    var i := a.reader;
    match a
    case Init(_, group) =>
      s.(unclaimed := s.unclaimed - multiset(group),
         readers := s.readers[i := Seed(cfg, Some(group)).value],
         claims := s.claims[i := s.claims[i] + group])
    case Process(_) =>
      var (r', out) := Step(cfg, s.readers[i]);
      s.(readers := s.readers[i := r'],
         streams := s.streams[i := s.streams[i] + (if out.Some? then [out.value] else [])])
  }

  /** The state after a schedule, or `None` if some action was not enabled. */
  function Run(cfg: Config, s: Scan, schedule: seq<Action>): Option<Scan>
    requires cfg.Valid()
    decreases |schedule|
  {
    if schedule == [] then Some(s)
    else if !Enabled(cfg, s, schedule[0]) then None
    else Run(cfg, Apply(cfg, s, schedule[0]), schedule[1..])
  }

  /** Each connection's claims are split between emitted and owed; no token is lost or shared. */
  ghost predicate Inv(cfg: Config, plan: seq<Token>, s: Scan)
    requires cfg.Valid()
  {
    && WellFormed(s)
    && multiset(Flatten(s.claims)) + s.unclaimed == multiset(plan)
    && forall i :: 0 <= i < |s.readers| ==> Accounted(cfg, s, i)
  }

  ghost predicate Accounted(cfg: Config, s: Scan, i: nat)
    requires cfg.Valid() && WellFormed(s) && i < |s.readers|
  {
    s.streams[i] + Remaining(cfg, s.readers[i]) == BatchesOf(cfg, s.claims[i])
  }

  lemma StartInv(cfg: Config, plan: seq<Token>, readers: nat)
    requires cfg.Valid()
    ensures Inv(cfg, plan, Start(plan, readers))
  {
    FlattenEmpty<Token>(readers);
  }

  lemma InitKeepsInv(cfg: Config, plan: seq<Token>, s: Scan, a: Action)
    requires cfg.Valid() && Inv(cfg, plan, s) && Enabled(cfg, s, a) && a.Init?
    ensures Inv(cfg, plan, Apply(cfg, s, a))
  {
    var i, s' := a.reader, Apply(cfg, s, a);
    assert multiset(Flatten(s'.claims)) + s'.unclaimed == multiset(plan) by {
      FlattenGrow(s.claims, i, a.group);
    }
    forall j | 0 <= j < |s'.readers| ensures Accounted(cfg, s', j) {
      assert Accounted(cfg, s, j);
      if j == i { InitOwes(cfg, s.streams[i], s.readers[i], s.claims[i], a.group); }
    }
  }

  lemma InitOwes(cfg: Config, stream: seq<Batch>, r: Reader, claims: seq<Token>, group: seq<Token>)
    requires cfg.Valid() && r.Finished() && stream + Remaining(cfg, r) == BatchesOf(cfg, claims)
    requires Seed(cfg, Some(group)).Ok?
    ensures stream + Remaining(cfg, Seed(cfg, Some(group)).value) == BatchesOf(cfg, claims + group)
  {
    SeedOwesClaims(cfg, group);
    FlatMapAppend(claims, group, Redeem(cfg));
    assert stream + [] == stream;
  }

  lemma ProcessKeepsInv(cfg: Config, plan: seq<Token>, s: Scan, a: Action)
    requires cfg.Valid() && Inv(cfg, plan, s) && Enabled(cfg, s, a) && a.Process?
    ensures Inv(cfg, plan, Apply(cfg, s, a))
  {
    var i, s' := a.reader, Apply(cfg, s, a);
    StepEmitsNext(cfg, s.readers[i]);
    forall j | 0 <= j < |s'.readers| ensures Accounted(cfg, s', j) {
      assert Accounted(cfg, s, j);
    }
  }

  lemma {:induction false} RunKeepsInv(cfg: Config, plan: seq<Token>, s: Scan, schedule: seq<Action>)
    requires cfg.Valid() && Inv(cfg, plan, s) && Run(cfg, s, schedule).Some?
    ensures Inv(cfg, plan, Run(cfg, s, schedule).value)
    decreases |schedule|
  {
    if schedule != [] {
      var a := schedule[0];
      if a.Init? { InitKeepsInv(cfg, plan, s, a); } else { ProcessKeepsInv(cfg, plan, s, a); }
      RunKeepsInv(cfg, plan, Apply(cfg, s, a), schedule[1..]);
    }
  }

  /** Every token claimed, every connection at end of stream. */
  ghost predicate Complete(s: Scan) {
    s.unclaimed == multiset{} && forall i :: 0 <= i < |s.readers| ==> s.readers[i].Finished()
  }

  // ---- exactly once ------------------------------------------------------

  ghost predicate RepresentablePlan(ranges: seq<Range>) {
    |ranges| < TWO_63 && forall i :: 0 <= i < |ranges| ==> FitsI64(ranges[i].lo) && FitsI64(ranges[i].hi)
  }

  /** Reading a whole plan's tokens in order reads its ranges in order. */
  lemma PlanBatchRows(cfg: Config, ranges: seq<Range>, lo: int, hi: int)
    requires cfg.Valid() && RepresentablePlan(ranges) && Tiles(ranges, lo, hi)
    ensures FlatMap(BatchesOf(cfg, PlanOf(ranges, cfg.stride.Some?, 0)), BatchRows) == Interval(lo, hi)
  {
    PlanSuffixRows(cfg, ranges, 0, lo, hi);
    assert ranges[0..] == ranges;
    var plan := PlanOf(ranges, cfg.stride.Some?, 0);
    assert plan[0..] == plan;
  }

  lemma {:induction false} PlanSuffixRows(cfg: Config, ranges: seq<Range>, i: nat, lo: int, hi: int)
    requires cfg.Valid() && RepresentablePlan(ranges) && i <= |ranges| && Tiles(ranges[i..], lo, hi)
    ensures FlatMap(BatchesOf(cfg, PlanOf(ranges, cfg.stride.Some?, 0)[i..]), BatchRows) == Interval(lo, hi)
    decreases |ranges| - i
  {
    var plan := PlanOf(ranges, cfg.stride.Some?, 0);
    if i < |ranges| {
      var r := ranges[i];
      assert ranges[i..][1..] == ranges[i+1..];
      assert ranges[i..][0] == r;
      assert plan[i..][1..] == plan[i+1..];
      assert plan[i..][0] == plan[i];
      PlanSuffixRows(cfg, ranges, i + 1, r.hi, hi);
      TilesRows(ranges[i+1..], r.hi, hi);
      DecodeMint(Claim(i, r), cfg.stride.Some?);
      var head := TokenBatches(cfg, plan[i]);
      ChopRows(cfg, lo, r.hi, if cfg.stride.Some? then i else 0, 0);
      FlatMapAppend(head, BatchesOf(cfg, plan[i+1..]), BatchRows);
      IntervalSplit(lo, r.hi, hi);
    }
  }

  /**
   Exactly once, at every moment of every schedule: the rows emitted, the rows
   claimed but still owed, and the rows of the unclaimed tokens partition `[0, n)`.
   */
  lemma RowsArePartitioned(
      cfg: Config, ranges: seq<Range>, n: int, readers: nat, schedule: seq<Action>, s: Scan, unclaimed: seq<Token>)
    requires cfg.Valid() && RepresentablePlan(ranges) && Tiles(ranges, 0, n)
    requires Run(cfg, Start(PlanOf(ranges, cfg.stride.Some?, 0), readers), schedule) == Some(s)
    requires multiset(unclaimed) == s.unclaimed
    ensures multiset(FlatMap(Flatten(s.streams), BatchRows))
        + multiset(FlatMap(Owed(cfg, s.readers), BatchRows))
        + multiset(FlatMap(BatchesOf(cfg, unclaimed), BatchRows))
        == multiset(Interval(0, n))
  {
    var plan := PlanOf(ranges, cfg.stride.Some?, 0);
    StartInv(cfg, plan, readers);
    RunKeepsInv(cfg, plan, Start(plan, readers), schedule);
    BatchesConserved(cfg, plan, s, unclaimed);
    var all := Flatten(s.streams) + Owed(cfg, s.readers) + BatchesOf(cfg, unclaimed);
    FlatMapPerm(all, BatchesOf(cfg, plan), BatchRows);
    FlatMapAppend(Flatten(s.streams) + Owed(cfg, s.readers), BatchesOf(cfg, unclaimed), BatchRows);
    FlatMapAppend(Flatten(s.streams), Owed(cfg, s.readers), BatchRows);
    PlanBatchRows(cfg, ranges, 0, n);
  }

  function Owed(cfg: Config, readers: seq<Reader>): seq<Batch>
    requires cfg.Valid()
  {
    if readers == [] then [] else Remaining(cfg, readers[0]) + Owed(cfg, readers[1..])
  }

  /** The batches of a plan are conserved too, boundaries and indices included. */
  lemma BatchesConserved(cfg: Config, plan: seq<Token>, s: Scan, unclaimed: seq<Token>)
    requires cfg.Valid() && Inv(cfg, plan, s) && multiset(unclaimed) == s.unclaimed
    ensures multiset(Flatten(s.streams) + Owed(cfg, s.readers) + BatchesOf(cfg, unclaimed))
         == multiset(BatchesOf(cfg, plan))
  {
    forall i | 0 <= i < |s.readers|
      ensures s.streams[i] + Remaining(cfg, s.readers[i]) == BatchesOf(cfg, s.claims[i])
    {
      assert Accounted(cfg, s, i);
    }
    ClaimedBatches(cfg, s.readers, s.claims, s.streams);
    FlatMapPerm(Flatten(s.claims) + unclaimed, plan, Redeem(cfg));
    FlatMapAppend(Flatten(s.claims), unclaimed, Redeem(cfg));
  }

  lemma {:induction false} ClaimedBatches(
      cfg: Config, readers: seq<Reader>, claims: seq<seq<Token>>, streams: seq<seq<Batch>>)
    requires cfg.Valid() && |readers| == |claims| == |streams|
    requires forall i :: 0 <= i < |readers| ==>
      streams[i] + Remaining(cfg, readers[i]) == BatchesOf(cfg, claims[i])
    ensures multiset(Flatten(streams)) + multiset(Owed(cfg, readers))
         == multiset(BatchesOf(cfg, Flatten(claims)))
  {
    if readers != [] {
      ClaimedBatches(cfg, readers[1..], claims[1..], streams[1..]);
      FlatMapAppend(claims[0], Flatten(claims[1..]), Redeem(cfg));
      assert multiset(BatchesOf(cfg, claims[0])) == multiset(streams[0]) + multiset(Remaining(cfg, readers[0]));
    }
  }

  lemma {:induction false} NothingOwed(cfg: Config, readers: seq<Reader>)
    requires cfg.Valid() && forall i :: 0 <= i < |readers| ==> readers[i].Finished()
    ensures Owed(cfg, readers) == []
  {
    if readers != [] { NothingOwed(cfg, readers[1..]); }
  }

  /** A complete scan emitted each of the plan's batches exactly once. */
  lemma CompleteBatches(cfg: Config, plan: seq<Token>, readers: nat, schedule: seq<Action>, s: Scan)
    requires cfg.Valid() && Run(cfg, Start(plan, readers), schedule) == Some(s) && Complete(s)
    ensures multiset(Flatten(s.streams)) == multiset(BatchesOf(cfg, plan))
  {
    StartInv(cfg, plan, readers);
    RunKeepsInv(cfg, plan, Start(plan, readers), schedule);
    BatchesConserved(cfg, plan, s, []);
    NothingOwed(cfg, s.readers);
    assert Flatten(s.streams) + Owed(cfg, s.readers) + BatchesOf(cfg, []) == Flatten(s.streams);
  }

  /** So it emitted each row of `[0, n)` exactly once. */
  lemma CompleteScanReadsAll(cfg: Config, ranges: seq<Range>, n: int, readers: nat, schedule: seq<Action>, s: Scan)
    requires cfg.Valid() && RepresentablePlan(ranges) && Tiles(ranges, 0, n)
    requires Run(cfg, Start(PlanOf(ranges, cfg.stride.Some?, 0), readers), schedule) == Some(s) && Complete(s)
    ensures multiset(FlatMap(Flatten(s.streams), BatchRows)) == multiset(Interval(0, n))
  {
    var plan := PlanOf(ranges, cfg.stride.Some?, 0);
    CompleteBatches(cfg, plan, readers, schedule, s);
    FlatMapPerm(Flatten(s.streams), BatchesOf(cfg, plan), BatchRows);
    PlanBatchRows(cfg, ranges, 0, n);
  }

  /** Whatever tokens of the plan a connection claims, seeding from them never fails. */
  lemma {:induction false} PlanTokensSeed(cfg: Config, ranges: seq<Range>, group: seq<Token>)
    requires RepresentablePlan(ranges)
    requires forall t :: t in group ==> t in PlanOf(ranges, cfg.stride.Some?, 0)
    ensures Seed(cfg, Some(group)).Ok?
  {
    if group != [] {
      PlanTokensSeed(cfg, ranges, group[1..]);
      var plan := PlanOf(ranges, cfg.stride.Some?, 0);
      assert group[0] in plan;
      var i :| 0 <= i < |plan| && plan[i] == group[0];
      DecodeMint(Claim(i, ranges[i]), cfg.stride.Some?);
    }
  }

  // ---- progress ----------------------------------------------------------

  lemma {:induction false} RunAppend(cfg: Config, s: Scan, a: seq<Action>, b: seq<Action>)
    requires cfg.Valid() && Run(cfg, s, a).Some?
    ensures Run(cfg, s, a + b) == Run(cfg, Run(cfg, s, a).value, b)
    decreases |a|
  {
    hide Apply, Enabled;
    if a == [] {
      assert a + b == b;
    } else {
      assert (a + b)[1..] == a[1..] + b;
      RunAppend(cfg, Apply(cfg, s, a[0]), a[1..], b);
    }
  }

  /** `s'` differs from `s` only in what connection `i` has read. */
  ghost predicate OnlyReads(s: Scan, s': Scan, i: nat) {
    && WellFormed(s) && WellFormed(s') && |s'.readers| == |s.readers|
    && s'.unclaimed == s.unclaimed
    && forall j :: 0 <= j < |s.readers| && j != i ==> s'.readers[j] == s.readers[j]
  }

  /** Enough calls bring a connection to end of stream, whatever ranges it holds. */
  lemma {:induction false} ReaderFinishes(cfg: Config, s: Scan, i: nat) returns (calls: seq<Action>)
    requires cfg.Valid() && WellFormed(s) && i < |s.readers|
    ensures |calls| <= |Remaining(cfg, s.readers[i])| + 1
    ensures Run(cfg, s, calls).Some?
    ensures var s' := Run(cfg, s, calls).value; OnlyReads(s, s', i) && s'.readers[i].Finished()
    decreases |Remaining(cfg, s.readers[i])|
  {
    calls := [];
    if !s.readers[i].Finished() {
      var a := Process(i);
      var s1 := Apply(cfg, s, a);
      StepEmitsNext(cfg, s.readers[i]);
      if !s1.readers[i].Finished() {
        calls := ReaderFinishes(cfg, s1, i);
      }
      assert ([a] + calls)[1..] == calls;
      calls := [a] + calls;
    }
  }

  lemma {:induction false} ReadersFinish(cfg: Config, s: Scan, k: nat) returns (calls: seq<Action>)
    requires cfg.Valid() && WellFormed(s) && k <= |s.readers|
    requires forall i :: k <= i < |s.readers| ==> s.readers[i].Finished()
    ensures Run(cfg, s, calls).Some?
    ensures var s' := Run(cfg, s, calls).value;
      && WellFormed(s') && |s'.readers| == |s.readers| && s'.unclaimed == s.unclaimed
      && forall i :: 0 <= i < |s'.readers| ==> s'.readers[i].Finished()
    decreases k
  {
    if k == 0 {
      calls := [];
    } else {
      var first := ReaderFinishes(cfg, s, k - 1);
      var after := ReadersFinish(cfg, Run(cfg, s, first).value, k - 1);
      RunAppend(cfg, s, first, after);
      calls := first + after;
    }
  }

  lemma {:induction false} BagAsSeq<T>(b: multiset<T>) returns (s: seq<T>)
    ensures multiset(s) == b
    decreases |b|
  {
    if b == multiset{} {
      s := [];
    } else {
      var x :| x in b;
      s := BagAsSeq(b - multiset{x});
      s := s + [x];
    }
  }

  /** No schedule gets stuck: with at least one connection, every scan in progress can be completed. */
  lemma EveryScanCanComplete(cfg: Config, ranges: seq<Range>, readers: nat, schedule: seq<Action>)
      returns (rest: seq<Action>)
    requires cfg.Valid() && RepresentablePlan(ranges) && readers > 0
    requires Run(cfg, Start(PlanOf(ranges, cfg.stride.Some?, 0), readers), schedule).Some?
    ensures var end := Run(cfg, Start(PlanOf(ranges, cfg.stride.Some?, 0), readers), schedule + rest);
      end.Some? && Complete(end.value)
  {
    var plan := PlanOf(ranges, cfg.stride.Some?, 0);
    var s0 := Start(plan, readers);
    StartInv(cfg, plan, readers);
    RunKeepsInv(cfg, plan, s0, schedule);
    RunKeepsSize(cfg, s0, schedule);
    var s := Run(cfg, s0, schedule).value;
    forall t | t in s.unclaimed ensures t in plan {
      assert t in multiset(plan);
    }
    rest := CompleteFrom(cfg, ranges, s);
    RunAppend(cfg, s0, schedule, rest);
  }

  lemma {:induction false} RunKeepsSize(cfg: Config, s: Scan, schedule: seq<Action>)
    requires cfg.Valid() && Run(cfg, s, schedule).Some?
    ensures |Run(cfg, s, schedule).value.readers| == |s.readers|
    decreases |schedule|
  {
    if schedule != [] { RunKeepsSize(cfg, Apply(cfg, s, schedule[0]), schedule[1..]); }
  }

  /** Let every connection finish, then have the first claim all that is left. */
  lemma CompleteFrom(cfg: Config, ranges: seq<Range>, s: Scan) returns (rest: seq<Action>)
    requires cfg.Valid() && RepresentablePlan(ranges) && WellFormed(s) && |s.readers| > 0
    requires forall t :: t in s.unclaimed ==> t in PlanOf(ranges, cfg.stride.Some?, 0)
    ensures Run(cfg, s, rest).Some? && Complete(Run(cfg, s, rest).value)
  {
    var calls := ReadersFinish(cfg, s, |s.readers|);
    var s1 := Run(cfg, s, calls).value;
    var group := BagAsSeq(s1.unclaimed);
    forall t | t in group ensures t in PlanOf(ranges, cfg.stride.Some?, 0) {
      assert t in multiset(group);
    }
    PlanTokensSeed(cfg, ranges, group);
    var claim := Init(0, group);
    var s2 := Apply(cfg, s1, claim);
    var last := ReaderFinishes(cfg, s2, 0);
    assert ([claim] + last)[1..] == last;
    RunAppend(cfg, s, calls, [claim] + last);
    rest := calls + ([claim] + last);
  }

  // ---- batch indices -----------------------------------------------------

  /** `split_batch_index`: 64-row batches, a thousand indices per split. */
  const INDEXED := Config(64, Some(1000))

  function BatchCount(rows: int): nat { if rows <= 0 then 0 else (rows + 63) / 64 }

  lemma {:induction false} ChopIndexed(cur: int, hi: int, ordinal: int, nth: nat)
    ensures |Chop(INDEXED, cur, hi, ordinal, nth)| == BatchCount(hi - cur)
    ensures forall i :: 0 <= i < BatchCount(hi - cur) ==>
      Chop(INDEXED, cur, hi, ordinal, nth)[i]
        == Batch(Some(ordinal * 1000 + nth + i), Interval(cur + 64 * i, Min(cur + 64 * (i + 1), hi)))
    decreases hi - cur
  {
    hide Interval;
    if cur < hi {
      var size := Min(hi - cur, 64);
      ChopIndexed(cur + size, hi, ordinal, nth + 1);
      var rest := Chop(INDEXED, cur + size, hi, ordinal, nth + 1);
      forall i | 0 <= i < BatchCount(hi - cur)
        ensures Chop(INDEXED, cur, hi, ordinal, nth)[i]
          == Batch(Some(ordinal * 1000 + nth + i), Interval(cur + 64 * i, Min(cur + 64 * (i + 1), hi)))
      {
        if i > 0 {
          assert Chop(INDEXED, cur, hi, ordinal, nth)[i] == rest[i-1];
          assert size == 64;
        }
      }
    }
  }

  function OrdinalOf(t: Token): int {
    match Decode(t, true) case Err(_) => 0 case Ok(c) => c.ordinal
  }

  /** The token names a split of at most a thousand 64-row batches. */
  predicate SmallSplit(t: Token) {
    match Decode(t, true) case Err(_) => false case Ok(c) => c.range.hi - c.range.lo <= 64 * 1000
  }

  function RowsOf(t: Token): int {
    match Decode(t, true) case Err(_) => 0 case Ok(c) => c.range.hi - c.range.lo
  }

  /** The indices of `a`'s batches end before `b`'s start: a thousand per ordinal between them, or `b` has none. */
  predicate RoomBetween(a: Token, b: Token) {
    RowsOf(b) <= 0 || RowsOf(a) <= 64 * 1000 * (OrdinalOf(b) - OrdinalOf(a))
  }

  lemma TokenSpan(t: Token)
    requires Decode(t, true).Ok?
    ensures |TokenBatches(INDEXED, t)| == BatchCount(RowsOf(t))
    ensures forall i :: 0 <= i < BatchCount(RowsOf(t)) ==>
      BatchIndex(TokenBatches(INDEXED, t)[i]) == OrdinalOf(t) * 1000 + i
  {
    var c := Decode(t, true).value;
    ChopIndexed(c.range.lo, c.range.hi, c.ordinal, 0);
  }

  lemma {:induction false} TokenOf(tokens: seq<Token>, b: Batch) returns (j: nat)
    requires b in BatchesOf(INDEXED, tokens)
    ensures j < |tokens| && b in TokenBatches(INDEXED, tokens[j])
  {
    if b in TokenBatches(INDEXED, tokens[0]) {
      j := 0;
    } else {
      j := TokenOf(tokens[1..], b);
      j := j + 1;
    }
  }

  /** A token's batches all come before those of the tokens after it exactly when there is room before each. */
  lemma HeadRoom(t: Token, later: seq<Token>)
    requires Decode(t, true).Ok? && forall j :: 0 <= j < |later| ==> Decode(later[j], true).Ok?
    requires forall j :: 0 <= j < |later| ==> OrdinalOf(t) < OrdinalOf(later[j])
    ensures (forall a, b :: a in TokenBatches(INDEXED, t) && b in BatchesOf(INDEXED, later)
              ==> BatchIndex(a) < BatchIndex(b))
      <==> (forall j :: 0 <= j < |later| ==> RoomBetween(t, later[j]))
  {
    var head, tail := TokenBatches(INDEXED, t), BatchesOf(INDEXED, later);
    hide Decode, TokenBatches, FlatMap;
    TokenSpan(t);
    if forall j :: 0 <= j < |later| ==> RoomBetween(t, later[j]) {
      forall a, b | a in head && b in tail ensures BatchIndex(a) < BatchIndex(b) {
        var j := TokenOf(later, b);
        TokenSpan(later[j]);
        assert RoomBetween(t, later[j]);
      }
    }
    if forall a, b :: a in head && b in tail ==> BatchIndex(a) < BatchIndex(b) {
      forall j | 0 <= j < |later| ensures RoomBetween(t, later[j]) {
        TokenSpan(later[j]);
        if RowsOf(t) > 0 && RowsOf(later[j]) > 0 {
          var first := TokenBatches(INDEXED, later[j])[0];
          FlatMapMember(later, Redeem(INDEXED), later[j], first);
          assert head[|head|-1] in head && first in tail;
        }
      }
    }
  }

  /** Claims in ascending split order give ascending indices if and only if there is room between any two of them. */
  lemma {:induction false} AscendingClaimsIff(tokens: seq<Token>)
    requires forall i :: 0 <= i < |tokens| ==> Decode(tokens[i], true).Ok?
    requires StrictlyBy(tokens, OrdinalOf)
    ensures StrictlyBy(BatchesOf(INDEXED, tokens), BatchIndex)
      <==> forall i, j :: 0 <= i < j < |tokens| ==> RoomBetween(tokens[i], tokens[j])
  {
    if tokens != [] {
      var head, tail := TokenBatches(INDEXED, tokens[0]), BatchesOf(INDEXED, tokens[1..]);
      AscendingClaimsIff(tokens[1..]);
      TokenSpan(tokens[0]);
      HeadRoom(tokens[0], tokens[1..]);
      assert BatchesOf(INDEXED, tokens) == head + tail;
      hide Decode, TokenBatches, FlatMap, RoomBetween;
      StrictlyJoined(head, tail);
      FirstAndRest(tokens);
    }
  }

  lemma StrictlyJoined(a: seq<Batch>, b: seq<Batch>)
    ensures StrictlyBy(a + b, BatchIndex) <==>
      && StrictlyBy(a, BatchIndex) && StrictlyBy(b, BatchIndex)
      && forall x, y :: x in a && y in b ==> BatchIndex(x) < BatchIndex(y)
  {
    hide BatchIndex;
    var s := a + b;
    if StrictlyBy(s, BatchIndex) {
      PrefixAscends(a, b);
      forall i, j | 0 <= i < j < |b| ensures BatchIndex(b[i]) < BatchIndex(b[j]) {
        assert s[|a| + i] == b[i] && s[|a| + j] == b[j];
      }
      forall x, y | x in a && y in b ensures BatchIndex(x) < BatchIndex(y) {
        var i :| 0 <= i < |a| && a[i] == x;
        var j :| 0 <= j < |b| && b[j] == y;
        assert s[i] == x && s[|a| + j] == y;
      }
    }
    if StrictlyBy(a, BatchIndex) && StrictlyBy(b, BatchIndex)
      && forall x, y :: x in a && y in b ==> BatchIndex(x) < BatchIndex(y)
    {
      forall i, j | 0 <= i < j < |s| ensures BatchIndex(s[i]) < BatchIndex(s[j]) {
        if i < |a| <= j { assert a[i] in a && b[j - |a|] in b; }
      }
    }
  }

  lemma FirstAndRest(tokens: seq<Token>)
    requires tokens != []
    ensures (forall i, j :: 0 <= i < j < |tokens| ==> RoomBetween(tokens[i], tokens[j]))
      <==> ((forall j :: 0 <= j < |tokens[1..]| ==> RoomBetween(tokens[0], tokens[1..][j]))
            && (forall i, j :: 0 <= i < j < |tokens[1..]| ==> RoomBetween(tokens[1..][i], tokens[1..][j])))
  {
    hide RoomBetween;
    var rest := tokens[1..];
    forall j | 0 <= j < |rest| ensures rest[j] == tokens[j+1] {}
    if (forall j :: 0 <= j < |rest| ==> RoomBetween(tokens[0], rest[j]))
      && (forall i, j :: 0 <= i < j < |rest| ==> RoomBetween(rest[i], rest[j]))
    {
      forall i, j | 0 <= i < j < |tokens| ensures RoomBetween(tokens[i], tokens[j]) {
        if i == 0 { assert RoomBetween(tokens[0], rest[j-1]); } else { assert RoomBetween(rest[i-1], rest[j-1]); }
      }
    }
  }

  lemma AscendingClaims(tokens: seq<Token>)
    requires forall i :: 0 <= i < |tokens| ==> SmallSplit(tokens[i])
    requires StrictlyBy(tokens, OrdinalOf)
    ensures StrictlyBy(BatchesOf(INDEXED, tokens), BatchIndex)
  {
    AscendingClaimsIff(tokens);
    forall i, j | 0 <= i < j < |tokens| ensures RoomBetween(tokens[i], tokens[j]) {
      SmallLeavesRoom(tokens[i], tokens[j]);
    }
  }

  lemma SmallLeavesRoom(a: Token, b: Token)
    requires SmallSplit(a) && OrdinalOf(a) < OrdinalOf(b)
    ensures RoomBetween(a, b)
  {
  }

  function EvenPlan(n: int, splits: int): seq<Token> { PlanOf(Even(n, splits), true, 0) }

  lemma EvenPlanFacts(n: int, splits: int)
    requires n < TWO_63 && splits < TWO_63
    ensures RepresentablePlan(Even(n, splits))
    ensures splits > 0 || n <= 0 ==> Tiles(Even(n, splits), 0, Max(0, n))
    ensures |EvenPlan(n, splits)| == |Even(n, splits)| == Max(0, splits)
    ensures forall i :: 0 <= i < splits ==>
      Decode(EvenPlan(n, splits)[i], true) == Ok(Claim(i, Even(n, splits)[i]))
    ensures StrictlyBy(EvenPlan(n, splits), OrdinalOf)
  {
    EvenCovers(n, splits);
    var rs := Even(n, splits);
    forall i | 0 <= i < splits
      ensures 0 <= rs[i].lo <= rs[i].hi <= Max(0, n)
      ensures Decode(EvenPlan(n, splits)[i], true) == Ok(Claim(i, rs[i]))
    {
      TilesBounds(rs, 0, Max(0, n), i);
      DecodeMint(Claim(i, rs[i]), true);
    }
  }

  lemma {:induction false} TilesBounds(rs: seq<Range>, lo: int, hi: int, i: nat)
    requires Tiles(rs, lo, hi) && i < |rs|
    ensures lo <= rs[i].lo <= rs[i].hi <= hi
  {
    TilesRows(rs[1..], rs[0].hi, hi);
    if i > 0 { TilesBounds(rs[1..], rs[0].hi, hi, i - 1); }
  }

  lemma EvenIsSmall(n: int, splits: int)
    requires n < TWO_63 && splits < TWO_63 && n <= 64 * 1000 * splits
    ensures forall i :: 0 <= i < splits ==> SmallSplit(EvenPlan(n, splits)[i])
  {
    if splits > 0 {
      EvenPlanFacts(n, splits);
      EvenCovers(n, splits);
      SizeBound(Max(0, n), splits);
    }
  }

  lemma SizeBound(n: nat, splits: nat)
    requires splits > 0
    ensures n <= 64000 * splits <==> n / splits + (if n % splits > 0 then 1 else 0) <= 64000
  {
    var q, r := n / splits, n % splits;
    assert n == q * splits + r;
    if q < 64000 {
      MulMono(q, 63999, splits);
    } else if q > 64000 {
      MulMono(64001, q, splits);
    }
  }

  lemma MulMono(a: int, b: int, c: nat)
    requires a <= b
    ensures a * c <= b * c
  {
  }

  /**
   For every `n` and `splits`: a connection that claims ascending splits emits
   ascending indices at every moment if there is room between its claims; and once it
   has finished, only if there was.
   */
  lemma StreamAscendsIff(n: int, splits: int, readers: nat, schedule: seq<Action>, s: Scan, i: nat)
    requires n < TWO_63 && splits < TWO_63
    requires Run(INDEXED, Start(EvenPlan(n, splits), readers), schedule) == Some(s)
    requires i < |s.claims| && StrictlyBy(s.claims[i], OrdinalOf)
    ensures i < |s.streams| == |s.readers|
    ensures var room := forall j, k :: 0 <= j < k < |s.claims[i]| ==> RoomBetween(s.claims[i][j], s.claims[i][k]);
      && (room ==> StrictlyBy(s.streams[i], BatchIndex))
      && (s.readers[i].Finished() && StrictlyBy(s.streams[i], BatchIndex) ==> room)
  {
    var plan, claims := EvenPlan(n, splits), s.claims[i];
    StartInv(INDEXED, plan, readers);
    RunKeepsInv(INDEXED, plan, Start(plan, readers), schedule);
    EvenPlanFacts(n, splits);
    forall j | 0 <= j < |claims| ensures Decode(claims[j], true).Ok? {
      InFlatten(s.claims, i, claims[j]);
      assert claims[j] in multiset(Flatten(s.claims));
      assert claims[j] in multiset(plan);
    }
    AscendingClaimsIff(claims);
    assert Accounted(INDEXED, s, i);
    hide RoomBetween, FlatMap, BatchIndex;
    if StrictlyBy(BatchesOf(INDEXED, claims), BatchIndex) {
      PrefixAscends(s.streams[i], Remaining(INDEXED, s.readers[i]));
    }
    if s.readers[i].Finished() { assert s.streams[i] + [] == s.streams[i]; }
  }

  /**
   Within the bound, a connection that claims ascending splits emits strictly
   ascending indices at every moment of every schedule.
   */
  lemma StreamIndicesAscend(n: int, splits: int, readers: nat, schedule: seq<Action>, s: Scan, i: nat)
    requires n < TWO_63 && splits < TWO_63 && n <= 64 * 1000 * splits
    requires Run(INDEXED, Start(EvenPlan(n, splits), readers), schedule) == Some(s)
    requires i < |s.claims| && StrictlyBy(s.claims[i], OrdinalOf)
    ensures i < |s.streams| && StrictlyBy(s.streams[i], BatchIndex)
  {
    var plan, claims := EvenPlan(n, splits), s.claims[i];
    StartInv(INDEXED, plan, readers);
    RunKeepsInv(INDEXED, plan, Start(plan, readers), schedule);
    EvenPlanFacts(n, splits);
    EvenIsSmall(n, splits);
    StreamAscendsIff(n, splits, readers, schedule, s, i);
    forall j, k | 0 <= j < k < |claims| ensures RoomBetween(claims[j], claims[k]) {
      InFlatten(s.claims, i, claims[j]);
      assert claims[j] in multiset(Flatten(s.claims));
      assert claims[j] in multiset(plan);
      SmallLeavesRoom(claims[j], claims[k]);
    }
  }

  lemma PrefixAscends(prefix: seq<Batch>, rest: seq<Batch>)
    requires StrictlyBy(prefix + rest, BatchIndex)
    ensures StrictlyBy(prefix, BatchIndex)
  {
    forall j, k | 0 <= j < k < |prefix| ensures BatchIndex(prefix[j]) < BatchIndex(prefix[k]) {
      assert (prefix + rest)[j] == prefix[j] && (prefix + rest)[k] == prefix[k];
    }
  }

  /** Within the bound, sorting a complete scan's batches by index restores `0 .. n-1`. */
  lemma IndexOrderIsRowOrder(n: int, splits: int, readers: nat, schedule: seq<Action>, s: Scan)
    requires n < TWO_63 && splits < TWO_63 && n <= 64 * 1000 * splits
    requires Run(INDEXED, Start(EvenPlan(n, splits), readers), schedule) == Some(s) && Complete(s)
    ensures var ordered := StableSort(Flatten(s.streams), BatchIndex);
      StrictlyBy(ordered, BatchIndex) && FlatMap(ordered, BatchRows) == Interval(0, n)
  {
    var plan := EvenPlan(n, splits);
    EvenPlanFacts(n, splits);
    EvenIsSmall(n, splits);
    AscendingClaims(plan);
    CompleteBatches(INDEXED, plan, readers, schedule, s);
    SortOfPermutation(Flatten(s.streams), BatchesOf(INDEXED, plan), BatchIndex);
    PlanBatchRows(INDEXED, Even(n, splits), 0, Max(0, n));
  }

  /** Two different emitted batches share an index. */
  ghost predicate Collision(bs: seq<Batch>) {
    exists x, y :: x in bs && y in bs && x != y && x.index == y.index
  }

  lemma {:induction false} CollisionTransfers(a: seq<Batch>, b: seq<Batch>)
    requires multiset(a) == multiset(b)
    ensures Collision(a) <==> Collision(b)
  {
    forall x ensures x in a <==> x in b {
      assert x in multiset(a) <==> x in multiset(b);
    }
  }

  /** The bound is exact: a complete scan collides if and only if it exceeds the bound with more than one split. */
  lemma CollisionIff(n: int, splits: int, readers: nat, schedule: seq<Action>, s: Scan)
    requires n < TWO_63 && splits < TWO_63
    requires Run(INDEXED, Start(EvenPlan(n, splits), readers), schedule) == Some(s) && Complete(s)
    ensures Collision(Flatten(s.streams)) <==> splits >= 2 && n > 64 * 1000 * splits
  {
    CompleteBatches(INDEXED, EvenPlan(n, splits), readers, schedule, s);
    CollisionTransfers(Flatten(s.streams), BatchesOf(INDEXED, EvenPlan(n, splits)));
    PlanCollisionIff(n, splits);
  }

  lemma PlanCollisionIff(n: int, splits: int)
    requires n < TWO_63 && splits < TWO_63
    ensures Collision(BatchesOf(INDEXED, EvenPlan(n, splits))) <==> splits >= 2 && n > 64 * 1000 * splits
  {
    EvenPlanFacts(n, splits);
    var batches := BatchesOf(INDEXED, EvenPlan(n, splits));
    if splits <= 0 {
      assert batches == [];
    } else if n <= 64 * 1000 * splits {
      EvenIsSmall(n, splits);
      AscendingClaims(EvenPlan(n, splits));
    } else if splits == 1 {
      OneSplitAscends(n);
    } else {
      Overflow(n, splits);
    }
  }

  /** A single split has the index space to itself, however many batches it has. */
  lemma OneSplitAscends(n: int)
    requires n < TWO_63
    ensures StrictlyBy(BatchesOf(INDEXED, EvenPlan(n, 1)), BatchIndex)
  {
    EvenPlanFacts(n, 1);
    var plan, r := EvenPlan(n, 1), Even(n, 1)[0];
    assert plan == [plan[0]] && plan[1..] == [];
    assert BatchesOf(INDEXED, plan) == TokenBatches(INDEXED, plan[0]) + BatchesOf(INDEXED, []);
    ChopIndexed(r.lo, r.hi, 0, 0);
  }

  lemma FirstTwoSizes(n: nat, splits: nat)
    requires 2 <= splits && n > 64 * 1000 * splits
    ensures |Even(n, splits)| == splits && Even(n, splits)[0].lo == 0
    ensures 64000 < Even(n, splits)[0].hi == Even(n, splits)[1].lo < Even(n, splits)[1].hi
  {
    EvenCovers(n, splits);
    SizeBound(n, splits);
    var rs := Even(n, splits);
    assert rs[1..][0] == rs[1];
  }

  lemma BatchAt(t: Token, c: Claim, i: nat)
    requires Decode(t, true) == Ok(c) && i < BatchCount(c.range.hi - c.range.lo)
    ensures Batch(Some(c.ordinal * 1000 + i),
                  Interval(c.range.lo + 64 * i, Min(c.range.lo + 64 * (i + 1), c.range.hi)))
            in TokenBatches(INDEXED, t)
  {
    ChopIndexed(c.range.lo, c.range.hi, c.ordinal, 0);
    var bs := Chop(INDEXED, c.range.lo, c.range.hi, c.ordinal, 0);
    assert bs[i] in bs;
  }

  /** Batch 1000 of split 0 has the index of batch 0 of split 1. */
  lemma Overflow(n: nat, splits: nat)
    requires 2 <= splits < TWO_63 && n < TWO_63 && n > 64 * 1000 * splits
    ensures Collision(BatchesOf(INDEXED, EvenPlan(n, splits)))
  {
    hide TokenBatches, FlatMap, Even, PlanOf, Decode, StrictlyBy;
    var plan, rs := EvenPlan(n, splits), Even(n, splits);
    EvenPlanFacts(n, splits);
    FirstTwoSizes(n, splits);
    var x := Batch(Some(1000), Interval(64000, Min(64064, rs[0].hi)));
    var y := Batch(Some(1000), Interval(rs[1].lo, Min(rs[1].lo + 64, rs[1].hi)));
    BatchAt(plan[0], Claim(0, rs[0]), 1000);
    BatchAt(plan[1], Claim(1, rs[1]), 0);
    assert x.rows[0] != y.rows[0];
    FlatMapMember(plan, Redeem(INDEXED), plan[0], x);
    FlatMapMember(plan, Redeem(INDEXED), plan[1], y);
  }
}
