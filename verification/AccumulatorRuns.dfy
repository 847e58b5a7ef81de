/**
 Whole runs of calls on the accumulation store, said of attachments, names and
 replies alone: who shares a collection, which calls are refused, and what is read back.
 */
module AccumulatorRuns {
  import opened Seqs
  import opened Bytes
  import opened Accumulator
  import Utf8

  // ---- who shares a collection -------------------------------------------

  /** The calls on one collection. */
  function Only(calls: seq<Call>, attach: string, name: string): seq<Call> {
    if calls == [] then []
    else
      var n := |calls| - 1;
      Only(calls[..n], attach, name) + if Concerns(calls[n], attach, name) then [calls[n]] else []
  }

  /** The replies to those calls. */
  function RepliesTo(calls: seq<Call>, replies: seq<Reply>, attach: string, name: string): seq<Reply>
    requires |replies| == |calls|
  {
    if calls == [] then []
    else
      var n := |calls| - 1;
      RepliesTo(calls[..n], replies[..n], attach, name)
        + if Concerns(calls[n], attach, name) then [replies[n]] else []
  }

  ghost predicate SameAt(a: Disk, b: Disk, k: Key) { SegsAt(a, k) == SegsAt(b, k) && SchemaAt(a, k) == SchemaAt(b, k) }

  lemma OwnCall(c: Codec, a: Disk, b: Disk, call: Call)
    requires SameAt(a, b, CallKey(call))
    ensures Execute(c, a, call).1 == Execute(c, b, call).1
    ensures SameAt(Execute(c, a, call).0, Execute(c, b, call).0, CallKey(call))
  {
  }

  lemma RunNext(c: Codec, d: Disk, calls: seq<Call>, call: Call)
    ensures var (d', replies) := RunDisk(c, d, calls); var (d'', reply) := Execute(c, d', call);
      RunDisk(c, d, calls + [call]) == (d'', replies + [reply])
  {
    hide Execute;
    assert (calls + [call])[..|calls|] == calls;
  }

  lemma OnlyNext(calls: seq<Call>, replies: seq<Reply>, call: Call, reply: Reply, attach: string, name: string)
    requires |replies| == |calls|
    ensures Only(calls + [call], attach, name)
      == Only(calls, attach, name) + if Concerns(call, attach, name) then [call] else []
    ensures RepliesTo(calls + [call], replies + [reply], attach, name)
      == RepliesTo(calls, replies, attach, name) + if Concerns(call, attach, name) then [reply] else []
  {
    hide Concerns;
    assert (calls + [call])[..|calls|] == calls && (replies + [reply])[..|calls|] == replies;
  }

  /**
   A run's replies to the calls on one collection are those these calls get when
   they are run alone, whatever was done meanwhile under other names or by other
   attachments.
   */
  lemma {:induction false} RunsApart(c: Codec, d: Disk, calls: seq<Call>, attach: string, name: string)
    ensures RepliesTo(calls, RunDisk(c, d, calls).1, attach, name) == RunDisk(c, d, Only(calls, attach, name)).1
    ensures SameAt(RunDisk(c, d, calls).0, RunDisk(c, d, Only(calls, attach, name)).0, KeyFor(attach, name))
    decreases |calls|
  {
    if calls != [] {
      var n := |calls| - 1;
      var before, call, own := calls[..n], calls[n], Only(calls[..n], attach, name);
      var (d', replies) := RunDisk(c, d, before);
      RunsApart(c, d, before, attach, name);
      assert calls == before + [call];
      OwnKey(call, attach, name);
      RunNext(c, d, before, call);
      OnlyNext(before, replies, call, Execute(c, d', call).1, attach, name);
      hide Execute, KeyFor, Concerns, RunDisk, Only, RepliesTo;
      if Concerns(call, attach, name) {
        OwnCall(c, d', RunDisk(c, d, own).0, call);
        RunNext(c, d, own, call);
      } else {
        ExecuteOtherKeys(c, d', EMPTY_FLAT, call, KeyFor(attach, name));
        assert own + [] == own;
        assert RepliesTo(before, replies, attach, name) + [] == RepliesTo(before, replies, attach, name);
      }
    }
  }

  // ---- which calls are refused -------------------------------------------

  predicate Refuses(c: Codec, calls: seq<Call>, i: nat)
    requires i < |calls|
  {
    RunDisk(c, EMPTY_DISK, calls).1[i].Refused?
  }

  /** Call `i` put rows into the collection, and no call has cleared it since. */
  ghost predicate Pins(c: Codec, calls: seq<Call>, i: nat, attach: string, name: string) {
    && i < |calls| && calls[i].Accumulate? && Concerns(calls[i], attach, name) && !Refuses(c, calls, i)
    && forall j :: i < j < |calls| && calls[j].Clear? && Concerns(calls[j], attach, name) ==> Refuses(c, calls, j)
  }

  lemma RepliesStay(c: Codec, calls: seq<Call>, i: nat)
    requires i + 1 < |calls|
    ensures Refuses(c, calls, i) <==> Refuses(c, calls[..|calls|-1], i)
  {
  }

  lemma PinsStay(c: Codec, calls: seq<Call>, i: nat, attach: string, name: string)
    requires i + 1 < |calls|
    ensures var n := |calls| - 1;
      Pins(c, calls, i, attach, name) <==>
      Pins(c, calls[..n], i, attach, name)
      && (calls[n].Clear? && Concerns(calls[n], attach, name) ==> Refuses(c, calls, n))
  {
    hide Refuses, Concerns;
    forall j: nat | j + 1 < |calls| ensures Refuses(c, calls, j) <==> Refuses(c, calls[..|calls|-1], j) {
      RepliesStay(c, calls, j);
    }
    var n := |calls| - 1;
    assert calls == calls[..n] + [calls[n]];
    assert calls[..n][i] == calls[i];
    forall j | i < j < n ensures calls[..n][j] == calls[j] {}
  }

  ghost predicate PinsAre(c: Codec, calls: seq<Call>, attach: string, name: string, pinned: Option<Schema>) {
    && (pinned.Some? ==> exists i: nat :: Pins(c, calls, i, attach, name))
    && forall i: nat :: Pins(c, calls, i, attach, name) ==> pinned == Some(calls[i].schema)
  }

  /** A collection has a schema while a call pins it, and then that call's: all that pin it agree. */
  lemma {:induction false} PinnedSchema(c: Codec, calls: seq<Call>, attach: string, name: string)
    ensures PinsAre(c, calls, attach, name, SchemaAt(RunDisk(c, EMPTY_DISK, calls).0, KeyFor(attach, name)))
    decreases |calls|
  {
    if calls != [] {
      var n := |calls| - 1;
      var d, call, k := RunDisk(c, EMPTY_DISK, calls[..n]).0, calls[n], KeyFor(attach, name);
      PinnedSchema(c, calls[..n], attach, name);
      OwnKey(call, attach, name);
      SchemaStep(c, d, call, k);
      assert calls == calls[..n] + [call];
      RunNext(c, EMPTY_DISK, calls[..n], call);
      assert Refuses(c, calls, n) <==> Execute(c, d, call).1.Refused?;
      LastPins(c, calls, attach, name);
      hide Execute, KeyFor, Concerns, SchemaAt, Refuses, RunDisk, Pins;
      PinsStep(c, calls, attach, name, SchemaAt(d, k), SchemaAt(RunDisk(c, EMPTY_DISK, calls).0, k));
    }
  }

  lemma PinsStep(
      c: Codec, calls: seq<Call>, attach: string, name: string, before: Option<Schema>, after: Option<Schema>)
    requires calls != [] && PinsAre(c, calls[..|calls|-1], attach, name, before)
    requires var n := |calls| - 1;
      after ==
        if !Concerns(calls[n], attach, name) || Refuses(c, calls, n) || calls[n].Read? then before
        else if calls[n].Clear? then None
        else Some(calls[n].schema)
    requires var n := |calls| - 1;
      Pins(c, calls, n, attach, name) ==> before == None || before == Some(calls[n].schema)
    ensures PinsAre(c, calls, attach, name, after)
  {
    hide Concerns, Refuses, Pins;
    var n := |calls| - 1;
    LastPins(c, calls, attach, name);
    PinsBound(c, calls, attach, name);
    PinsBound(c, calls[..n], attach, name);
    forall i: nat | Pins(c, calls, i, attach, name) ensures after == Some(calls[i].schema) {
      if i < n {
        PinsStay(c, calls, i, attach, name);
        assert Pins(c, calls[..n], i, attach, name);
      }
    }
    if after.Some? {
      if Pins(c, calls, n, attach, name) {
      } else {
        assert before.Some?;
        var i: nat :| Pins(c, calls[..n], i, attach, name);
        PinsStay(c, calls, i, attach, name);
      }
    }
  }

  lemma PinsBound(c: Codec, calls: seq<Call>, attach: string, name: string)
    ensures forall i: nat :: Pins(c, calls, i, attach, name) ==> i < |calls| && calls[i].Accumulate?
  {
  }

  lemma LastPins(c: Codec, calls: seq<Call>, attach: string, name: string)
    requires calls != []
    ensures var n := |calls| - 1;
      Pins(c, calls, n, attach, name) <==>
      calls[n].Accumulate? && Concerns(calls[n], attach, name) && !Refuses(c, calls, n)
  {
  }

  lemma SchemaStep(c: Codec, d: Disk, call: Call, k: Key)
    ensures SchemaAt(Execute(c, d, call).0, k) ==
      if k != CallKey(call) || Execute(c, d, call).1.Refused? || call.Read? then SchemaAt(d, k)
      else if call.Clear? then None
      else Some(call.schema)
    ensures call.Accumulate? && !Execute(c, d, call).1.Refused? && k == CallKey(call) ==>
      SchemaAt(d, k).None? || SchemaAt(d, k) == Some(call.schema)
  {
  }

  /**
   After any run, a call is refused exactly for a bad name, for a reserved column,
   for a schema other than the one pinned, or for reading what nothing has pinned.
   */
  lemma RefusedIff(c: Codec, calls: seq<Call>, call: Call)
    ensures Refuses(c, calls + [call], |calls|) <==>
      || (forall i :: 0 <= i < |call.name| ==> Blank(call.name[i])) || |Utf8.Written(Scalars(call.name))| > 255
      || (call.Accumulate? && exists i :: 0 <= i < |call.schema| && call.schema[i].0 == "_timestamp")
      || (call.Accumulate?
          && exists i: nat :: Pins(c, calls, i, call.attach, call.name) && calls[i].schema != call.schema)
      || (call.Read? && forall i: nat :: !Pins(c, calls, i, call.attach, call.name))
  {
    PinnedSchema(c, calls, call.attach, call.name);
    PinsBound(c, calls, call.attach, call.name);
    RunNext(c, EMPTY_DISK, calls, call);
    hide Pins, RunDisk, KeyFor, Blank;
  }

  // ---- what is read back -------------------------------------------------

  /** Every row the collection was given since it was last cleared, oldest first. */
  function Given(c: Codec, calls: seq<Call>, attach: string, name: string): seq<Stamped> {
    if calls == [] then []
    else
      var n := |calls| - 1;
      var before := Given(c, calls[..n], attach, name);
      if !Concerns(calls[n], attach, name) || Refuses(c, calls, n) || calls[n].Read? then before
      else if calls[n].Clear? then []
      else before + Stamp(calls[n].request.rows, calls[n].request.now)
  }

  /** `a` is `b` with some rows left out. */
  ghost predicate Thinned(a: seq<Stamped>, b: seq<Stamped>) {
    if b == [] then a == []
    else
      || Thinned(a, b[..|b|-1])
      || (a != [] && a[|a|-1] == b[|b|-1] && Thinned(a[..|a|-1], b[..|b|-1]))
  }

  lemma {:induction false} ThinnedEmpty(b: seq<Stamped>)
    ensures Thinned([], b)
  {
    if b != [] { ThinnedEmpty(b[..|b|-1]); }
  }

  lemma {:induction false} ThinnedAppend(a: seq<Stamped>, b: seq<Stamped>, more: seq<Stamped>)
    requires Thinned(a, b)
    ensures Thinned(a + more, b + more)
    decreases |more|
  {
    if more == [] {
      assert a + more == a && b + more == b;
    } else {
      var n := |more| - 1;
      ThinnedAppend(a, b, more[..n]);
      assert (a + more)[..|a|+n] == a + more[..n] && (b + more)[..|b|+n] == b + more[..n];
    }
  }

  lemma {:induction false} ThinnedTwice(a: seq<Stamped>, b: seq<Stamped>, all: seq<Stamped>)
    requires Thinned(a, b) && Thinned(b, all)
    ensures Thinned(a, all)
    decreases |all|
  {
    if all != [] {
      var init := all[..|all|-1];
      if Thinned(b, init) {
        ThinnedTwice(a, b, init);
      } else {
        var short := b[..|b|-1];
        if Thinned(a, short) {
          ThinnedTwice(a, short, init);
        } else {
          ThinnedTwice(a[..|a|-1], short, init);
        }
      }
    }
  }

  lemma {:induction false} SinceThins(rows: seq<Stamped>, cutoff: int)
    ensures Thinned(Since(rows, cutoff), rows)
    decreases |rows|
  {
    if rows != [] {
      var n := |rows| - 1;
      SinceThins(rows[..n], cutoff);
      SinceAppend(rows[..n], [rows[n]], cutoff);
      SinceOne(rows[n], cutoff);
      assert rows == rows[..n] + [rows[n]];
      var kept := Since(rows[..n], cutoff);
      assert Since(rows, cutoff) == kept + (if rows[n].ts >= cutoff then [rows[n]] else []);
      if rows[n].ts >= cutoff { assert (kept + [rows[n]])[..|kept|] == kept; } else { assert kept + [] == kept; }
    }
  }

  /** Eviction by age decides row by row: a row stays unless it is older than the cutoff. */
  lemma SinceOne(r: Stamped, cutoff: int)
    ensures Since([r], cutoff) == if r.ts < cutoff then [] else [r]
  {
    assert Since([r], cutoff) == (if r.ts >= cutoff then [r] else []) + Since([], cutoff);
  }

  lemma {:induction false} SinceAppend(a: seq<Stamped>, b: seq<Stamped>, cutoff: int)
    ensures Since(a + b, cutoff) == Since(a, cutoff) + Since(b, cutoff)
    decreases |a|
  {
    if a == [] {
      assert a + b == b;
    } else {
      assert (a + b)[1..] == a[1..] + b && (a + b)[0] == a[0];
      SinceAppend(a[1..], b, cutoff);
      Assoc(if a[0].ts >= cutoff then [a[0]] else [], Since(a[1..], cutoff), Since(b, cutoff));
    }
  }

  lemma {:induction false} SuffixThins(rows: seq<Stamped>, k: nat)
    requires k <= |rows|
    ensures Thinned(rows[k..], rows)
    decreases |rows|
  {
    if k == |rows| {
      ThinnedEmpty(rows);
    } else {
      var n := |rows| - 1;
      SuffixThins(rows[..n], k);
      assert rows[k..][..n-k] == rows[..n][k..];
    }
  }

  lemma KeepsThin(rows: seq<Stamped>, cutoff: int, max: nat)
    ensures Thinned(rows, rows)
    ensures Thinned(KeepSince(rows, cutoff), rows)
    ensures Thinned(KeepLast(rows, max), rows)
  {
    SuffixThins(rows, 0);
    assert rows[0..] == rows;
    SinceThins(rows, cutoff);
    if |rows| > max { SuffixThins(rows, |rows| - max); }
  }

  lemma CombineThins(rows: seq<Stamped>, q: Request)
    ensures Thinned(CombineRows(rows, q), rows + Stamp(q.rows, q.now))
    ensures q.ttl.None? && q.maxRows <= 0 ==> CombineRows(rows, q) == rows + Stamp(q.rows, q.now)
  {
    hide Thinned, KeepSince, KeepLast, Stamp, Micros;
    var all := rows + Stamp(q.rows, q.now);
    var cutoff := if Ttl(q).Some? then q.now - Ttl(q).value else 0;
    var aged := if Ttl(q).Some? then KeepSince(all, cutoff) else all;
    KeepsThin(all, cutoff, 0);
    KeepsThin(aged, 0, if q.maxRows > 0 then q.maxRows else 0);
    ThinnedTwice(CombineRows(rows, q), aged, all);
  }

  ghost predicate Unlimited(calls: seq<Call>) {
    forall i :: 0 <= i < |calls| && calls[i].Accumulate? ==> calls[i].request.ttl.None? && calls[i].request.maxRows <= 0
  }

  lemma FlatNext(f: Flat, calls: seq<Call>, call: Call)
    ensures var (f', replies) := RunFlat(f, calls); var (f'', reply) := FlatExecute(f', call);
      RunFlat(f, calls + [call]) == (f'', replies + [reply])
  {
    hide FlatExecute;
    assert (calls + [call])[..|calls|] == calls;
  }

  /** One call's effect on the rows of a collection. */
  lemma RowsStep(f: Flat, call: Call, k: Key)
    ensures RowsAt(FlatExecute(f, call).0, k) ==
      if k != CallKey(call) || FlatExecute(f, call).1.FlatRefused? || call.Read? then RowsAt(f, k)
      else if call.Clear? then []
      else CombineRows(RowsAt(f, k), call.request)
  {
    hide CombineRows, KeyFor, ValidName;
  }

  lemma SameRefusals(c: Codec, calls: seq<Call>, call: Call)
    requires c.Inverse() && StorableCall(c, call) && forall i :: 0 <= i < |calls| ==> StorableCall(c, calls[i])
    ensures Refuses(c, calls + [call], |calls|) <==> FlatExecute(RunFlat(EMPTY_FLAT, calls).0, call).1.FlatRefused?
  {
    hide FlatExecute, RunDisk, RunFlat;
    StoreRefinesFlatLists(c, calls);
    StoreRefinesFlatLists(c, calls + [call]);
    FlatNext(EMPTY_FLAT, calls, call);
    assert SameReply(RunDisk(c, EMPTY_DISK, calls + [call]).1[|calls|], RunFlat(EMPTY_FLAT, calls + [call]).1[|calls|]);
  }

  lemma GivenNext(c: Codec, calls: seq<Call>, call: Call, attach: string, name: string)
    ensures var before := Given(c, calls, attach, name);
      Given(c, calls + [call], attach, name) ==
        if !Concerns(call, attach, name) || Refuses(c, calls + [call], |calls|) || call.Read? then before
        else if call.Clear? then []
        else before + Stamp(call.request.rows, call.request.now)
  {
    hide Refuses, Concerns, Stamp;
    assert (calls + [call])[..|calls|] == calls;
  }

  /** The rows a collection holds are among those it was given, and all of them when nothing limits them. */
  ghost predicate RowsAre(rows: seq<Stamped>, given: seq<Stamped>, calls: seq<Call>) {
    Thinned(rows, given) && (Unlimited(calls) ==> rows == given)
  }

  lemma AccumulateStep(rows: seq<Stamped>, given: seq<Stamped>, calls: seq<Call>, call: Call)
    requires RowsAre(rows, given, calls) && call.Accumulate?
    ensures RowsAre(CombineRows(rows, call.request),
      given + Stamp(call.request.rows, call.request.now), calls + [call])
  {
    var stamped := Stamp(call.request.rows, call.request.now);
    CombineThins(rows, call.request);
    hide CombineRows, Thinned, Stamp;
    ThinnedAppend(rows, given, stamped);
    ThinnedTwice(CombineRows(rows, call.request), rows + stamped, given + stamped);
    if Unlimited(calls + [call]) {
      assert (calls + [call])[|calls|] == call;
      forall i | 0 <= i < |calls| ensures (calls + [call])[i] == calls[i] {}
    }
  }

  lemma {:induction false} RowsAreGiven(c: Codec, calls: seq<Call>, attach: string, name: string)
    requires c.Inverse() && forall i :: 0 <= i < |calls| ==> StorableCall(c, calls[i])
    ensures RowsAre(RowsAt(RunFlat(EMPTY_FLAT, calls).0, KeyFor(attach, name)), Given(c, calls, attach, name), calls)
    decreases |calls|
  {
    if calls != [] {
      var n := |calls| - 1;
      var before, call, k := calls[..n], calls[n], KeyFor(attach, name);
      var f := RunFlat(EMPTY_FLAT, before).0;
      assert calls == before + [call];
      RowsAreGiven(c, before, attach, name);
      FlatNext(EMPTY_FLAT, before, call);
      OwnKey(call, attach, name);
      RowsStep(f, call, k);
      SameRefusals(c, before, call);
      GivenNext(c, before, call, attach, name);
      ThinnedEmpty([]);
      if call.Accumulate? { AccumulateStep(RowsAt(f, k), Given(c, before, attach, name), before, call); }
      hide CombineRows, Thinned, Refuses, RunFlat, FlatExecute, KeyFor, Concerns, Given, RowsAt;
      ShorterUnlimited(before, call);
    }
  }

  lemma ShorterUnlimited(calls: seq<Call>, call: Call)
    ensures Unlimited(calls + [call]) ==> Unlimited(calls)
  {
    forall i | 0 <= i < |calls| ensures (calls + [call])[i] == calls[i] {}
  }

  /**
   A read gives back rows the collection was given since it was last cleared, in
   order and with their times; all of them, when no call asked for a limit.
   */
  lemma ReadsWhatWasGiven(c: Codec, calls: seq<Call>, attach: string, name: string)
    requires c.Inverse() && forall i :: 0 <= i < |calls| ==> StorableCall(c, calls[i])
    ensures var reply := RunDisk(c, EMPTY_DISK, calls + [Read(attach, name)]).1[|calls|];
      reply.Refused? || (reply.Batches? && Thinned(Flatten(reply.batches), Given(c, calls, attach, name))
        && (Unlimited(calls) ==> Flatten(reply.batches) == Given(c, calls, attach, name)))
  {
    var read := Read(attach, name);
    RowsAreGiven(c, calls, attach, name);
    StoreRefinesFlatLists(c, calls + [read]);
    FlatNext(EMPTY_FLAT, calls, read);
    StoreRefinesFlatLists(c, calls);
    assert SameReply(RunDisk(c, EMPTY_DISK, calls + [read]).1[|calls|], RunFlat(EMPTY_FLAT, calls + [read]).1[|calls|]);
    hide RunDisk, RunFlat, Thinned, Given;
  }

  lemma {:induction false} SinceMembers(rows: seq<Stamped>, cutoff: int, r: Stamped)
    ensures r in Since(rows, cutoff) <==> r in rows && r.ts >= cutoff
  {
    if rows != [] {
      SinceMembers(rows[1..], cutoff, r);
      assert rows == [rows[0]] + rows[1..];
    }
  }

  /**
   With a positive cutoff exactly the rows not older than it stay, as far as the cap
   has room for them; with a cap alone exactly the newest rows.
   */
  lemma LimitsMean(rows: seq<Stamped>, q: Request, r: Stamped)
    ensures var all, out := rows + Stamp(q.rows, q.now), CombineRows(rows, q);
      && (q.maxRows > 0 ==> |out| <= q.maxRows)
      && (q.maxRows > 0 && q.ttl.None? ==> out == all[|all| - Min(|all|, q.maxRows)..])
      && (q.ttl.Some? && q.now > Micros(q.ttl.value) ==>
           (r in out ==> r.ts >= q.now - Micros(q.ttl.value))
           && (r in all && r.ts >= q.now - Micros(q.ttl.value) && (q.maxRows <= 0 || |out| < q.maxRows) ==> r in out))
      && (q.ttl.Some? && q.now <= Micros(q.ttl.value) && q.maxRows <= 0 ==> out == all)
  {
    hide Stamp, Since, Micros;
    if Ttl(q).Some? { SinceMembers(rows + Stamp(q.rows, q.now), q.now - Ttl(q).value, r); }
  }

  /** A month is thirty days, a day 86400 seconds, and what is left of the nanoseconds is cut towards zero. */
  lemma IntervalMeans(months: int, days: int, nanos: int)
    ensures var rest := Micros(Fields(0, 0, nanos));
      && Micros(Fields(months, days, nanos)) == (30 * months + days) * 24 * 60 * 60 * 1_000_000 + rest
      && (nanos >= 0 ==> 0 <= nanos - 1000 * rest < 1000)
      && (nanos <= 0 ==> 0 <= 1000 * rest - nanos < 1000)
  {
  }

  /** What is returned: nothing, the new rows even if they do not outlive the limits, or all that a read would give. */
  lemma RepliesByMode(c: Codec, calls: seq<Call>, call: Call)
    requires c.Inverse() && call.Accumulate? && StorableCall(c, call)
    requires forall i :: 0 <= i < |calls| ==> StorableCall(c, calls[i])
    requires !Refuses(c, calls + [call], |calls|)
    ensures var reply := RunDisk(c, EMPTY_DISK, calls + [call]).1[|calls|];
      var next := RunDisk(c, EMPTY_DISK, calls + [call] + [Read(call.attach, call.name)]).1[|calls| + 1];
      && reply.Batches? && next.Batches?
      && match call.request.mode
         case ResultNone => Flatten(reply.batches) == []
         case ResultNew => Flatten(reply.batches) == Stamp(call.request.rows, call.request.now)
         case ResultAll => Flatten(reply.batches) == Flatten(next.batches)
  {
    hide CombineRows, Stamp, ValidName, KeyFor;
    var read := Read(call.attach, call.name);
    StoreRefinesFlatLists(c, calls + [call] + [read]);
    SameRefusals(c, calls, call);
    FlatNext(EMPTY_FLAT, calls, call);
    FlatNext(EMPTY_FLAT, calls + [call], read);
    StoreRefinesFlatLists(c, calls);
    RunNext(c, EMPTY_DISK, calls, call);
    RunNext(c, EMPTY_DISK, calls + [call], read);
    StoreRefinesFlatLists(c, calls + [call]);
    hide RunDisk, RunFlat, Execute;
    assert SameReply(RunDisk(c, EMPTY_DISK, calls + [call]).1[|calls|], RunFlat(EMPTY_FLAT, calls + [call]).1[|calls|]);
    var all := calls + [call] + [read];
    assert SameReply(RunDisk(c, EMPTY_DISK, all).1[|calls| + 1], RunFlat(EMPTY_FLAT, all).1[|calls| + 1]);
  }
}
