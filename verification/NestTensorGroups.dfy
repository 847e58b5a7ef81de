/**
 The aggregate over many groups at once: rows of different groups arrive
 interleaved in one batch, and each group's state evolves as if it were alone.
 One group's error fails the whole call.
 */
module NestTensorGroups {
  import opened Seqs
  import opened NestTensor

  datatype Tagged = Tagged(gid: int, input: Input)

  /** The inputs of one group, in order. */
  function Of(batch: seq<Tagged>, g: int): seq<Input> {
    if batch == [] then [] else (if batch[0].gid == g then [batch[0].input] else []) + Of(batch[1..], g)
  }

  lemma {:induction false} OfAppend(a: seq<Tagged>, b: seq<Tagged>, g: int)
    ensures Of(a + b, g) == Of(a, g) + Of(b, g)
  {
    if a == [] {
      assert a + b == b;
    } else {
      assert (a + b)[1..] == a[1..] + b;
      OfAppend(a[1..], b, g);
      Assoc(if a[0].gid == g then [a[0].input] else [], Of(a[1..], g), Of(b, g));
    }
  }

  lemma OfStep(batch: seq<Tagged>, i: nat, g: int)
    requires i < |batch|
    ensures Of(batch[..i+1], g) == if batch[i].gid == g then Of(batch[..i], g) + [batch[i].input] else Of(batch[..i], g)
  {
    assert batch[..i+1] == batch[..i] + [batch[i]];
    OfAppend(batch[..i], [batch[i]], g);
    assert Of([batch[i]], g) == (if batch[i].gid == g then [batch[i].input] else []) + Of([], g);
    assert Of(batch[..i], g) + [] == Of(batch[..i], g);
  }

  /** Row `i` is where its group's inputs continue after those before it. */
  lemma OfSplit(batch: seq<Tagged>, i: nat)
    requires i < |batch|
    ensures var g, n := batch[i].gid, |Of(batch[..i], batch[i].gid)|;
      n < |Of(batch, g)| && Of(batch, g)[n] == batch[i].input && Of(batch, g)[..n] == Of(batch[..i], g)
  {
    OfStep(batch, i, batch[i].gid);
    assert batch == batch[..i+1] + batch[i+1..];
    OfAppend(batch[..i+1], batch[i+1..], batch[i].gid);
  }

  type States = map<int, seq<Row>>

  function StateOf(states: States, g: int): seq<Row> { if g in states then states[g] else [] }

  ghost predicate AllClean(batch: seq<Tagged>) { forall g :: Clean(Of(batch, g)) }

  // ---- one call ----------------------------------------------------------

  function SeenBy(seen: map<int, set<seq<int>>>, g: int): set<seq<int>> { if g in seen then seen[g] else {} }

  /** Every group's share of `done` has been folded into its state without complaint. */
  ghost predicate AllFolded(
      before: States, done: seq<Tagged>, states: States, seen: map<int, set<seq<int>>>)
  {
    forall g :: Folded(StateOf(before, g), Of(done, g), StateOf(states, g), SeenBy(seen, g))
  }

  lemma SkipNullAxes(before: States, batch: seq<Tagged>, i: nat, states: States, seen: map<int, set<seq<int>>>)
    requires i < |batch| && batch[i].input.NullAxes? && AllFolded(before, batch[..i], states, seen)
    ensures AllFolded(before, batch[..i+1], states, seen)
  {
    hide Folded, Of;
    forall g ensures Folded(StateOf(before, g), Of(batch[..i+1], g), StateOf(states, g), SeenBy(seen, g)) {
      assert Folded(StateOf(before, g), Of(batch[..i], g), StateOf(states, g), SeenBy(seen, g));
      OfStep(batch, i, g);
      if batch[i].gid == g { FoldedNull(StateOf(before, g), Of(batch[..i], g), StateOf(states, g), SeenBy(seen, g)); }
    }
  }

  lemma FoldRow(before: States, batch: seq<Tagged>, i: nat, states: States, seen: map<int, set<seq<int>>>)
    requires i < |batch| && AllFolded(before, batch[..i], states, seen)
    requires var x := batch[i].input;
      x.Axes? && !HasNull(x) && Values(x.coords) !in SeenBy(seen, batch[i].gid)
    ensures var gid, x := batch[i].gid, batch[i].input;
      var row := Row(Values(x.coords), x.value);
      AllFolded(before, batch[..i+1],
        states[gid := StateOf(states, gid) + [row]], seen[gid := SeenBy(seen, gid) + {row.coords}])
  {
    hide Folded, Of;
    var gid, x := batch[i].gid, batch[i].input;
    var row := Row(Values(x.coords), x.value);
    var states', seen' := states[gid := StateOf(states, gid) + [row]], seen[gid := SeenBy(seen, gid) + {row.coords}];
    forall g ensures Folded(StateOf(before, g), Of(batch[..i+1], g), StateOf(states', g), SeenBy(seen', g)) {
      assert Folded(StateOf(before, g), Of(batch[..i], g), StateOf(states, g), SeenBy(seen, g));
      OfStep(batch, i, g);
      if g == gid { FoldedRow(StateOf(before, g), Of(batch[..i], g), StateOf(states, g), SeenBy(seen, g), x); }
    }
  }

  lemma NullFails(batch: seq<Tagged>, i: nat)
    requires i < |batch| && HasNull(batch[i].input)
    ensures !AllClean(batch)
  {
    OfSplit(batch, i);
    assert !Clean(Of(batch, batch[i].gid));
  }

  lemma RepeatFails(before: States, batch: seq<Tagged>, i: nat, states: States, seen: map<int, set<seq<int>>>)
    requires i < |batch| && AllFolded(before, batch[..i], states, seen)
    requires batch[i].input.Axes? && Values(batch[i].input.coords) in SeenBy(seen, batch[i].gid)
    ensures !AllClean(batch)
  {
    var g := batch[i].gid;
    OfSplit(batch, i);
    assert Folded(StateOf(before, g), Of(batch[..i], g), StateOf(states, g), SeenBy(seen, g));
    SeenFails(StateOf(before, g), Of(batch, g), |Of(batch[..i], g)|, StateOf(states, g), SeenBy(seen, g));
  }

  /** One update call; a group's state comes into being with its first accepted row. */
  method UpdateGroups(before: States, batch: seq<Tagged>) returns (r: Result<States>)
    ensures r.Ok? <==> AllClean(batch)
    ensures r.Ok? ==> forall g :: StateOf(r.value, g) == StateOf(before, g) + Parsed(Of(batch, g))
    ensures r.Ok? ==> forall g :: Lists(Parsed(Of(batch, g)), Of(batch, g))
  {
    hide Folded, HasNull, Of, Lists;
    var states := before;
    var seen: map<int, set<seq<int>>> := map[];
    NothingFolded(before, batch);
    for i := 0 to |batch|
      invariant AllFolded(before, batch[..i], states, seen)
    {
      var gid, x := batch[i].gid, batch[i].input;
      if x.NullAxes? {
        SkipNullAxes(before, batch, i, states, seen);
        continue;
      }
      if HasNull(x) {
        NullFails(batch, i);
        return Err("null coord value");
      }
      var coords := Values(x.coords);
      if coords in SeenBy(seen, gid) {
        RepeatFails(before, batch, i, states, seen);
        return Err("duplicate coordinate");
      }
      FoldRow(before, batch, i, states, seen);
      seen := seen[gid := SeenBy(seen, gid) + {coords}];
      states := states[gid := StateOf(states, gid) + [Row(coords, x.value)]];
    }
    assert batch[..|batch|] == batch;
    AllDone(before, batch, states, seen);
    r := Ok(states);
  }

  lemma NothingFolded(before: States, batch: seq<Tagged>)
    ensures AllFolded(before, batch[..0], before, map[])
  {
    forall g ensures Folded(StateOf(before, g), Of(batch[..0], g), StateOf(before, g), SeenBy(map[], g)) {
      assert StateOf(before, g) + [] == StateOf(before, g);
    }
  }

  lemma AllDone(before: States, batch: seq<Tagged>, states: States, seen: map<int, set<seq<int>>>)
    requires AllFolded(before, batch, states, seen)
    ensures AllClean(batch)
    ensures forall g :: StateOf(states, g) == StateOf(before, g) + Parsed(Of(batch, g))
    ensures forall g :: Lists(Parsed(Of(batch, g)), Of(batch, g))
  {
    hide Of, Lists, Clean;
    forall g
      ensures Clean(Of(batch, g)) && Lists(Parsed(Of(batch, g)), Of(batch, g))
      ensures StateOf(states, g) == StateOf(before, g) + Parsed(Of(batch, g))
    {
      assert Folded(StateOf(before, g), Of(batch, g), StateOf(states, g), SeenBy(seen, g));
      CleanRows(Of(batch, g));
    }
  }

  /** Merge one group's state into another's; two absent states stay absent. */
  method CombineGroups(before: States, src: int, tgt: int) returns (states: States)
    ensures forall g ::
      StateOf(states, g) == if g == tgt then StateOf(before, tgt) + StateOf(before, src) else StateOf(before, g)
  {
    if src !in before && tgt !in before { return before; }
    states := before[tgt := StateOf(before, tgt) + StateOf(before, src)];
  }

  // ---- a whole run -------------------------------------------------------

  datatype Step = UpdateStep(batch: seq<Tagged>) | CombineStep(src: int, tgt: int)

  /** What one group has been through: the steps that touch it, and those of the groups merged into it. */
  function PlanOf(steps: seq<Step>, g: int): Plan
    decreases |steps|, 0
  {
    if steps == [] then Initial else Next(steps[..|steps|-1], steps[|steps|-1], g)
  }

  function Next(steps: seq<Step>, step: Step, g: int): Plan
    decreases |steps|, 1
  {
    match step
    case UpdateStep(batch) => Updated(PlanOf(steps, g), Of(batch, g))
    case CombineStep(src, tgt) =>
      if g == tgt then Combined(PlanOf(steps, src), PlanOf(steps, tgt)) else PlanOf(steps, g)
  }

  /** Every input row a group has got, by itself or with a group merged into it. */
  function InputsOf(steps: seq<Step>, g: int): seq<Input> { Inputs(PlanOf(steps, g)) }

  function RowsOf(steps: seq<Step>, g: int): seq<Row> { Parsed(InputsOf(steps, g)) }

  ghost predicate Accepted(steps: seq<Step>) {
    forall i :: 0 <= i < |steps| && steps[i].UpdateStep? ==> AllClean(steps[i].batch)
  }

  /** Each group's state is what its own plan gives, whatever the other groups did. */
  ghost predicate Tracks(states: States, steps: seq<Step>) { forall g :: StateOf(states, g) == RowsOf(steps, g) }

  lemma PlanNext(steps: seq<Step>, step: Step, g: int)
    ensures PlanOf(steps + [step], g) == Next(steps, step, g)
  {
    assert (steps + [step])[..|steps|] == steps;
  }

  lemma TracksUpdate(before: States, after: States, steps: seq<Step>, batch: seq<Tagged>)
    requires Tracks(before, steps)
    requires forall g :: StateOf(after, g) == StateOf(before, g) + Parsed(Of(batch, g))
    ensures Tracks(after, steps + [UpdateStep(batch)])
  {
    hide PlanOf, Parsed, Of;
    forall g ensures StateOf(after, g) == RowsOf(steps + [UpdateStep(batch)], g) {
      PlanNext(steps, UpdateStep(batch), g);
      ParsedAppend(Inputs(PlanOf(steps, g)), Of(batch, g));
    }
  }

  lemma TracksCombine(before: States, after: States, steps: seq<Step>, src: int, tgt: int)
    requires Tracks(before, steps)
    requires forall g ::
      StateOf(after, g) == if g == tgt then StateOf(before, tgt) + StateOf(before, src) else StateOf(before, g)
    ensures Tracks(after, steps + [CombineStep(src, tgt)])
  {
    hide PlanOf, Parsed;
    forall g ensures StateOf(after, g) == RowsOf(steps + [CombineStep(src, tgt)], g) {
      PlanNext(steps, CombineStep(src, tgt), g);
      ParsedAppend(Inputs(PlanOf(steps, tgt)), Inputs(PlanOf(steps, src)));
    }
  }

  method RunSteps(steps: seq<Step>) returns (r: Result<States>)
    ensures r.Ok? <==> Accepted(steps)
    ensures r.Ok? ==> forall g :: Lists(StateOf(r.value, g), InputsOf(steps, g))
  {
    hide AllClean, StateOf, Tracks, PlanOf, Lists;
    var states: States := map[];
    NothingRun();
    for i := 0 to |steps|
      invariant Accepted(steps[..i]) && Tracks(states, steps[..i])
    {
      assert steps[..i+1] == steps[..i] + [steps[i]];
      match steps[i]
      case UpdateStep(batch) =>
        var next := UpdateGroups(states, batch);
        if next.Err? { return next; }
        TracksUpdate(states, next.value, steps[..i], batch);
        states := next.value;
      case CombineStep(src, tgt) =>
        var next := CombineGroups(states, src, tgt);
        TracksCombine(states, next, steps[..i], src, tgt);
        states := next;
    }
    assert steps[..|steps|] == steps;
    TracksLists(states, steps);
    r := Ok(states);
  }

  lemma {:induction false} OwnPlanAccepted(steps: seq<Step>, g: int)
    requires Accepted(steps)
    ensures Accepts(PlanOf(steps, g))
    decreases |steps|
  {
    if steps != [] {
      var before, step := steps[..|steps|-1], steps[|steps|-1];
      assert Accepted(before) by {
        forall i | 0 <= i < |before| && before[i].UpdateStep? ensures AllClean(before[i].batch) {
          assert steps[i] == before[i];
        }
      }
      OwnPlanAccepted(before, g);
      match step
      case UpdateStep(batch) =>
        assert Clean(Of(batch, g));
      case CombineStep(src, tgt) =>
        OwnPlanAccepted(before, src);
        OwnPlanAccepted(before, tgt);
    }
  }

  lemma TracksLists(states: States, steps: seq<Step>)
    requires Accepted(steps) && Tracks(states, steps)
    ensures forall g :: Lists(StateOf(states, g), InputsOf(steps, g))
  {
    hide Lists, PlanOf, Accepted;
    forall g ensures Lists(StateOf(states, g), InputsOf(steps, g)) {
      OwnPlanAccepted(steps, g);
      AcceptedHasNoNulls(PlanOf(steps, g));
      ParsedLists(InputsOf(steps, g));
      assert StateOf(states, g) == RowsOf(steps, g);
    }
  }

  lemma NothingRun()
    ensures Tracks(map[], [])
  {
  }

  /**
   The whole aggregate over interleaved groups: it succeeds exactly when every batch
   is clean group by group and every requested group's inputs are free of repeats and
   within the cap; and then each requested group gets the tensor of its own inputs.
   */
  method AggregateGroups(steps: seq<Step>, gids: seq<int>, d: nat, cap: nat) returns (r: Result<seq<Dense>>)
    requires forall g :: Even(InputsOf(steps, g), d)
    requires d > 0 && cap > 0
    ensures r.Ok? <==> Accepted(steps) && forall i :: 0 <= i < |gids| ==> Fits(InputsOf(steps, gids[i]), d, cap)
    ensures r.Ok? ==> |r.value| == |gids|
    ensures r.Ok? ==> forall i :: 0 <= i < |gids| ==> Depicts(r.value[i], InputsOf(steps, gids[i]), d)
  {
    hide Accepted, InputsOf, Depicts, Fits, Lists, Even;
    var run := RunSteps(steps);
    if run.Err? { return Err(run.error); }
    var tensors := [];
    for i := 0 to |gids|
      invariant |tensors| == i
      invariant forall k :: 0 <= k < i ==> Fits(InputsOf(steps, gids[k]), d, cap)
      invariant forall k :: 0 <= k < i ==> Depicts(tensors[k], InputsOf(steps, gids[k]), d)
    {
      var tensor := FinalizeInputs(StateOf(run.value, gids[i]), InputsOf(steps, gids[i]), d, cap);
      if tensor.Err? { return Err(tensor.error); }
      tensors := tensors + [tensor.value];
    }
    r := Ok(tensors);
  }

  /** Rows of other groups leave no trace in a group. */
  lemma OthersLeaveNoTrace(steps: seq<Step>, batch: seq<Tagged>, g: int)
    requires forall i :: 0 <= i < |batch| ==> batch[i].gid != g
    ensures InputsOf(steps + [UpdateStep(batch)], g) == InputsOf(steps, g)
  {
    PlanNext(steps, UpdateStep(batch), g);
    NotOf(batch, g);
    assert Inputs(PlanOf(steps, g)) + [] == Inputs(PlanOf(steps, g));
  }

  lemma {:induction false} NotOf(batch: seq<Tagged>, g: int)
    requires forall i :: 0 <= i < |batch| ==> batch[i].gid != g
    ensures Of(batch, g) == []
  {
    if batch != [] { NotOf(batch[1..], g); }
  }
}
