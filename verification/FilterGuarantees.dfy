/**
 What holds of a scan's filters over every sequence of turns, whatever the
 documents say: a required predicate stays as the snapshot gave it, a document that
 touches one changes nothing, and whatever a document brings in is advisory.
 */
module FilterGuarantees {
  import opened Seqs
  import opened Bytes
  import opened FilterHistory
  import opened FilterStream

  ghost predicate RequiredAsIn(f0: Filters, f: Filters) {
    f.required == f0.required && forall id :: id in f0.required ==> SameFor(f0, f, id)
  }

  lemma TickKeepsRequired(parse: Reader, f0: Filters, f: Filters, h: Carried, tick: Option<Doc>)
    requires RequiredAsIn(f0, f)
    ensures RequiredAsIn(f0, Ticked(parse, f, h, tick).0)
  {
    if tick.Some? && Accepts(parse, f, tick.value) { RequiredUntouched(f, Updates(parse, tick.value)); }
  }

  /** A byte-stream connection never loses or alters a required predicate. */
  lemma {:induction false} MemoryKeepsRequired(parse: Reader, f0: Filters, ticks: seq<Option<Doc>>)
    ensures RequiredAsIn(f0, Memory(parse, f0, ticks).0)
  {
    if ticks != [] {
      var (f, h) := Memory(parse, f0, ticks[..|ticks|-1]);
      MemoryKeepsRequired(parse, f0, ticks[..|ticks|-1]);
      TickKeepsRequired(parse, f0, f, h, ticks[|ticks|-1]);
    }
  }

  lemma {:induction false} ReplayKeepsRequired(f0: Filters, ds: seq<Delta>)
    requires ReplayAll(f0, ds).Ok?
    ensures RequiredAsIn(f0, ReplayAll(f0, ds).value)
  {
    if ds != [] {
      ReplayKeepsRequired(f0, ds[..|ds|-1]);
      RequiredUntouched(ReplayAll(f0, ds[..|ds|-1]).value, ds[|ds|-1]);
    }
  }

  /** Nor can any token make a turn start without one. */
  lemma RebuiltKeepsRequired(parse: Reader, f0: Filters, token: seq<Byte>)
    requires Rebuild(parse, f0, token).Ok?
    ensures RequiredAsIn(f0, Rebuild(parse, f0, token).value.0)
  {
    var h := Opened(parse, Rebuild(parse, f0, token).value.1);
    if h.deltas != [] { ReplayKeepsRequired(f0, h.deltas); }
  }

  lemma LastTurnWorked(parse: Reader, f0: Filters, ticks: seq<Option<Doc>>)
    requires Http(parse, f0, ticks).Ok? && ticks != []
    ensures Http(parse, f0, ticks[..|ticks|-1]).Ok?
    ensures Rebuild(parse, f0, Http(parse, f0, ticks[..|ticks|-1]).value).Ok?
  {
    hide Rebuild, Ticked, TokenOf;
  }

  lemma {:induction false} EarlierTurnsWorked(parse: Reader, f0: Filters, ticks: seq<Option<Doc>>, k: nat)
    requires Http(parse, f0, ticks).Ok? && k < |ticks|
    ensures Http(parse, f0, ticks[..k]).Ok?
    ensures Rebuild(parse, f0, Http(parse, f0, ticks[..k]).value).Ok?
    decreases |ticks|
  {
    hide Http, Rebuild;
    LastTurnWorked(parse, f0, ticks);
    var n := |ticks| - 1;
    if k < n {
      assert ticks[..n][..k] == ticks[..k];
      EarlierTurnsWorked(parse, f0, ticks[..n], k);
    }
  }

  /** In every turn of an HTTP stream, before and after its document, the required predicates are the snapshot's. */
  lemma HttpKeepsRequired(parse: Reader, f0: Filters, ticks: seq<Option<Doc>>, k: nat)
    requires Http(parse, f0, ticks).Ok? && k < |ticks|
    ensures Http(parse, f0, ticks[..k]).Ok?
    ensures var start := Rebuild(parse, f0, Http(parse, f0, ticks[..k]).value);
      && start.Ok? && RequiredAsIn(f0, start.value.0)
      && RequiredAsIn(f0, Ticked(parse, start.value.0, start.value.1, ticks[k]).0)
  {
    EarlierTurnsWorked(parse, f0, ticks, k);
    var token := Http(parse, f0, ticks[..k]).value;
    RebuiltKeepsRequired(parse, f0, token);
    var (f, h) := Rebuild(parse, f0, token).value;
    TickKeepsRequired(parse, f0, f, h, ticks[k]);
  }

  ghost predicate TargetsRequired(parse: Reader, f0: Filters, doc: Doc) {
    exists u :: u in Updates(parse, doc) && u.id in f0.required
  }

  lemma TargetingIsRefused(parse: Reader, f: Filters, doc: Doc)
    requires TargetsRequired(parse, f, doc)
    ensures !Accepts(parse, f, doc)
  {
    if Accepts(parse, f, doc) { RequiredUntouched(f, Updates(parse, doc)); }
  }

  /**
   A document with an update of a required predicate, stale or not, is refused, at
   whatever point of a run it comes: filters and history stay as they were, and an
   HTTP stream hands out the token it was given.
   */
  lemma TargetingChangesNothing(parse: Reader, f0: Filters, ticks: seq<Option<Doc>>, doc: Doc)
    requires TargetsRequired(parse, f0, doc)
    ensures Memory(parse, f0, ticks + [Some(doc)]) == Memory(parse, f0, ticks)
    ensures Snapshot(f0) && Http(parse, f0, ticks + [Some(doc)]).Ok?
      ==> Http(parse, f0, ticks + [Some(doc)]) == Http(parse, f0, ticks)
  {
    var longer := ticks + [Some(doc)];
    assert longer[..|ticks|] == ticks;
    MemoryKeepsRequired(parse, f0, ticks);
    TargetingIsRefused(parse, Memory(parse, f0, ticks).0, doc);
    assert Ticked(parse, Memory(parse, f0, ticks).0, Memory(parse, f0, ticks).1, Some(doc)) == Memory(parse, f0, ticks);
    if Snapshot(f0) && Http(parse, f0, longer).Ok? {
      HttpFollowsMemory(parse, f0, longer);
      HttpFollowsMemory(parse, f0, ticks);
    }
  }

  /** Every live predicate is the snapshot's own or an advisory one. */
  lemma {:induction false} MemoryBringsInAdvisory(parse: Reader, f0: Filters, ticks: seq<Option<Doc>>, id: Id)
    requires Snapshot(f0) && id in Memory(parse, f0, ticks).0.live
    ensures var p := Memory(parse, f0, ticks).0.live[id];
      p.mode == Advisory || (id in f0.live && f0.live[id] == p)
  {
    if ticks != [] {
      var n := |ticks| - 1;
      var (f, h) := Memory(parse, f0, ticks[..n]);
      var p := Memory(parse, f0, ticks).0.live[id];
      MemoryInv(parse, f0, ticks[..n]);
      if id in f.live && f.live[id] == p {
        MemoryBringsInAdvisory(parse, f0, ticks[..n], id);
      } else {
        BroughtInIsAdvisory(f, Updates(parse, ticks[n].value), id);
      }
    }
  }
}
