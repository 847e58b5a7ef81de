/**
 Families of runs whose HTTP stream fails although every document was accepted: an
 update that was stale on arrival wakes once the delta that made it stale is
 dropped, or a live id does not survive the state token.
 */
module FilterHistoryCounterexample {
  import opened Seqs
  import opened FilterHistory
  import opened FilterStream
  import HistoryToken
  import Utf8

  /**
   Three documents `[a1]`, `[late, b]`, `[a2]`: `late` is a stale update of `a1`'s id,
   `b` updates another id, and `a2` supersedes `a1`.
   */
  ghost predicate Scenario(f0: Filters, a1: Update, late: Update, b: Update, a2: Update) {
    && Snapshot(f0)
    && Shallow(f0.required, [a1]) && Shallow(f0.required, [late, b]) && Shallow(f0.required, [a2])
    && a1.id == late.id == a2.id && b.id != a1.id
    && TrackOf(f0, a1.id).revision < late.revision <= a1.revision < a2.revision
    && TrackOf(f0, b.id).revision < b.revision
    && Parses([a1]) && Parses([b]) && Parses([a2])
    && |f0.revisions.Keys + {a1.id} + {b.id}| <= MAX_PREDICATE_IDS
    && (forall id :: id in f0.order ==> Utf8.Survives(id)) && Utf8.Survives(a1.id) && Utf8.Survives(b.id)
  }

  /** Three documents that read as those. */
  ghost predicate Documents(
      parse: Reader, docs: seq<Doc>, a1: Update, late: Update, b: Update, a2: Update)
  {
    && |docs| == 3
    && ReadDoc(parse, docs[0]) == Some([a1]) && ReadDoc(parse, docs[1]) == Some([late, b])
    && ReadDoc(parse, docs[2]) == Some([a2])
  }

  function Ticks(docs: seq<Doc>): seq<Option<Doc>> {
    if docs == [] then [] else Ticks(docs[..|docs|-1]) + [Some(docs[|docs|-1])]
  }

  // ---- one delta with one fresh update -----------------------------------

  lemma AcceptOne(f: Filters, d: Delta, u: Update) returns (f': Filters)
    requires Shallow(f.required, d) && Fresh(f, d) == [u] && Parses([u])
    requires |f.revisions.Keys + {u.id}| <= MAX_PREDICATE_IDS
    ensures Apply(f, d) == Ok(f') && f'.revisions == f.revisions[u.id := u.revision] && f'.required == f.required
  {
    assert [u][0] == u && [u][1..] == [];
    assert IdsOf([u]) == {u.id};
    f' := Install(f, u);
    assert InstallAll(f, [u]) == InstallAll(f', []);
  }

  lemma FreshOne(f: Filters, u: Update)
    requires !Stale(f, u)
    ensures Fresh(f, [u]) == [u]
  {
    assert [u][1..] == [];
  }

  lemma FreshSecond(f: Filters, u: Update, v: Update)
    requires Stale(f, u) && !Stale(f, v)
    ensures Fresh(f, [u, v]) == [v]
  {
    assert [u, v][1..] == [v];
    FreshOne(f, v);
  }

  lemma SameRoom(ids: set<Id>, x: Id, y: Id)
    ensures |ids + {x}| <= |ids + {x} + {y}|
  {
    Fits(ids + {x}, ids + {x} + {y});
  }

  /** The filters after each document. */
  lemma Steps(f0: Filters, a1: Update, late: Update, b: Update, a2: Update)
      returns (f1: Filters, f2: Filters, f3: Filters)
    requires Scenario(f0, a1, late, b, a2)
    ensures Apply(f0, [a1]) == Ok(f1) && f1.revisions == f0.revisions[a1.id := a1.revision]
    ensures Apply(f1, [late, b]) == Ok(f2) && Fresh(f1, [late, b]) == [b]
    ensures f2.revisions == f1.revisions[b.id := b.revision]
    ensures Apply(f2, [a2]) == Ok(f3) && f3.revisions == f2.revisions[a2.id := a2.revision]
  {
    hide Apply, Parses, Shallow;
    SameRoom(f0.revisions.Keys, a1.id, b.id);
    FreshOne(f0, a1);
    f1 := AcceptOne(f0, [a1], a1);
    assert f1.revisions.Keys == f0.revisions.Keys + {a1.id};
    FreshSecond(f1, late, b);
    f2 := AcceptOne(f1, [late, b], b);
    FreshOne(f2, a2);
    assert f2.revisions.Keys + {a2.id} == f0.revisions.Keys + {a1.id} + {b.id};
    f3 := AcceptOne(f2, [a2], a2);
  }

  // ---- what compaction keeps ---------------------------------------------

  lemma CompactKeep(parse: Reader, doc: Doc, rest: seq<Doc>, wanted: set<(Id, nat)>, key: (Id, nat))
    requires key in KeysOf(Updates(parse, doc)) && key in wanted
    ensures CompactDocs(parse, [doc] + rest, wanted)
      == [doc] + CompactDocs(parse, rest, wanted - KeysOf(Updates(parse, doc)))
  {
    assert key in KeysOf(Updates(parse, doc)) * wanted;
    assert ([doc] + rest)[1..] == rest;
  }

  lemma CompactDrop(parse: Reader, doc: Doc, rest: seq<Doc>, wanted: set<(Id, nat)>)
    requires KeysOf(Updates(parse, doc)) !! wanted
    ensures CompactDocs(parse, [doc] + rest, wanted) == CompactDocs(parse, rest, wanted)
  {
    var keys := KeysOf(Updates(parse, doc));
    assert keys * wanted == {} && wanted - keys == wanted;
    assert ([doc] + rest)[1..] == rest;
  }

  lemma Keys(u: Update, v: Update)
    ensures KeysOf([u]) == {(u.id, u.revision)}
    ensures KeysOf([u, v]) == {(u.id, u.revision), (v.id, v.revision)}
  {
    assert [u][0] == u && [u, v][0] == u && [u, v][1] == v;
  }

  lemma InCurrent(f: Filters, id: Id)
    requires id in f.revisions
    ensures forall r: nat :: (id, r) in Current(f) <==> r == f.revisions[id]
  {
  }

  /** The superseded first document goes; the second stays for `b`'s sake, with `late` in it. */
  lemma Compactions(
      parse: Reader, docs: seq<Doc>, a1: Update, late: Update, b: Update, a2: Update,
      f1: Filters, f2: Filters, f3: Filters)
    requires Documents(parse, docs, a1, late, b, a2)
    requires a1.id == late.id == a2.id && b.id != a1.id && late.revision <= a1.revision < a2.revision
    requires a1.id in f1.revisions && f1.revisions[a1.id] == a1.revision
    requires f2.revisions == f1.revisions[b.id := b.revision]
    requires f3.revisions == f2.revisions[a2.id := a2.revision]
    ensures CompactDocs(parse, docs[..1], Current(f1)) == docs[..1]
    ensures CompactDocs(parse, docs[..2], Current(f2)) == docs[..2]
    ensures CompactDocs(parse, docs, Current(f3)) == docs[1..]
  {
    hide CompactDocs;
    var one, both, two := docs[0], docs[1], docs[2];
    Keys(a1, b);
    Keys(late, b);
    Keys(a2, b);
    InCurrent(f1, a1.id);
    InCurrent(f2, a1.id);
    InCurrent(f2, b.id);
    InCurrent(f3, a1.id);
    InCurrent(f3, b.id);
    NoDocs(parse, Current(f1) - KeysOf([a1]));
    NoDocs(parse, Current(f2) - KeysOf([a1]) - KeysOf([late, b]));
    NoDocs(parse, Current(f3) - KeysOf([late, b]) - KeysOf([a2]));
    CompactKeep(parse, one, [], Current(f1), (a1.id, a1.revision));
    assert [one] + [] == docs[..1];
    CompactKeep(parse, one, [both], Current(f2), (a1.id, a1.revision));
    CompactKeep(parse, both, [], Current(f2) - KeysOf([a1]), (b.id, b.revision));
    assert [both] + [] == [both] && [one] + [both] == docs[..2];
    CompactDrop(parse, one, docs[1..], Current(f3));
    assert [one] + docs[1..] == docs && [both] + [two] == docs[1..];
    CompactKeep(parse, both, [two], Current(f3), (b.id, b.revision));
    CompactKeep(parse, two, [], Current(f3) - KeysOf([late, b]), (a2.id, a2.revision));
    assert [two] + [] == [two];
  }

  lemma NoDocs(parse: Reader, wanted: set<(Id, nat)>)
    ensures CompactDocs(parse, [], wanted) == []
  {
  }

  // ---- the run -----------------------------------------------------------

  /** One turn of the in-memory stream. */
  lemma MemoryTurn(
      parse: Reader, f0: Filters, docs: seq<Doc>, d: Delta, f: Filters, h: Carried, f': Filters, kept: seq<Doc>)
    requires docs != [] && Memory(parse, f0, Ticks(docs[..|docs|-1])) == (f, h)
    requires var doc := docs[|docs|-1];
      && ReadDoc(parse, doc) == Some(d) && Apply(f, d) == Ok(f')
      && CompactDocs(parse, h.deltas + [doc], Current(f')) == kept
    ensures Memory(parse, f0, Ticks(docs)) == (f', HistoryToken.History(kept, f'.order))
  {
    var ticks := Ticks(docs);
    assert ticks[..|ticks|-1] == Ticks(docs[..|docs|-1]);
  }

  lemma NoTurn(parse: Reader, f0: Filters)
    ensures Memory(parse, f0, Ticks([])) == (f0, HistoryToken.EMPTY)
  {
  }

  /** What the run leaves after each document. */
  lemma Histories(parse: Reader, docs: seq<Doc>, f0: Filters, a1: Update, late: Update, b: Update, a2: Update)
      returns (f1: Filters)
    requires Scenario(f0, a1, late, b, a2) && Documents(parse, docs, a1, late, b, a2)
    ensures Apply(f0, [a1]) == Ok(f1) && Memory(parse, f0, Ticks(docs[..1])).0 == f1 && Fresh(f1, [late, b]) == [b]
    ensures Memory(parse, f0, Ticks(docs[..1])).1.deltas == docs[..1]
    ensures Memory(parse, f0, Ticks(docs[..2])).1.deltas == docs[..2]
    ensures Memory(parse, f0, Ticks(docs)).1.deltas == docs[1..]
    ensures Memory(parse, f0, Ticks(docs)).0.revisions == f0.revisions[a1.id := a2.revision][b.id := b.revision]
  {
    hide Apply, CompactDocs, Memory, Shallow, Parses, Fresh, Snapshot, Current, Ticks;
    hide ReadDoc, TrackOf, Utf8.Survives;
    var f2, f3;
    f1, f2, f3 := Steps(f0, a1, late, b, a2);
    Compactions(parse, docs, a1, late, b, a2, f1, f2, f3);
    NoTurn(parse, f0);
    hide Scenario;
    FirstPrefixes(docs);
    MemoryTurn(parse, f0, docs[..1], [a1], f0, HistoryToken.EMPTY, f1, docs[..1]);
    MemoryTurn(parse, f0, docs[..2], [late, b], f1, HistoryToken.History(docs[..1], f1.order), f2, docs[..2]);
    MemoryTurn(parse, f0, docs, [a2], f2, HistoryToken.History(docs[..2], f2.order), f3, docs[1..]);
  }

  lemma FirstPrefixes(docs: seq<Doc>)
    requires |docs| == 3
    ensures docs[..1][..0] == [] && docs[..1][0] == docs[0] && [] + [docs[0]] == docs[..1]
    ensures docs[..2][..1] == docs[..1] && docs[..2][1] == docs[1] && docs[..1] + [docs[1]] == docs[..2]
    ensures docs[..2] + [docs[2]] == docs
  {
  }

  lemma AwakeBoth(f0: Filters, u: Update, v: Update)
    requires TrackOf(f0, u.id).revision < u.revision && TrackOf(f0, v.id).revision < v.revision
    ensures Awake(f0, [], [u]) == [u] && Awake(f0, [], [u, v]) == [u, v]
  {
    assert [u][1..] == [] && [v][1..] == [] && [u, v][1..] == [v];
    assert Awake(f0, [], [v]) == [v] + Awake(f0, [], []);
  }

  lemma NothingWakesFirst(
      parse: Reader, docs: seq<Doc>, f0: Filters, a1: Update, late: Update, b: Update, a2: Update, f1: Filters)
    requires Scenario(f0, a1, late, b, a2) && Documents(parse, docs, a1, late, b, a2)
    requires Memory(parse, f0, Ticks(docs[..1])).0 == f1 && Fresh(f1, [late, b]) == [b]
    requires Memory(parse, f0, Ticks(docs[..1])).1.deltas == docs[..1]
    ensures !Wakes(f0, [[a1]]) && !Wakes(f0, [[a1], [late, b]])
  {
    hide Memory, Parses, Shallow, Snapshot, Fresh, TrackOf, Utf8.Survives;
    assert [] + [[a1]] == [[a1]] && [[a1]] + [[late, b]] == [[a1], [late, b]];
    AwakeParses(f0, [], [a1]);
    WakesSnoc(f0, [], [a1]);
    FirstTracks(parse, docs[0], f0, a1, f1, docs[..1]);
    AwakeIsFresh(f0, [[a1]], f1, [late, b]);
    WakesSnoc(f0, [[a1]], [late, b]);
  }

  lemma FirstTracks(parse: Reader, doc: Doc, f0: Filters, a1: Update, f1: Filters, docs: seq<Doc>)
    requires Snapshot(f0) && ReadDoc(parse, doc) == Some([a1]) && docs == [doc]
    requires Memory(parse, f0, Ticks(docs)).0 == f1 && Memory(parse, f0, Ticks(docs)).1.deltas == docs
    ensures forall id :: TrackOf(f1, id) == Fold(TrackOf(f0, id), [[a1]], id)
  {
    MemoryInv(parse, f0, Ticks(docs));
    OneUpdate(parse, doc);
    hide Memory, Snapshot;
  }

  lemma OldWakesLast(f0: Filters, a1: Update, late: Update, b: Update, a2: Update)
    requires Scenario(f0, a1, late, b, a2)
    ensures Wakes(f0, [[late, b], [a2]]) <==> !Parses([late, b])
  {
    assert [] + [[late, b]] == [[late, b]] && [[late, b]] + [[a2]] == [[late, b], [a2]];
    AwakeBoth(f0, late, b);
    WakesSnoc(f0, [], [late, b]);
    AwakeParses(f0, [[late, b]], [a2]);
    WakesSnoc(f0, [[late, b]], [a2]);
  }

  lemma UpdatesOf(parse: Reader, docs: seq<Doc>, a1: Update, late: Update, b: Update, a2: Update)
    requires Documents(parse, docs, a1, late, b, a2)
    ensures AllUpdates(parse, docs[..1]) == [[a1]] && AllUpdates(parse, docs[..2]) == [[a1], [late, b]]
    ensures AllUpdates(parse, docs[1..]) == [[late, b], [a2]]
  {
    OneUpdate(parse, docs[0]);
    OneUpdate(parse, docs[1]);
    OneUpdate(parse, docs[2]);
    AllUpdatesAppend(parse, [docs[0]], [docs[1]]);
    AllUpdatesAppend(parse, [docs[1]], [docs[2]]);
    assert docs[..1] == [docs[0]] && docs[..2] == [docs[0]] + [docs[1]] && docs[1..] == [docs[1]] + [docs[2]];
  }

  /** Over these documents only surviving ids are ever live. */
  lemma {:induction false} OnlySafeIds(parse: Reader, f0: Filters, docs: seq<Doc>)
    requires Snapshot(f0) && forall id :: id in f0.order ==> Utf8.Survives(id)
    requires forall i :: 0 <= i < |docs| ==> SafeIds(Updates(parse, docs[i]))
    ensures forall id :: id in Memory(parse, f0, Ticks(docs)).0.order ==> Utf8.Survives(id)
    decreases |docs|
  {
    if docs != [] {
      var n := |docs| - 1;
      var ticks := Ticks(docs);
      assert ticks[..|ticks|-1] == Ticks(docs[..n]);
      var (f, h) := Memory(parse, f0, Ticks(docs[..n]));
      OnlySafeIds(parse, f0, docs[..n]);
      MemoryInv(parse, f0, Ticks(docs[..n]));
      if Accepts(parse, f, docs[n]) { LiveIdsSurvive(f, Updates(parse, docs[n])); }
    }
  }

  /** Each turn of the run can start, and the one after it exactly when `late` and `b` parse together. */
  lemma RunResumes(
      parse: Reader, docs: seq<Doc>, f0: Filters, a1: Update, late: Update, b: Update, a2: Update, f1: Filters)
    requires Scenario(f0, a1, late, b, a2) && Documents(parse, docs, a1, late, b, a2)
    requires Memory(parse, f0, Ticks(docs[..1])).0 == f1 && Fresh(f1, [late, b]) == [b]
    requires Memory(parse, f0, Ticks(docs[..1])).1.deltas == docs[..1]
    requires Memory(parse, f0, Ticks(docs[..2])).1.deltas == docs[..2]
    requires Memory(parse, f0, Ticks(docs)).1.deltas == docs[1..]
    ensures Resumable(parse, f0, Ticks(docs[..0])) && Resumable(parse, f0, Ticks(docs[..1]))
    ensures Resumable(parse, f0, Ticks(docs[..2])) && (Resumable(parse, f0, Ticks(docs)) <==> Parses([late, b]))
  {
    hide Memory, Wakes, Ticks, Parses, Shallow, Snapshot, ReadDoc, TrackOf, Utf8.Survives;
    NothingWakesFirst(parse, docs, f0, a1, late, b, a2, f1);
    OldWakesLast(f0, a1, late, b, a2);
    UpdatesOf(parse, docs, a1, late, b, a2);
    SafeDocuments(parse, docs, f0, a1, late, b, a2);
    OnlySafeIds(parse, f0, docs[..1]);
    OnlySafeIds(parse, f0, docs[..2]);
    OnlySafeIds(parse, f0, docs);
    NoTurn(parse, f0);
    assert docs[..0] == [];
  }

  /**
   Every document of such a run is accepted, over HTTP as in memory, yet the turn
   after it fails exactly when `late` and `b` do not parse within one budget. The
   parser never looked at `late` before.
   */
  lemma StaleUpdateBreaksReplay(
      parse: Reader, docs: seq<Doc>, f0: Filters, a1: Update, late: Update, b: Update, a2: Update)
    requires Scenario(f0, a1, late, b, a2) && Documents(parse, docs, a1, late, b, a2)
    ensures Memory(parse, f0, Ticks(docs)).0.revisions == f0.revisions[a1.id := a2.revision][b.id := b.revision]
    ensures Http(parse, f0, Ticks(docs)).Ok?
    ensures Http(parse, f0, Ticks(docs) + [None]).Ok? <==> Parses([late, b])
  {
    var f1 := Histories(parse, docs, f0, a1, late, b, a2);
    RunResumes(parse, docs, f0, a1, late, b, a2, f1);
    assert Snapshot(f0) && |docs| == 3;
    hide *;
    ThreeTurns(parse, f0, docs);
    QuietTurn(parse, f0, Ticks(docs));
  }

  lemma ThreeTurns(parse: Reader, f0: Filters, docs: seq<Doc>)
    requires Snapshot(f0) && |docs| == 3
    requires Resumable(parse, f0, Ticks(docs[..0])) && Resumable(parse, f0, Ticks(docs[..1]))
    requires Resumable(parse, f0, Ticks(docs[..2]))
    ensures Http(parse, f0, Ticks(docs)).Ok?
  {
    assert docs[..1][..0] == docs[..0] == [] && docs[..2][..1] == docs[..1];
    NoTurns(parse, f0);
    hide *;
    TickTurn(parse, f0, docs[..1]);
    TickTurn(parse, f0, docs[..2]);
    TickTurn(parse, f0, docs);
  }

  lemma NoTurns(parse: Reader, f0: Filters)
    ensures Http(parse, f0, []) == Ok([]) && Ticks([]) == []
  {
  }

  lemma TickTurn(parse: Reader, f0: Filters, docs: seq<Doc>)
    requires Snapshot(f0) && docs != []
    ensures var before := Ticks(docs[..|docs|-1]);
      Http(parse, f0, Ticks(docs)).Ok? <==> Http(parse, f0, before).Ok? && Resumable(parse, f0, before)
  {
    hide Http, Resumable, Snapshot;
    assert Ticks(docs)[..|Ticks(docs)|-1] == Ticks(docs[..|docs|-1]);
    OneMoreTurn(parse, f0, Ticks(docs));
  }

  /** A turn without a delta. */
  lemma QuietTurn(parse: Reader, f0: Filters, ticks: seq<Option<Doc>>)
    requires Snapshot(f0)
    ensures Http(parse, f0, ticks + [None]).Ok? <==> Http(parse, f0, ticks).Ok? && Resumable(parse, f0, ticks)
  {
    hide Http, Resumable, Snapshot;
    var more := ticks + [None];
    assert more[..|more|-1] == ticks;
    OneMoreTurn(parse, f0, more);
  }

  lemma SafeDocuments(
      parse: Reader, docs: seq<Doc>, f0: Filters, a1: Update, late: Update, b: Update, a2: Update)
    requires Scenario(f0, a1, late, b, a2) && Documents(parse, docs, a1, late, b, a2)
    ensures Snapshot(f0) && forall id :: id in f0.order ==> Utf8.Survives(id)
    ensures forall i :: 0 <= i < |docs| ==> SafeIds(Updates(parse, docs[i]))
  {
    hide Utf8.Survives, Utf8.Encode, Parses, TrackOf, Shallow, Snapshot, ReadDoc;
    SafePair(a1, a1);
    SafePair(late, b);
    SafePair(a2, a2);
    forall i | 0 <= i < 3 ensures SafeIds(Updates(parse, docs[i])) { assert i == 0 || i == 1 || i == 2; }
  }

  lemma SafePair(u: Update, v: Update)
    requires Utf8.Survives(u.id) && Utf8.Survives(v.id)
    ensures SafeIds([u]) && SafeIds([u, v])
  {
  }

  // ---- ids that do not survive the token ---------------------------------

  /**
   After any turns, one live id that does not survive the token ends the HTTP stream
   for good once a delta is carried: no later turn can start.
   */
  lemma LossyIdEndsTheStream(
      parse: Reader, f0: Filters, ticks: seq<Option<Doc>>, id: Id, more: seq<Option<Doc>>)
    requires Snapshot(f0) && more != []
    requires var (f, h) := Memory(parse, f0, ticks); h.deltas != [] && id in f.order && !Utf8.Survives(id)
    ensures Http(parse, f0, ticks + more).Err?
  {
    assert (ticks + more)[..|ticks|] == ticks;
    assert !ResumableAfter(parse, f0, ticks + more, |ticks|);
    hide Memory, Http, Resumable, Snapshot, ResumableAfter;
    HttpIff(parse, f0, ticks + more);
  }

  /** One well-formed upsert is accepted whatever its id; the turn after it works exactly when all live ids survive. */
  lemma OneUpsertThenNextTurn(parse: Reader, f0: Filters, doc: Doc, u: Update)
    requires Snapshot(f0) && ReadDoc(parse, doc) == Some([u]) && u.Upsert?
    requires Shallow(f0.required, [u]) && !Stale(f0, u) && Parses([u])
    requires |f0.revisions.Keys + {u.id}| <= MAX_PREDICATE_IDS
    ensures Http(parse, f0, [Some(doc)]).Ok?
    ensures Http(parse, f0, [Some(doc), None]).Ok?
      <==> Utf8.Survives(u.id) && forall id :: id in f0.order ==> Utf8.Survives(id)
  {
    FreshOne(f0, u);
    var f := AcceptOne(f0, [u], u);
    FirstTurn(parse, f0, doc, u, f);
    OrderAfter(f0, u, f);
    var one, two := [Some(doc)], [Some(doc), None];
    assert one[..0] == [] && two[..1] == one;
    AwakeParses(f0, [], [u]);
    assert [] + [[u]] == [[u]];
    WakesSnoc(f0, [], [u]);
    OneUpdate(parse, doc);
    assert Resumable(parse, f0, one[..0]);
    assert Resumable(parse, f0, one) <==> forall id :: id in f.order ==> Utf8.Survives(id);
    hide Memory, Http, Resumable, Snapshot, Apply, Shallow, Utf8.Survives;
    NoTurns(parse, f0);
    OneMoreTurn(parse, f0, one);
    OneMoreTurn(parse, f0, two);
  }

  lemma FirstTurn(parse: Reader, f0: Filters, doc: Doc, u: Update, f: Filters)
    requires ReadDoc(parse, doc) == Some([u]) && Apply(f0, [u]) == Ok(f)
    requires f.revisions == f0.revisions[u.id := u.revision]
    ensures Memory(parse, f0, []) == (f0, HistoryToken.EMPTY)
    ensures Memory(parse, f0, [Some(doc)]) == (f, HistoryToken.History([doc], f.order))
  {
    Keys(u, u);
    InCurrent(f, u.id);
    var docs: seq<Doc> := [doc];
    CompactKeep(parse, doc, [], Current(f), (u.id, u.revision));
    NoDocs(parse, Current(f) - KeysOf([u]));
    assert docs + [] == docs && [] + docs == docs;
    assert [Some(doc)][..0] == [];
  }

  lemma OrderAfter(f0: Filters, u: Update, f: Filters)
    requires Valid(f0) && u.Upsert? && Apply(f0, [u]) == Ok(f) && Fresh(f0, [u]) == [u]
    ensures forall id :: id in f.order <==> id in f0.order || id == u.id
  {
    assert [u][0] == u && [u][1..] == [];
    assert InstallAll(f0, [u]) == InstallAll(Install(f0, u), []);
    assert f == Install(f0, u);
  }

  // ---- inhabitants -------------------------------------------------------

  const NO_FILTERS := Filters([], map[], map[], {})

  const A: Id := [97]

  const B: Id := [98]

  function Advise(id: Id, revision: nat, expression: Option<int>, nodes: nat): Update {
    Upsert(id, revision, Advisory, expression, nodes)
  }

  lemma ShortIds()
    ensures ValidId(A) && ValidId(B) && Utf8.Survives(A) && Utf8.Survives(B)
    ensures ValidId([Utf8.MARK, 97]) && !Utf8.Survives([Utf8.MARK, 97])
    ensures ValidId([0xD83D]) && !Utf8.Survives([0xD83D])
  {
    Utf8.LossyTexts();
    assert A[1..] == [] && B[1..] == [];
    assert Utf8.Scalars(A) == A && Utf8.Scalars(B) == B;
    assert Utf8.Written(A) == A && Utf8.Written(B) == B;
    assert !Utf8.PairedAt([0xD83D], 0);
  }

  lemma OneParses(u: Update)
    requires !Malformed(u) && NodesOf(u) <= MAX_NODES
    ensures Parses([u])
  {
    assert [u][1..] == [] && NodeCount([u]) == NodesOf(u) + NodeCount([]);
  }

  lemma TwoNodes(u: Update, v: Update)
    ensures NodeCount([u, v]) == NodesOf(u) + NodesOf(v)
  {
    assert [u, v][1..] == [v] && [v][1..] == [];
    assert NodeCount([v]) == NodesOf(v) + NodeCount([]);
  }

  lemma InScenario(late: Update, b: Update)
    requires late.id == A && b.id == B && late.revision == b.revision == 1
    requires late.Upsert? && b.Upsert? && late.mode == b.mode == Advisory && Parses([b])
    ensures Scenario(NO_FILTERS, Advise(A, 1, Some(10), 1), late, b, Advise(A, 2, Some(30), 1))
  {
    ShortIds();
    hide ValidId, Utf8.Survives, Parses;
    var a1, a2 := Advise(A, 1, Some(10), 1), Advise(A, 2, Some(30), 1);
    OneParses(a1);
    OneParses(a2);
    assert NO_FILTERS.revisions.Keys + {A} + {B} == {A, B};
  }

  /** An expression the parser rejects, hidden behind a stale revision. */
  lemma StaleMalformedUpdateFailsReplay(parse: Reader, docs: seq<Doc>)
    requires Documents(parse, docs, Advise(A, 1, Some(10), 1), Advise(A, 1, None, 1),
                       Advise(B, 1, Some(20), 1), Advise(A, 2, Some(30), 1))
    ensures Http(parse, NO_FILTERS, Ticks(docs)).Ok? && Http(parse, NO_FILTERS, Ticks(docs) + [None]).Err?
  {
    var late, b := Advise(A, 1, None, 1), Advise(B, 1, Some(20), 1);
    OneParses(b);
    InScenario(late, b);
    assert Malformed([late, b][0]);
    hide Scenario, Documents, Http, Ticks;
    StaleUpdateBreaksReplay(parse, docs, NO_FILTERS, Advise(A, 1, Some(10), 1), late, b, Advise(A, 2, Some(30), 1));
  }

  /** Only well-formed updates: a document too large for one parse, of which half was stale. */
  lemma StaleHeavyUpdateFailsReplay(parse: Reader, docs: seq<Doc>)
    requires Documents(parse, docs, Advise(A, 1, Some(10), 1), Advise(A, 1, Some(10), 6000),
                       Advise(B, 1, Some(20), 6000), Advise(A, 2, Some(30), 1))
    ensures WellFormed(Updates(parse, docs[1]))
    ensures Http(parse, NO_FILTERS, Ticks(docs)).Ok? && Http(parse, NO_FILTERS, Ticks(docs) + [None]).Err?
  {
    var late, b := Advise(A, 1, Some(10), 6000), Advise(B, 1, Some(20), 6000);
    OneParses(b);
    InScenario(late, b);
    TwoNodes(late, b);
    hide Scenario, Documents, Http, Ticks;
    StaleUpdateBreaksReplay(parse, docs, NO_FILTERS, Advise(A, 1, Some(10), 1), late, b, Advise(A, 2, Some(30), 1));
  }

  /** The id U+FEFF `a`, or half of a surrogate pair: one upsert of it, and the next turn fails. */
  lemma MarkedIdFailsNextTurn(parse: Reader, doc: Doc, id: Id)
    requires id == [Utf8.MARK, 97] || id == [0xD83D]
    requires ReadDoc(parse, doc) == Some([Advise(id, 1, Some(7), 1)])
    ensures GoodExpressions(parse, [Some(doc)])
    ensures Http(parse, NO_FILTERS, [Some(doc)]).Ok? && Http(parse, NO_FILTERS, [Some(doc), None]).Err?
  {
    ShortIds();
    hide ValidId, Utf8.Survives;
    var u := Advise(id, 1, Some(7), 1);
    OneParses(u);
    assert NO_FILTERS.revisions.Keys + {id} == {id};
    OneUpsertThenNextTurn(parse, NO_FILTERS, doc, u);
  }

  ghost predicate GoodExpressions(parse: Reader, ticks: seq<Option<Doc>>) {
    forall i :: 0 <= i < |ticks| && ticks[i].Some? ==> Parses(Updates(parse, ticks[i].value))
  }
}
