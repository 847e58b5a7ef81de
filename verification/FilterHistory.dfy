/**
 Dynamic filters across HTTP turns. A scan's filters change by deltas; a
 byte-stream connection keeps the result in memory, an HTTP stream rebuilds it
 every turn from the first snapshot and a compacted history of deltas.
 */
module FilterHistory {
  import opened Seqs
  import Utf8

  type Id = Utf8.Text

  datatype Mode = Required | Advisory

  /** An upsert's expression has `nodes` nodes; it is `None` when the strict parser would reject it by itself. */
  datatype Update =
    | Upsert(id: Id, revision: nat, mode: Mode, expression: Option<int>, nodes: nat)
    | Remove(id: Id, revision: nat)

  type Delta = seq<Update>

  datatype Predicate = Predicate(revision: nat, mode: Mode, expression: int)

  /** `order` and `live` are an insertion-ordered map; `revisions` keeps tombstones too. */
  datatype Filters = Filters(order: seq<Id>, live: map<Id, Predicate>, revisions: map<Id, nat>, required: set<Id>)

  const MAX_PREDICATE_IDS: nat := 4096

  const MAX_ID_BYTES: nat := 128

  /** Shared by all the expressions that are parsed of one document. */
  const MAX_NODES: nat := 10_000

  ghost predicate Valid(f: Filters) {
    && NoRepeats(f.order)
    && (forall id :: id in f.order <==> id in f.live)
    && f.live.Keys <= f.revisions.Keys
  }

  // ---- applying one delta ------------------------------------------------

  /** An id has at least one character and a bounded encoding. */
  predicate ValidId(id: Id) { id != [] && |Utf8.Encode(id)| <= MAX_ID_BYTES }

  predicate DistinctIds(d: Delta) {
    forall i, j :: 0 <= i < j < |d| ==> d[i].id != d[j].id
  }

  /** Ids are valid and distinct, none is required, and every upsert is advisory: checked even when stale. */
  predicate Shallow(required: set<Id>, d: Delta) {
    && DistinctIds(d)
    && forall i :: 0 <= i < |d| ==> Admissible(required, d[i])
  }

  predicate Admissible(required: set<Id>, u: Update) {
    ValidId(u.id) && u.id !in required && (u.Upsert? ==> u.mode == Advisory)
  }

  predicate Stale(f: Filters, u: Update) {
    u.id in f.revisions && u.revision <= f.revisions[u.id]
  }

  predicate Malformed(u: Update) { u.Upsert? && u.expression.None? }

  function Fresh(f: Filters, d: Delta): Delta {
    if d == [] then [] else (if Stale(f, d[0]) then [] else [d[0]]) + Fresh(f, d[1..])
  }

  function IdsOf(d: Delta): set<Id> { set i | 0 <= i < |d| :: d[i].id }

  /** `Map.set` keeps a present key's place and appends a new one; `Map.delete` forgets it. */
  function Install(f: Filters, u: Update): Filters
    requires !Malformed(u)
  {
    var revisions := f.revisions[u.id := u.revision];
    match u
    case Upsert(id, revision, mode, expression, _) =>
      Filters(if id in f.live then f.order else f.order + [id],
              f.live[id := Predicate(revision, mode, expression.value)], revisions, f.required)
    case Remove(id, _) =>
      Filters(Without(f.order, id), f.live - {id}, revisions, f.required)
  }

  function Without(order: seq<Id>, id: Id): seq<Id> {
    if order == [] then [] else (if order[0] == id then [] else [order[0]]) + Without(order[1..], id)
  }

  function InstallAll(f: Filters, d: Delta): Filters
    requires forall i :: 0 <= i < |d| ==> !Malformed(d[i])
    decreases |d|
  {
    if d == [] then f else InstallAll(Install(f, d[0]), d[1..])
  }

  predicate WellFormed(d: Delta) { forall i :: 0 <= i < |d| ==> !Malformed(d[i]) }

  function NodesOf(u: Update): nat { if u.Upsert? then u.nodes else 0 }

  function NodeCount(d: Delta): nat {
    if d == [] then 0 else NodesOf(d[0]) + NodeCount(d[1..])
  }

  /** The expressions of `d` parse, one after the other, within one document's budget. */
  predicate Parses(d: Delta) { WellFormed(d) && NodeCount(d) <= MAX_NODES }

  /** A delta applies whole or not at all; stale updates are skipped without parsing their expression. */
  function Apply(f: Filters, d: Delta): Result<Filters> {
    if !Shallow(f.required, d) then Err("invalid delta update")
    else if !Parses(Fresh(f, d)) then Err("invalid expression")
    else if |f.revisions.Keys + IdsOf(Fresh(f, d))| > MAX_PREDICATE_IDS then Err("delta predicate-id limit exceeded")
    else Ok(InstallAll(f, Fresh(f, d)))
  }

  /** The parser's two passes: validate every update against the prior state, then install. */
  method ApplyDelta(f: Filters, d: Delta) returns (r: Result<Filters>)
    ensures r.Ok? <==> Apply(f, d).Ok?
    ensures r.Ok? ==> r == Apply(f, d)
    ensures r.Ok? <==>
      && (forall i, j :: 0 <= i < j < |d| ==> d[i].id != d[j].id)
      && (forall i :: 0 <= i < |d| ==> d[i].id != [] && |Utf8.Encode(d[i].id)| <= 128 && d[i].id !in f.required)
      && (forall i :: 0 <= i < |d| && d[i].Upsert? ==> d[i].mode == Advisory)
      && (forall i :: 0 <= i < |Fresh(f, d)| && Fresh(f, d)[i].Upsert? ==> Fresh(f, d)[i].expression.Some?)
      && NodeCount(Fresh(f, d)) <= 10_000 && |f.revisions.Keys + IdsOf(Fresh(f, d))| <= 4096
    ensures r.Ok? ==> r.value.required == f.required && forall id :: id in f.required ==> SameFor(f, r.value, id)
  {
    ShallowIff(f.required, d);
    if Apply(f, d).Ok? { RequiredUntouched(f, d); }
    hide Shallow;
    var parsed := ParseUpdates(f, d);
    if parsed.Err? { return Err(parsed.error); }
    if |f.revisions.Keys + IdsOf(parsed.value)| > MAX_PREDICATE_IDS { return Err("delta predicate-id limit exceeded"); }
    var out := f;
    for i := 0 to |parsed.value|
      invariant InstallAll(out, parsed.value[i..]) == InstallAll(f, parsed.value)
    {
      assert parsed.value[i..][1..] == parsed.value[i+1..];
      out := Install(out, parsed.value[i]);
    }
    r := Ok(out);
  }

  method ParseUpdates(f: Filters, d: Delta) returns (r: Result<Delta>)
    ensures r.Ok? <==> Shallow(f.required, d) && Parses(Fresh(f, d))
    ensures r.Ok? ==> r.value == Fresh(f, d)
    ensures r.Ok? ==> forall i :: 0 <= i < |d| ==> d[i].id !in f.required && (d[i].Upsert? ==> d[i].mode == Advisory)
  {
    hide ValidId;
    var parsed := [];
    var nodes := 0;
    var seen: set<Id> := {};
    for i := 0 to |d|
      invariant Shallow(f.required, d[..i]) && seen == IdsOf(d[..i])
      invariant parsed == Fresh(f, d[..i]) && Parses(parsed) && nodes == NodeCount(parsed)
    {
      var u := d[i];
      assert d[..i+1] == d[..i] + [u];
      FreshAppend(f, d[..i], u);
      if !ValidId(u.id) { return Err("predicate id is empty or too long"); }
      if u.id in seen { return Err("duplicate delta predicate id"); }
      if u.id in f.required { return Err("delta targets required predicate"); }
      if u.Upsert? && u.mode != Advisory { return Err("delta upserts must be advisory"); }
      IdsGrow(d, i);
      seen := seen + {u.id};
      if Stale(f, u) { continue; }
      ParseNext(f, d, i);
      if Malformed(u) { return Err("invalid expression"); }
      nodes := nodes + NodesOf(u);
      if nodes > MAX_NODES { return Err("expression node limit exceeded"); }
      parsed := parsed + [u];
    }
    assert d[..|d|] == d;
    r := Ok(parsed);
  }

  lemma ShallowIff(required: set<Id>, d: Delta)
    ensures Shallow(required, d) <==>
      && (forall i, j :: 0 <= i < j < |d| ==> d[i].id != d[j].id)
      && (forall i :: 0 <= i < |d| ==> d[i].id != [] && |Utf8.Encode(d[i].id)| <= 128 && d[i].id !in required)
      && (forall i :: 0 <= i < |d| && d[i].Upsert? ==> d[i].mode == Advisory)
  {
    if Shallow(required, d) {
      forall i | 0 <= i < |d|
        ensures d[i].id != [] && |Utf8.Encode(d[i].id)| <= 128 && d[i].id !in required
        ensures d[i].Upsert? ==> d[i].mode == Advisory
      {
        assert Admissible(required, d[i]);
      }
    }
  }

  /** A fresh update is part of what must parse, and adds its nodes to those before it. */
  lemma ParseNext(f: Filters, d: Delta, i: nat)
    requires i < |d| && !Stale(f, d[i])
    ensures Malformed(d[i]) ==> !WellFormed(Fresh(f, d))
    ensures var parsed := Fresh(f, d[..i]);
      NodeCount(parsed + [d[i]]) == NodeCount(parsed) + NodesOf(d[i]) <= NodeCount(Fresh(f, d))
  {
    var u, parsed, rest := d[i], Fresh(f, d[..i]), Fresh(f, d[i+1..]);
    FreshSplit(f, d, i);
    NodesAppend(parsed, [u] + rest);
    NodesAppend(parsed, [u]);
    assert Fresh(f, d)[|parsed|] == u && [u][1..] == [] && ([u] + rest)[1..] == rest;
  }

  lemma IdsGrow(d: Delta, i: nat)
    requires i < |d|
    ensures IdsOf(d[..i+1]) == IdsOf(d[..i]) + {d[i].id}
    ensures d[i].id !in IdsOf(d[..i]) && DistinctIds(d[..i]) ==> DistinctIds(d[..i+1])
  {
    forall x | x in IdsOf(d[..i]) ensures x in IdsOf(d[..i+1]) {
      var j :| 0 <= j < i && d[..i][j].id == x;
      assert d[..i+1][j].id == x;
    }
    forall x | x in IdsOf(d[..i+1]) ensures x in IdsOf(d[..i]) + {d[i].id} {
      var j :| 0 <= j < i + 1 && d[..i+1][j].id == x;
      if j < i { assert d[..i][j].id == x; }
    }
    assert d[..i+1][i].id == d[i].id;
    if d[i].id !in IdsOf(d[..i]) {
      forall j | 0 <= j < i ensures d[j].id != d[i].id { assert d[..i][j].id in IdsOf(d[..i]); }
    }
  }

  lemma {:induction false} FreshAppend(f: Filters, d: Delta, u: Update)
    ensures Fresh(f, d + [u]) == if Stale(f, u) then Fresh(f, d) else Fresh(f, d) + [u]
  {
    if d == [] {
      assert d + [u] == [u];
    } else {
      assert (d + [u])[1..] == d[1..] + [u];
      FreshAppend(f, d[1..], u);
    }
  }

  lemma {:induction false} FreshSplit(f: Filters, d: Delta, i: nat)
    requires i < |d| && !Stale(f, d[i])
    ensures Fresh(f, d) == Fresh(f, d[..i]) + ([d[i]] + Fresh(f, d[i+1..]))
  {
    if i > 0 {
      FreshSplit(f, d[1..], i - 1);
      assert d[..i][1..] == d[1..][..i-1] && d[1..][i..] == d[i+1..];
      Assoc(if Stale(f, d[0]) then [] else [d[0]], Fresh(f, d[1..][..i-1]), [d[i]] + Fresh(f, d[i+1..]));
    }
  }

  lemma {:induction false} NodesAppend(a: Delta, b: Delta)
    ensures NodeCount(a + b) == NodeCount(a) + NodeCount(b)
  {
    if a == [] {
      assert a + b == b;
    } else {
      assert (a + b)[1..] == a[1..] + b;
      NodesAppend(a[1..], b);
    }
  }

  lemma {:induction false} FreshOnly(f: Filters, d: Delta)
    ensures forall i :: 0 <= i < |Fresh(f, d)| ==> Fresh(f, d)[i] in d && !Stale(f, Fresh(f, d)[i])
  {
    if d != [] { FreshOnly(f, d[1..]); }
  }

  // ---- one id at a time --------------------------------------------------

  /** What the state knows of one id: its revision (-1 when never seen) and its live predicate. */
  datatype Track = Track(revision: int, live: Option<Predicate>)

  ghost function TrackOf(f: Filters, id: Id): Track {
    Track(if id in f.revisions then f.revisions[id] else -1,
          if id in f.live then Some(f.live[id]) else None)
  }

  function Find(d: Delta, id: Id): Option<Update> {
    if d == [] then None else if d[0].id == id then Some(d[0]) else Find(d[1..], id)
  }

  /** What an id's track is right after an update of it. */
  ghost function Updated(u: Update): Track {
    Track(u.revision,
          if u.Upsert? && u.expression.Some? then Some(Predicate(u.revision, u.mode, u.expression.value)) else None)
  }

  ghost function StepTrack(t: Track, d: Delta, id: Id): Track {
    match Find(d, id)
    case None => t
    case Some(u) =>
      if u.revision <= t.revision then t
      else Updated(u)
  }

  ghost function Fold(t: Track, ds: seq<Delta>, id: Id): Track
    decreases |ds|
  {
    if ds == [] then t else Fold(StepTrack(t, ds[0], id), ds[1..], id)
  }

  lemma InstallTrack(f: Filters, u: Update, id: Id)
    requires Valid(f) && !Malformed(u)
    ensures Valid(Install(f, u))
    ensures TrackOf(Install(f, u), id) ==
      if id != u.id then TrackOf(f, id)
      else Updated(u)
  {
    WithoutFacts(f.order, u.id);
  }

  lemma {:induction false} WithoutFacts(order: seq<Id>, id: Id)
    requires NoRepeats(order)
    ensures NoRepeats(Without(order, id))
    ensures forall x :: x in Without(order, id) <==> x in order && x != id
  {
    if order != [] {
      WithoutFacts(order[1..], id);
      assert order == [order[0]] + order[1..];
      var rest := Without(order[1..], id);
      forall k | 0 <= k < |rest| ensures rest[k] != order[0] { assert rest[k] in rest; }
    }
  }

  lemma {:induction false} InstallAllTrack(f: Filters, d: Delta, id: Id)
    requires Valid(f) && WellFormed(d) && DistinctIds(d)
    ensures Valid(InstallAll(f, d)) && InstallAll(f, d).required == f.required
    ensures TrackOf(InstallAll(f, d), id) ==
      match Find(d, id)
      case None => TrackOf(f, id)
      case Some(u) => Updated(u)
    decreases |d|
  {
    if d != [] {
      InstallTrack(f, d[0], id);
      InstallAllTrack(Install(f, d[0]), d[1..], id);
      if d[0].id == id { FindNone(d[1..], id); }
    }
  }

  lemma {:induction false} FindNone(d: Delta, id: Id)
    requires forall i :: 0 <= i < |d| ==> d[i].id != id
    ensures Find(d, id) == None
  {
    if d != [] { FindNone(d[1..], id); }
  }

  lemma {:induction false} FindFresh(f: Filters, d: Delta, id: Id)
    requires DistinctIds(d)
    ensures DistinctIds(Fresh(f, d))
    ensures Find(Fresh(f, d), id) ==
      match Find(d, id) case None => None case Some(u) => if Stale(f, u) then None else Some(u)
  {
    if d != [] {
      FindFresh(f, d[1..], id);
      FreshOnly(f, d[1..]);
      forall i | 0 <= i < |Fresh(f, d[1..])| ensures Fresh(f, d[1..])[i].id != d[0].id {
        assert Fresh(f, d[1..])[i] in d[1..];
      }
      if d[0].id == id {
        FindNone(d[1..], id);
        FindNone(Fresh(f, d[1..]), id);
      }
      if Stale(f, d[0]) {
        assert Fresh(f, d) == Fresh(f, d[1..]);
      } else {
        assert Fresh(f, d)[0] == d[0] && Fresh(f, d)[1..] == Fresh(f, d[1..]);
      }
    }
  }

  /** Applying a delta moves every id independently. */
  lemma ApplyTrack(f: Filters, d: Delta, id: Id)
    requires Valid(f) && Apply(f, d).Ok?
    ensures Valid(Apply(f, d).value) && Apply(f, d).value.required == f.required
    ensures TrackOf(Apply(f, d).value, id) == StepTrack(TrackOf(f, id), d, id)
  {
    FindFresh(f, d, id);
    FindId(d, id);
    InstallAllTrack(f, Fresh(f, d), id);
  }

  lemma {:induction false} FindId(d: Delta, id: Id)
    ensures Find(d, id).Some? ==> Find(d, id).value.id == id && Find(d, id).value in d
    ensures Find(d, id).Some? <==> id in IdsOf(d)
  {
    if d != [] {
      FindId(d[1..], id);
      assert d == [d[0]] + d[1..];
      if id in IdsOf(d[1..]) {
        var i :| 0 <= i < |d[1..]| && d[1..][i].id == id;
        assert d[i+1].id == id;
      }
      if id in IdsOf(d) && d[0].id != id {
        var i :| 0 <= i < |d| && d[i].id == id;
        assert d[1..][i-1].id == id;
      }
    }
  }

  // ---- what a delta leaves alone -----------------------------------------

  /** Both hold the same predicate and the same revision of the id, or neither. */
  ghost predicate SameFor(f: Filters, g: Filters, id: Id) {
    && (id in f.live <==> id in g.live)
    && (id in f.live ==> f.live[id] == g.live[id])
    && (id in f.revisions <==> id in g.revisions)
    && (id in f.revisions ==> f.revisions[id] == g.revisions[id])
  }

  lemma {:induction false} InstallOthers(f: Filters, d: Delta, id: Id)
    requires WellFormed(d)
    ensures InstallAll(f, d).required == f.required
    ensures (forall i :: 0 <= i < |d| ==> d[i].id != id) ==> SameFor(f, InstallAll(f, d), id)
    decreases |d|
  {
    if d != [] { InstallOthers(Install(f, d[0]), d[1..], id); }
  }

  /** No delta changes a required predicate, or what is known of its revision. */
  lemma RequiredUntouched(f: Filters, d: Delta)
    requires Apply(f, d).Ok?
    ensures forall i :: 0 <= i < |d| ==> d[i].id !in f.required
    ensures Apply(f, d).value.required == f.required
    ensures forall id :: id in f.required ==> SameFor(f, Apply(f, d).value, id)
  {
    ShallowIff(f.required, d);
    FreshOnly(f, d);
    InstallOthers(f, Fresh(f, d), []);
    forall id | id in f.required ensures SameFor(f, Apply(f, d).value, id) {
      InstallOthers(f, Fresh(f, d), id);
    }
  }

  /** A predicate that a delta brought in is advisory. */
  lemma BroughtInIsAdvisory(f: Filters, d: Delta, id: Id)
    requires Valid(f) && Apply(f, d).Ok?
    requires id in Apply(f, d).value.live && !(id in f.live && f.live[id] == Apply(f, d).value.live[id])
    ensures Apply(f, d).value.live[id].mode == Advisory
  {
    ShallowIff(f.required, d);
    ApplyTrack(f, d, id);
    FindId(d, id);
    assert TrackOf(f, id) != TrackOf(Apply(f, d).value, id);
  }

  // ---- the order of the predicates ---------------------------------------

  ghost predicate Precedes(order: seq<Id>, x: Id, y: Id) {
    exists i, j :: 0 <= i < j < |order| && order[i] == x && order[j] == y
  }

  /** `x` is updated before `y` within the delta. */
  ghost predicate UpdatedBefore(d: Delta, x: Id, y: Id) {
    exists i, j :: 0 <= i < j < |d| && d[i].id == x && d[j].id == y
  }

  lemma {:induction false} WithoutPrecedes(order: seq<Id>, id: Id, i: nat, j: nat)
    requires i < j < |order| && order[i] != id && order[j] != id
    ensures Precedes(Without(order, id), order[i], order[j])
  {
    var rest := Without(order[1..], id);
    if i > 0 {
      WithoutPrecedes(order[1..], id, i - 1, j - 1);
      var a, b :| 0 <= a < b < |rest| && rest[a] == order[i] && rest[b] == order[j];
      if order[0] == id {
        assert Without(order, id) == rest;
      } else {
        assert ([order[0]] + rest)[1 + a] == order[i] && ([order[0]] + rest)[1 + b] == order[j];
      }
    } else {
      assert order[1..][j-1] == order[j];
      WithoutKeeps(order[1..], id, order[j]);
      var b :| 0 <= b < |rest| && rest[b] == order[j];
      var whole := [order[0]] + rest;
      assert Without(order, id) == whole && whole[0] == order[0] && whole[1 + b] == order[j];
    }
  }

  lemma {:induction false} WithoutKeeps(order: seq<Id>, id: Id, y: Id)
    requires y in order && y != id
    ensures y in Without(order, id)
  {
    if order[0] != y {
      assert order == [order[0]] + order[1..];
      WithoutKeeps(order[1..], id, y);
    }
  }

  /** One update keeps the order of the predicates that stay, and puts a new one last. */
  lemma InstallOrder(f: Filters, u: Update, x: Id, y: Id)
    requires Valid(f) && !Malformed(u) && x in Install(f, u).live && y in Install(f, u).live
    ensures x in f.live && y in f.live && Precedes(f.order, x, y) ==> Precedes(Install(f, u).order, x, y)
    ensures x in f.live && y !in f.live ==> Precedes(Install(f, u).order, x, y)
  {
    var g := Install(f, u);
    if x in f.live && y in f.live && Precedes(f.order, x, y) {
      var i, j :| 0 <= i < j < |f.order| && f.order[i] == x && f.order[j] == y;
      if u.Remove? {
        WithoutPrecedes(f.order, u.id, i, j);
      } else {
        assert g.order[i] == x && g.order[j] == y;
      }
    }
    if x in f.live && y !in f.live {
      assert y == u.id && g.order == f.order + [y] && x in f.order;
      var i :| 0 <= i < |f.order| && f.order[i] == x;
      assert g.order[i] == x && g.order[|f.order|] == y;
    }
  }

  lemma {:induction false} InstallAllOrder(f: Filters, d: Delta, x: Id, y: Id)
    requires Valid(f) && WellFormed(d) && DistinctIds(d) && x != y
    requires x in InstallAll(f, d).live && y in InstallAll(f, d).live
    ensures x in f.live && y in f.live && Precedes(f.order, x, y) ==> Precedes(InstallAll(f, d).order, x, y)
    ensures x in f.live && y !in f.live ==> Precedes(InstallAll(f, d).order, x, y)
    ensures x !in f.live && y !in f.live && UpdatedBefore(d, x, y) ==> Precedes(InstallAll(f, d).order, x, y)
    decreases |d|
  {
    if d != [] {
      var g := Install(f, d[0]);
      InstallTrack(f, d[0], x);
      InstallTrack(f, d[0], y);
      StaysGone(f, d, x);
      StaysGone(f, d, y);
      InstallAllOrder(g, d[1..], x, y);
      if x in g.live && y in g.live { InstallOrder(f, d[0], x, y); }
      if x !in f.live && y !in f.live && UpdatedBefore(d, x, y) {
        var i, j :| 0 <= i < j < |d| && d[i].id == x && d[j].id == y;
        if i > 0 { assert d[1..][i-1].id == x && d[1..][j-1].id == y; }
      }
    }
  }

  /** An id that its one update removed is not live at the end. */
  lemma StaysGone(f: Filters, d: Delta, id: Id)
    requires Valid(f) && WellFormed(d) && DistinctIds(d) && d != [] && id in InstallAll(f, d).live
    ensures d[0].id == id ==> d[0].Upsert?
    ensures id in f.live ==> id in Install(f, d[0]).live
  {
    InstallAllTrack(f, d, id);
  }

  lemma {:induction false} FreshKeeps(f: Filters, d: Delta, j: nat)
    requires j < |d| && !Stale(f, d[j])
    ensures d[j] in Fresh(f, d)
  {
    if j > 0 { FreshKeeps(f, d[1..], j - 1); }
  }

  lemma {:induction false} FreshBefore(f: Filters, d: Delta, i: nat, j: nat)
    requires i < j < |d| && !Stale(f, d[i]) && !Stale(f, d[j])
    ensures UpdatedBefore(Fresh(f, d), d[i].id, d[j].id)
  {
    var head, rest := if Stale(f, d[0]) then [] else [d[0]], Fresh(f, d[1..]);
    assert Fresh(f, d) == head + rest;
    if i > 0 {
      FreshBefore(f, d[1..], i - 1, j - 1);
    } else {
      FreshKeeps(f, d[1..], j - 1);
    }
    hide Fresh, Stale;
    LaterInBoth(head, rest, d[i], d[j]);
  }

  lemma LaterInBoth(head: Delta, rest: Delta, u: Update, v: Update)
    requires UpdatedBefore(rest, u.id, v.id) || (head == [u] && v in rest)
    ensures UpdatedBefore(head + rest, u.id, v.id)
  {
    var n := |head|;
    if UpdatedBefore(rest, u.id, v.id) {
      var a, b :| 0 <= a < b < |rest| && rest[a].id == u.id && rest[b].id == v.id;
      assert (head + rest)[n + a] == rest[a] && (head + rest)[n + b] == rest[b];
    } else {
      var b :| 0 <= b < |rest| && rest[b] == v;
      assert (head + rest)[0] == u && (head + rest)[n + b] == v;
    }
  }

  /** With distinct ids, an id has a fresh update only if its one update is fresh. */
  lemma IsFresh(f: Filters, d: Delta, i: nat)
    requires DistinctIds(d) && i < |d| && d[i].id in IdsOf(Fresh(f, d))
    ensures !Stale(f, d[i])
  {
    FreshOnly(f, d);
    var k :| 0 <= k < |Fresh(f, d)| && Fresh(f, d)[k].id == d[i].id;
    var j :| 0 <= j < |d| && d[j] == Fresh(f, d)[k];
  }

  /**
   The predicates keep their order under a delta: those that stay, as they were;
   new ones behind them, in the order of their updates.
   */
  lemma ApplyOrder(f: Filters, d: Delta, x: Id, y: Id)
    requires Valid(f) && Apply(f, d).Ok? && x != y
    requires x in Apply(f, d).value.live && y in Apply(f, d).value.live
    ensures x in f.live && y in f.live && Precedes(f.order, x, y) ==> Precedes(Apply(f, d).value.order, x, y)
    ensures x in f.live && y !in f.live ==> Precedes(Apply(f, d).value.order, x, y)
    ensures x !in f.live && y !in f.live && UpdatedBefore(d, x, y) ==> Precedes(Apply(f, d).value.order, x, y)
  {
    FindFresh(f, d, x);
    InstallAllOrder(f, Fresh(f, d), x, y);
    if x !in f.live && y !in f.live && UpdatedBefore(d, x, y) {
      var i, j :| 0 <= i < j < |d| && d[i].id == x && d[j].id == y;
      BroughtIn(f, d, x);
      BroughtIn(f, d, y);
      IsFresh(f, d, i);
      IsFresh(f, d, j);
      FreshBefore(f, d, i, j);
    }
  }

  lemma BroughtIn(f: Filters, d: Delta, id: Id)
    requires Valid(f) && Apply(f, d).Ok? && id !in f.live && id in Apply(f, d).value.live
    ensures id in IdsOf(Fresh(f, d))
  {
    FindFresh(f, d, id);
    InstallAllTrack(f, Fresh(f, d), id);
    FindId(Fresh(f, d), id);
    assert TrackOf(Apply(f, d).value, id).live.Some?;
  }

  // ---- compacting --------------------------------------------------------

  function KeysOf(d: Delta): set<(Id, nat)> { set i | 0 <= i < |d| :: (d[i].id, d[i].revision) }

  /** Keep, of the deltas in arrival order, those that are the first to carry a wanted (id, revision). */
  function Compact(ds: seq<Delta>, wanted: set<(Id, nat)>): seq<Delta>
    decreases |ds|
  {
    if ds == [] then []
    else (if KeysOf(ds[0]) * wanted != {} then [ds[0]] else []) + Compact(ds[1..], wanted - KeysOf(ds[0]))
  }

  function Current(f: Filters): set<(Id, nat)> { set id | id in f.revisions :: (id, f.revisions[id]) }

  /** What the state token carries between turns. */
  datatype History = History(deltas: seq<Delta>, order: seq<Id>)

  function Record(f: Filters, h: History, d: Delta): (Filters, History)
    requires Apply(f, d).Ok?
  {
    var f' := Apply(f, d).value;
    (f', History(Compact(h.deltas + [d], Current(f')), f'.order))
  }

  lemma {:induction false} FoldRises(t: Track, ds: seq<Delta>, id: Id)
    ensures t.revision <= Fold(t, ds, id).revision
    ensures Fold(t, ds, id).revision == t.revision ==> Fold(t, ds, id) == t
    decreases |ds|
  {
    if ds != [] { FoldRises(StepTrack(t, ds[0], id), ds[1..], id); }
  }

  /** A fold that ends above both starting revisions does not depend on where it started. */
  lemma {:induction false} FoldForgets(a: Track, b: Track, ds: seq<Delta>, id: Id)
    requires a.revision < Fold(a, ds, id).revision && b.revision < Fold(a, ds, id).revision
    ensures Fold(b, ds, id) == Fold(a, ds, id)
    decreases |ds|
  {
    var a', b' := StepTrack(a, ds[0], id), StepTrack(b, ds[0], id);
    FoldRises(a', ds[1..], id);
    var end := Fold(a', ds[1..], id);
    if a'.revision == end.revision {
      assert a' == end && b' == end;
    } else {
      FoldForgets(a', b', ds[1..], id);
    }
  }

  /**
   Compaction preserves an id's history: dropping deltas that carry none of the
   wanted revisions first does not change what the rest fold to.
   */
  lemma {:induction false} CompactKeepsId(t: Track, ds: seq<Delta>, wanted: set<(Id, nat)>, id: Id)
    requires forall i :: 0 <= i < |ds| ==> DistinctIds(ds[i])
    requires var end := Fold(t, ds, id).revision; end == t.revision || (end >= 0 && (id, end as nat) in wanted)
    ensures Fold(t, Compact(ds, wanted), id) == Fold(t, ds, id)
    decreases |ds|
  {
    if ds != [] {
      var d, rest := ds[0], ds[1..];
      var t' := StepTrack(t, d, id);
      var end := Fold(t, ds, id).revision;
      FoldRises(t, ds, id);
      FoldRises(t', rest, id);
      FindKey(d, id);
      if KeysOf(d) * wanted != {} {
        var kept := Compact(rest, wanted - KeysOf(d));
        assert Compact(ds, wanted) == [d] + kept && ([d] + kept)[1..] == kept;
        CompactKeepsId(t', rest, wanted - KeysOf(d), id);
      } else {
        DisjointMinus(wanted, KeysOf(d));
        assert Compact(ds, wanted) == Compact(rest, wanted);
        if t' != t {
          assert t'.revision != end;
          FoldForgets(t', t, rest, id);
        }
        CompactKeepsId(t, rest, wanted, id);
      }
    }
  }

  lemma DisjointMinus<T>(a: set<T>, b: set<T>)
    requires b * a == {}
    ensures a - b == a
  {
    forall x | x in a ensures x !in b {
      assert x in b ==> x in b * a;
    }
  }

  /** The revision a delta carries for an id is among its keys, and only that one. */
  lemma FindKey(d: Delta, id: Id)
    requires DistinctIds(d)
    ensures forall r: nat :: (id, r) in KeysOf(d) <==> Find(d, id).Some? && Find(d, id).value.revision == r
  {
    FindId(d, id);
    forall r: nat | (id, r) in KeysOf(d) ensures Find(d, id).Some? && Find(d, id).value.revision == r {
      var i :| 0 <= i < |d| && (d[i].id, d[i].revision) == (id, r);
      assert id in IdsOf(d);
      var u := Find(d, id).value;
      var j :| 0 <= j < |d| && d[j] == u;
      assert i == j;
    }
    if Find(d, id).Some? {
      var u := Find(d, id).value;
      var i :| 0 <= i < |d| && d[i] == u;
      assert (d[i].id, d[i].revision) in KeysOf(d);
    }
  }

  /** The history is bounded by the ids ever seen, not by the number of deltas. */
  lemma {:induction false} CompactIsBounded(ds: seq<Delta>, wanted: set<(Id, nat)>)
    ensures |Compact(ds, wanted)| <= |wanted|
    decreases |ds|
  {
    if ds != [] {
      var keys := KeysOf(ds[0]);
      CompactIsBounded(ds[1..], wanted - keys);
      assert |wanted| == |wanted - keys| + |keys * wanted| by {
        assert wanted == (wanted - keys) + keys * wanted;
      }
    }
  }

  lemma {:induction false} CompactSubset(ds: seq<Delta>, wanted: set<(Id, nat)>)
    ensures forall i :: 0 <= i < |Compact(ds, wanted)| ==> Compact(ds, wanted)[i] in ds
    decreases |ds|
  {
    if ds != [] { CompactSubset(ds[1..], wanted - KeysOf(ds[0])); }
  }

  // ---- replaying ---------------------------------------------------------

  function ReplayAll(f: Filters, ds: seq<Delta>): Result<Filters> {
    if ds == [] then Ok(f)
    else
      match ReplayAll(f, ds[..|ds|-1])
      case Err(e) => Err(e)
      case Ok(g) => Apply(g, ds[|ds|-1])
  }

  predicate SameIds(order: seq<Id>, live: map<Id, Predicate>) {
    && |order| == |live|
    && (forall i, j :: 0 <= i < j < |order| ==> order[i] != order[j])
    && forall i :: 0 <= i < |order| ==> order[i] in live
  }

  /** Rearrange the live predicates; the order must name exactly the live ids. */
  function WithOrder(f: Filters, order: seq<Id>): Result<Filters> {
    if f.order == order then Ok(f)
    else if SameIds(order, f.live) then Ok(f.(order := order))
    else Err("recorded predicate order does not match the replayed filter state")
  }

  function Replay(f: Filters, h: History): Result<Filters> {
    if h.deltas == [] then Ok(f)
    else
      match ReplayAll(f, h.deltas)
      case Err(e) => Err(e)
      case Ok(g) => WithOrder(g, h.order)
  }

  method ReplayHistory(f: Filters, h: History) returns (r: Result<Filters>)
    ensures r.Ok? <==> Replay(f, h).Ok?
    ensures r.Ok? ==> r == Replay(f, h)
  {
    if h.deltas == [] { return Ok(f); }
    r := ReplayDeltas(f, h.deltas);
    if r.Ok? { r := WithOrder(r.value, h.order); }
  }

  method ReplayDeltas(f: Filters, ds: seq<Delta>) returns (r: Result<Filters>)
    ensures r.Ok? <==> ReplayAll(f, ds).Ok?
    ensures r.Ok? ==> r == ReplayAll(f, ds)
  {
    var replayed := f;
    for i := 0 to |ds|
      invariant ReplayAll(f, ds[..i]) == Ok(replayed)
    {
      ReplayNext(f, ds, i);
      var next := ApplyDelta(replayed, ds[i]);
      if next.Err? {
        ReplayFails(f, ds, i + 1);
        return next;
      }
      replayed := next.value;
    }
    assert ds[..|ds|] == ds;
    r := Ok(replayed);
  }

  lemma ReplayNext(f: Filters, ds: seq<Delta>, i: nat)
    requires i < |ds| && ReplayAll(f, ds[..i]).Ok?
    ensures ReplayAll(f, ds[..i+1]) == Apply(ReplayAll(f, ds[..i]).value, ds[i])
  {
    assert ds[..i+1][..i] == ds[..i];
  }

  lemma {:induction false} ReplayFails(f: Filters, ds: seq<Delta>, i: nat)
    requires i <= |ds| && ReplayAll(f, ds[..i]).Err?
    ensures ReplayAll(f, ds).Err?
    decreases |ds| - i
  {
    if i < |ds| {
      assert ds[..i+1][..i] == ds[..i];
      ReplayFails(f, ds, i + 1);
    } else {
      assert ds[..i] == ds;
    }
  }

  /**
   The updates of `d` that are newer than everything the deltas `before` it have
   for their ids. Which they are can be read off the revisions alone.
   */
  ghost function Awake(f: Filters, before: seq<Delta>, d: Delta): Delta {
    if d == [] then [] else
      var awake := d[0].revision > Fold(TrackOf(f, d[0].id), before, d[0].id).revision;
      (if awake then [d[0]] else []) + Awake(f, before, d[1..])
  }

  /** The updates that are awake somewhere in the history do not parse within one document's budget. */
  ghost predicate Wakes(f: Filters, ds: seq<Delta>) {
    exists k :: 0 <= k < |ds| && !Parses(Awake(f, ds[..k], ds[k]))
  }

  /** Once the deltas before it are folded, what is awake in a delta is what is not stale. */
  lemma {:induction false} AwakeIsFresh(f: Filters, before: seq<Delta>, g: Filters, d: Delta)
    requires forall id :: TrackOf(g, id) == Fold(TrackOf(f, id), before, id)
    ensures Awake(f, before, d) == Fresh(g, d)
  {
    if d != [] {
      assert TrackOf(g, d[0].id) == Fold(TrackOf(f, d[0].id), before, d[0].id);
      AwakeIsFresh(f, before, g, d[1..]);
    }
  }

  /** Skipping updates saves nodes, so a delta that parses whole parses wherever it is replayed. */
  lemma {:induction false} AwakeParses(f: Filters, before: seq<Delta>, d: Delta)
    requires Parses(d)
    ensures Parses(Awake(f, before, d)) && NodeCount(Awake(f, before, d)) <= NodeCount(d)
  {
    if d != [] {
      var rest := Awake(f, before, d[1..]);
      AwakeParses(f, before, d[1..]);
      assert ([d[0]] + rest)[1..] == rest && [] + rest == rest;
      assert Awake(f, before, d) == [d[0]] + rest || Awake(f, before, d) == rest;
    }
  }

  lemma {:induction false} FoldSnoc(t: Track, ds: seq<Delta>, d: Delta, id: Id)
    ensures Fold(t, ds + [d], id) == StepTrack(Fold(t, ds, id), d, id)
    decreases |ds|
  {
    if ds == [] {
      assert ds + [d] == [d] && [d][1..] == [];
    } else {
      assert (ds + [d])[1..] == ds[1..] + [d];
      FoldSnoc(StepTrack(t, ds[0], id), ds[1..], d, id);
    }
  }

  /** Deltas a history may hold: shallowly valid, over at most the allowed number of ids. */
  ghost predicate Replayable(f: Filters, ds: seq<Delta>, ids: set<Id>) {
    && Valid(f) && f.revisions.Keys <= ids && |ids| <= MAX_PREDICATE_IDS
    && forall k :: 0 <= k < |ds| ==> Shallow(f.required, ds[k]) && IdsOf(ds[k]) <= ids
  }

  /** Replay fails exactly when updates that do not parse wake; otherwise it folds every id. */
  lemma {:induction false} ReplayAllIff(f: Filters, ds: seq<Delta>, ids: set<Id>)
    requires Replayable(f, ds, ids)
    ensures ReplayAll(f, ds).Ok? <==> !Wakes(f, ds)
    ensures ReplayAll(f, ds).Ok? ==>
      var g := ReplayAll(f, ds).value;
      && Valid(g) && g.required == f.required && g.revisions.Keys <= ids
      && forall id :: TrackOf(g, id) == Fold(TrackOf(f, id), ds, id)
    decreases |ds|
  {
    if ds != [] {
      var n := |ds| - 1;
      var init, d := ds[..n], ds[n];
      assert ds == init + [d];
      ReplayAllIff(f, init, ids);
      WakesSnoc(f, init, d);
      if ReplayAll(f, init).Ok? {
        var g := ReplayAll(f, init).value;
        ReplayStepOk(f, init, d, ids, g);
        if Apply(g, d).Ok? { ReplayStepTracks(f, init, d, ids, g); }
      }
    }
  }

  lemma ReplayStepOk(f: Filters, init: seq<Delta>, d: Delta, ids: set<Id>, g: Filters)
    requires Shallow(g.required, d) && IdsOf(d) <= ids && g.revisions.Keys <= ids && |ids| <= MAX_PREDICATE_IDS
    requires forall id :: TrackOf(g, id) == Fold(TrackOf(f, id), init, id)
    ensures Apply(g, d).Ok? <==> Parses(Awake(f, init, d))
  {
    FreshIds(g, d);
    Fits(g.revisions.Keys + IdsOf(Fresh(g, d)), ids);
    AwakeIsFresh(f, init, g, d);
  }

  lemma ReplayStepTracks(f: Filters, init: seq<Delta>, d: Delta, ids: set<Id>, g: Filters)
    requires Valid(g) && IdsOf(d) <= ids && g.revisions.Keys <= ids && Apply(g, d).Ok?
    requires forall id :: TrackOf(g, id) == Fold(TrackOf(f, id), init, id)
    ensures var g' := Apply(g, d).value;
      && Valid(g') && g'.required == g.required && g'.revisions.Keys <= ids
      && forall id :: TrackOf(g', id) == Fold(TrackOf(f, id), init + [d], id)
  {
    var g' := Apply(g, d).value;
    forall id ensures TrackOf(g', id) == Fold(TrackOf(f, id), init + [d], id) {
      ApplyTrack(g, d, id);
      FoldSnoc(TrackOf(f, id), init, d, id);
    }
    ApplyTrack(g, d, []);
    FreshIds(g, d);
    InstallAllIds(g, Fresh(g, d));
  }

  lemma Fits<T>(a: set<T>, b: set<T>)
    requires a <= b
    ensures |a| <= |b|
  {
    assert b == a + (b - a);
  }

  lemma FreshIds(f: Filters, d: Delta)
    ensures IdsOf(Fresh(f, d)) <= IdsOf(d)
  {
    FreshOnly(f, d);
    forall id | id in IdsOf(Fresh(f, d)) ensures id in IdsOf(d) {
      var i :| 0 <= i < |Fresh(f, d)| && Fresh(f, d)[i].id == id;
      var j :| 0 <= j < |d| && d[j] == Fresh(f, d)[i];
      assert d[j].id == id;
    }
  }

  lemma {:induction false} InstallAllIds(f: Filters, d: Delta)
    requires WellFormed(d)
    ensures InstallAll(f, d).revisions.Keys <= f.revisions.Keys + IdsOf(d)
    decreases |d|
  {
    if d != [] {
      InstallAllIds(Install(f, d[0]), d[1..]);
      assert d[0].id in IdsOf(d);
      forall id | id in IdsOf(d[1..]) ensures id in IdsOf(d) {
        var i :| 0 <= i < |d[1..]| && d[1..][i].id == id;
        assert d[i+1].id == id;
      }
    }
  }

  lemma WakesSnoc(f: Filters, init: seq<Delta>, d: Delta)
    ensures Wakes(f, init + [d]) <==> Wakes(f, init) || !Parses(Awake(f, init, d))
  {
    var ds := init + [d];
    forall k | 0 <= k <= |init| ensures ds[..k] == init[..k] {}
    assert init[..|init|] == init;
    if k :| 0 <= k < |init| && !Parses(Awake(f, init[..k], init[k])) {
      assert ds[k] == init[k] && !Parses(Awake(f, ds[..k], ds[k]));
    }
    if !Parses(Awake(f, init, d)) {
      assert ds[|init|] == d && !Parses(Awake(f, ds[..|init|], ds[|init|]));
    }
    if k :| 0 <= k < |ds| && !Parses(Awake(f, ds[..k], ds[k])) {
      if k < |init| { assert !Parses(Awake(f, init[..k], init[k])); }
    }
  }

  // ---- the stream --------------------------------------------------------

  /** What ties a recorded history to the filters it stands for. */
  ghost predicate Inv(f0: Filters, f: Filters, h: History) {
    && Valid(f0) && Valid(f) && f.required == f0.required
    && |f.revisions.Keys| <= MAX_PREDICATE_IDS
    && (h.deltas != [] ==> h.order == f.order)
    && (f.revisions == f0.revisions ==> f == f0)
    && (forall i :: 0 <= i < |h.deltas| ==> Shallow(f0.required, h.deltas[i]))
    && (forall id :: Fold(TrackOf(f0, id), h.deltas, id) == TrackOf(f, id))
  }

  lemma RecordKeepsTracks(f0: Filters, f: Filters, h: History, d: Delta, id: Id)
    requires Inv(f0, f, h) && Apply(f, d).Ok?
    ensures var (f', h') := Record(f, h, d);
      Fold(TrackOf(f0, id), h'.deltas, id) == TrackOf(f', id)
  {
    var (f', h') := Record(f, h, d);
    var all := h.deltas + [d];
    ApplyTrack(f, d, id);
    FoldSnoc(TrackOf(f0, id), h.deltas, d, id);
    assert Fold(TrackOf(f0, id), all, id) == TrackOf(f', id);
    var end := TrackOf(f', id).revision;
    if end >= 0 {
      assert (id, f'.revisions[id]) in Current(f');
    } else {
      FoldRises(TrackOf(f0, id), all, id);
    }
    forall i | 0 <= i < |all| ensures DistinctIds(all[i]) {
      if i < |h.deltas| { assert Shallow(f0.required, h.deltas[i]); }
    }
    CompactKeepsId(TrackOf(f0, id), all, Current(f'), id);
  }

  lemma NothingFresh(f: Filters, d: Delta)
    requires Valid(f) && Apply(f, d).Ok? && Apply(f, d).value.revisions == f.revisions
    ensures Apply(f, d).value == f
  {
    if Fresh(f, d) != [] {
      var u := Fresh(f, d)[0];
      FreshOnly(f, d);
      FindFresh(f, d, u.id);
      ApplyTrack(f, d, u.id);
      InstallAllTrack(f, Fresh(f, d), u.id);
      assert false;
    }
  }

  lemma RevisionsRise(f0: Filters, f: Filters, h: History, d: Delta)
    requires Inv(f0, f, h) && Apply(f, d).Ok? && Apply(f, d).value.revisions == f0.revisions
    ensures Apply(f, d).value == f0
  {
    var f' := Apply(f, d).value;
    forall id ensures TrackOf(f0, id).revision == TrackOf(f, id).revision == TrackOf(f', id).revision {
      FoldRises(TrackOf(f0, id), h.deltas, id);
      ApplyTrack(f, d, id);
    }
    forall id ensures id in f.revisions <==> id in f0.revisions {
      assert TrackOf(f0, id).revision == TrackOf(f, id).revision;
    }
    forall id | id in f.revisions ensures f.revisions[id] == f0.revisions[id] {
      assert TrackOf(f0, id).revision == TrackOf(f, id).revision;
    }
    assert f.revisions == f0.revisions;
    NothingFresh(f, d);
  }

  /** Recording a delta keeps the history a faithful stand-in for the filters. */
  lemma RecordKeepsInv(f0: Filters, f: Filters, h: History, d: Delta)
    requires Inv(f0, f, h) && Apply(f, d).Ok?
    ensures var (f', h') := Record(f, h, d); Inv(f0, f', h')
  {
    var (f', h') := Record(f, h, d);
    ApplyTrack(f, d, []);
    InstallAllIds(f, Fresh(f, d));
    Fits(f'.revisions.Keys, f.revisions.Keys + IdsOf(Fresh(f, d)));
    if f'.revisions == f0.revisions { RevisionsRise(f0, f, h, d); }
    CompactSubset(h.deltas + [d], Current(f'));
    forall i | 0 <= i < |h'.deltas| ensures Shallow(f0.required, h'.deltas[i]) {
      assert h'.deltas[i] in h.deltas + [d];
    }
    forall id ensures Fold(TrackOf(f0, id), h'.deltas, id) == TrackOf(f', id) {
      RecordKeepsTracks(f0, f, h, d, id);
    }
  }

  lemma {:induction false} FoldSees(t: Track, ds: seq<Delta>, k: nat, id: Id)
    requires k < |ds| && id in IdsOf(ds[k])
    ensures Fold(t, ds, id).revision >= 0
    decreases |ds|
  {
    FindId(ds[0], id);
    if k == 0 {
      FoldRises(StepTrack(t, ds[0], id), ds[1..], id);
    } else {
      FoldSees(StepTrack(t, ds[0], id), ds[1..], k - 1, id);
    }
  }

  lemma HistoryIsReplayable(f0: Filters, f: Filters, h: History)
    requires Inv(f0, f, h)
    ensures Replayable(f0, h.deltas, f.revisions.Keys)
  {
    forall id | id in f0.revisions ensures id in f.revisions {
      FoldRises(TrackOf(f0, id), h.deltas, id);
      assert TrackOf(f, id).revision >= 0;
    }
    forall k, id | 0 <= k < |h.deltas| && id in IdsOf(h.deltas[k]) ensures id in f.revisions {
      FoldSees(TrackOf(f0, id), h.deltas, k, id);
      assert TrackOf(f, id).revision >= 0;
    }
  }

  /** Replaying the deltas alone gives the filters back up to the order of the predicates. */
  lemma ReplayAllRebuilds(f0: Filters, f: Filters, h: History)
    requires Inv(f0, f, h)
    ensures ReplayAll(f0, h.deltas).Ok? <==> !Wakes(f0, h.deltas)
    ensures ReplayAll(f0, h.deltas).Ok? ==>
      var g := ReplayAll(f0, h.deltas).value; Valid(g) && g.(order := f.order) == f
  {
    HistoryIsReplayable(f0, f, h);
    ReplayAllIff(f0, h.deltas, f.revisions.Keys);
    if ReplayAll(f0, h.deltas).Ok? {
      var g := ReplayAll(f0, h.deltas).value;
      forall id ensures TrackOf(g, id) == TrackOf(f, id) {
        assert Fold(TrackOf(f0, id), h.deltas, id) == TrackOf(f, id);
      }
      TracksDecide(g, f);
    }
  }

  /**
   The history stands for the filters: replaying it onto the first snapshot
   succeeds exactly when nothing unparsable wakes, and then rebuilds the same
   predicates, in the same order, with the same revisions.
   */
  lemma ReplayRebuilds(f0: Filters, f: Filters, h: History)
    requires Inv(f0, f, h)
    ensures Replay(f0, h).Ok? <==> !Wakes(f0, h.deltas)
    ensures Replay(f0, h).Ok? ==> Replay(f0, h) == Ok(f)
  {
    ReplayAllRebuilds(f0, f, h);
    OrderCounts(f.order, f.live);
  }

  lemma TracksDecide(g: Filters, f: Filters)
    requires forall id :: TrackOf(g, id) == TrackOf(f, id)
    ensures g.revisions == f.revisions && g.live == f.live
  {
    forall id ensures id in g.revisions <==> id in f.revisions {
      assert TrackOf(g, id) == TrackOf(f, id);
    }
    forall id | id in g.revisions ensures g.revisions[id] == f.revisions[id] {
      assert TrackOf(g, id) == TrackOf(f, id);
    }
    forall id ensures id in g.live <==> id in f.live {
      assert TrackOf(g, id) == TrackOf(f, id);
    }
    forall id | id in g.live ensures g.live[id] == f.live[id] {
      assert TrackOf(g, id) == TrackOf(f, id);
    }
  }

  lemma OrderCounts(order: seq<Id>, live: map<Id, Predicate>)
    requires NoRepeats(order) && forall id :: id in order <==> id in live
    ensures SameIds(order, live)
  {
    DistinctCount(order);
    assert (set x | x in order) == live.Keys;
  }

  lemma CurrentCount(f: Filters)
    ensures |Current(f)| == |f.revisions|
  {
    PairCount(f.revisions.Keys, f.revisions);
    assert Current(f) == set id | id in f.revisions.Keys :: (id, f.revisions[id]);
  }

  lemma {:induction false} PairCount(ids: set<Id>, m: map<Id, nat>)
    requires ids <= m.Keys
    ensures |set id | id in ids :: (id, m[id])| == |ids|
    decreases |ids|
  {
    if ids != {} {
      var x :| x in ids;
      PairCount(ids - {x}, m);
      var rest := set id | id in ids - {x} :: (id, m[id]);
      assert (set id | id in ids :: (id, m[id])) == rest + {(x, m[x])};
      assert (x, m[x]) !in rest;
    }
  }
}
