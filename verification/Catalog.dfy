/**
 The DDL-capable in-memory catalogs that revalidate with a generation-counter
 etag: a matching etag is answered "not modified" without building anything.
 */
module Catalog {
  import opened Seqs
  import opened Bytes
  import opened Numerals

  /** Sixteen random bytes; the first may be overwritten by a composite's route. */
  type AttachId = seq<Byte>

  type Key = seq<Byte>

  function KeyOf(id: AttachId): Key { if |id| == 0 then [] else id[1..] }

  datatype Table = Table(columns: string)

  datatype View = View(definition: string, comment: Option<string>, columnComments: map<string, string>)

  datatype Schema =
    Schema(path: seq<string>, comment: Option<string>, tables: map<string, Table>, views: map<string, View>)

  /** One attachment's private catalog. */
  datatype State = State(version: nat, schemas: map<string, Schema>)

  // ---- schema paths ------------------------------------------------------

  function LowerChar(c: char): char {
    if 'A' <= c <= 'Z' then ((c as int) - ('A' as int) + ('a' as int)) as char else c
  }

  function Lower(s: string): string { Map(s, LowerChar) }

  function Joined(path: seq<string>): string {
    if path == [] then "" else if |path| == 1 then Lower(path[0]) else Lower(path[0]) + "\0" + Joined(path[1..])
  }

  /** The case-insensitive lookup key; a path needs at least one component and no empty one. */
  function PathKey(path: seq<string>): Result<string> {
    if path == [] || "" in path then Err("schema paths must contain at least one non-empty component")
    else Ok(Joined(path))
  }

  // ---- DDL ---------------------------------------------------------------

  datatype Conflict = Ignore | Replace | Fail

  datatype Ddl =
    | SchemaCreate(path: seq<string>, comment: Option<string>, onConflict: Conflict)
    | SchemaDrop(path: seq<string>, ignoreNotFound: bool, cascade: bool)
    | TableCreate(path: seq<string>, name: string, table: Table, constrained: bool, onConflict: Conflict)
    | TableDrop(path: seq<string>, name: string, ignoreNotFound: bool)
    | ViewCreate(path: seq<string>, name: string, view: View, onConflict: Conflict)
    | ViewDrop(path: seq<string>, name: string, ignoreNotFound: bool)
    | ViewCommentSet(path: seq<string>, name: string, comment: Option<string>, ignoreNotFound: bool)
    | ViewColumnCommentSet(
        path: seq<string>, name: string, columnPath: seq<string>, comment: Option<string>, ignoreNotFound: bool)

  function Bumped(s: State, key: string, schema: Schema): State {
    State(s.version + 1, s.schemas[key := schema])
  }

  /** Set one column's comment, or remove it. */
  function WithColumnComment(v: View, column: string, c: Option<string>): View {
    v.(columnComments := if c.None? then v.columnComments - {column} else v.columnComments[column := c.value])
  }

  function Missing(s: State, ignoreNotFound: bool): Result<State> {
    if ignoreNotFound then Ok(s) else Err("not found")
  }

  /** A schema-changing call: the new state, or an error that changes nothing. */
  function Change(s: State, d: Ddl): Result<State> {
    match PathKey(d.path)
    case Err(e) =>
      if d.TableCreate? && d.constrained then Err("constraints are unsupported") else Err(e)
    case Ok(k) =>
      var found := k in s.schemas;
      match d
      case SchemaCreate(path, comment, onConflict) =>
        if found && onConflict == Ignore then Ok(s)
        else if found && onConflict == Fail then Err("already exists")
        else if |path| > 1 && Joined(path[..|path|-1]) !in s.schemas then Err("parent not found")
        else Ok(Bumped(s, k, Schema(path, comment, map[], map[])))
      case SchemaDrop(path, ignoreNotFound, cascade) =>
        if !found then Missing(s, ignoreNotFound)
        else if !cascade && (s.schemas[k].tables != map[] || s.schemas[k].views != map[]) then Err("not empty")
        else Ok(State(s.version + 1, s.schemas - {k}))
      case TableCreate(_, name, table, constrained, onConflict) =>
        if constrained then Err("constraints are unsupported")
        else if !found then Err("schema not found")
        else
          var schema := s.schemas[k];
          if name in schema.tables && onConflict == Ignore then Ok(s)
          else if name in schema.tables && onConflict == Fail then Err("already exists")
          else Ok(Bumped(s, k, schema.(tables := schema.tables[name := table])))
      case TableDrop(_, name, ignoreNotFound) =>
        if !found || name !in s.schemas[k].tables then Missing(s, ignoreNotFound)
        else Ok(Bumped(s, k, s.schemas[k].(tables := s.schemas[k].tables - {name})))
      case ViewCreate(_, name, view, onConflict) =>
        if !found then Err("schema not found")
        else
          var schema := s.schemas[k];
          if name in schema.views && onConflict == Ignore then Ok(s)
          else if name in schema.views && onConflict == Fail then Err("already exists")
          else Ok(Bumped(s, k, schema.(views := schema.views[name := view])))
      case ViewDrop(_, name, ignoreNotFound) =>
        if !found || name !in s.schemas[k].views then Missing(s, ignoreNotFound)
        else Ok(Bumped(s, k, s.schemas[k].(views := s.schemas[k].views - {name})))
      case ViewCommentSet(_, name, comment, ignoreNotFound) =>
        if !found || name !in s.schemas[k].views then Missing(s, ignoreNotFound)
        else
          var view := s.schemas[k].views[name];
          Ok(Bumped(s, k, s.schemas[k].(views := s.schemas[k].views[name := view.(comment := comment)])))
      case ViewColumnCommentSet(_, name, columnPath, comment, ignoreNotFound) =>
        if |columnPath| != 1 || columnPath[0] == "" || '\0' in columnPath[0] then Err("one raw output identifier")
        else if !found || name !in s.schemas[k].views then Missing(s, ignoreNotFound)
        else
          var view := WithColumnComment(s.schemas[k].views[name], columnPath[0], comment);
          Ok(Bumped(s, k, s.schemas[k].(views := s.schemas[k].views[name := view])))
  }

  /** Every accepted call either leaves the catalog untouched or moves its version on by one. */
  lemma ChangeBumps(s: State, d: Ddl)
    requires Change(s, d).Ok?
    ensures Change(s, d).value == s || Change(s, d).value.version == s.version + 1
  {
  }

  // ---- what DDL means for its caller -------------------------------------

  /** The table or view a call is about. */
  function NameOf(d: Ddl): Option<string> {
    if d.SchemaCreate? || d.SchemaDrop? then None else Some(d.name)
  }

  /** A call reaches the one schema and the one name it is about; everything else stays. */
  lemma ChangeIsLocal(s: State, d: Ddl, k: string, name: string)
    requires Change(s, d).Ok?
    ensures var s', key := Change(s, d).value, PathKey(d.path).value;
      && (k != key ==> (k in s'.schemas <==> k in s.schemas) && (k in s.schemas ==> s'.schemas[k] == s.schemas[k]))
      && (NameOf(d).Some? && k == key && k in s.schemas ==> k in s'.schemas)
      && (NameOf(d).Some? && NameOf(d).value != name && k == key && k in s.schemas ==>
           && KeepsTable(s.schemas[k], s'.schemas[k], name)
           && KeepsView(s.schemas[k], s'.schemas[k], name))
  {
  }

  predicate KeepsTable(a: Schema, b: Schema, name: string) {
    (name in b.tables <==> name in a.tables) && (name in a.tables ==> b.tables[name] == a.tables[name])
  }

  predicate KeepsView(a: Schema, b: Schema, name: string) {
    (name in b.views <==> name in a.views) && (name in a.views ==> b.views[name] == a.views[name])
  }

  /** The drop that matches a create. */
  function Undo(d: Ddl): Ddl
    requires d.SchemaCreate? || d.TableCreate? || d.ViewCreate?
  {
    match d
    case SchemaCreate(path, _, _) => SchemaDrop(path, false, false)
    case TableCreate(path, name, _, _, _) => TableDrop(path, name, false)
    case ViewCreate(path, name, _, _) => ViewDrop(path, name, false)
  }

  /** Whether a create would find its object there already. */
  predicate Present(s: State, d: Ddl)
    requires PathKey(d.path).Ok?
  {
    var k := PathKey(d.path).value;
    k in s.schemas && match d
      case SchemaCreate(_, _, _) => true
      case SchemaDrop(_, _, _) => true
      case TableCreate(_, name, _, _, _) => name in s.schemas[k].tables
      case TableDrop(_, name, _) => name in s.schemas[k].tables
      case ViewCreate(_, name, _, _) => name in s.schemas[k].views
      case ViewDrop(_, name, _) => name in s.schemas[k].views
      case ViewCommentSet(_, name, _, _) => name in s.schemas[k].views
      case ViewColumnCommentSet(_, name, _, _, _) => name in s.schemas[k].views
  }

  /** Dropping what was just created gives the contents back, two versions later. */
  lemma DropUndoesCreate(s: State, d: Ddl)
    requires d.SchemaCreate? || d.TableCreate? || d.ViewCreate?
    requires Change(s, d).Ok? && !Present(s, d)
    ensures Change(Change(s, d).value, Undo(d)) == Ok(State(s.version + 2, s.schemas))
  {
    var k := PathKey(d.path).value;
    var s' := Change(s, d).value;
    match d
    case SchemaCreate(_, _, _) =>
      assert s'.schemas - {k} == s.schemas;
    case TableCreate(_, name, _, _, _) =>
      assert s'.schemas[k].tables - {name} == s.schemas[k].tables;
      assert s'.schemas[k := s.schemas[k]] == s.schemas;
    case ViewCreate(_, name, _, _) =>
      assert s'.schemas[k].views - {name} == s.schemas[k].views;
      assert s'.schemas[k := s.schemas[k]] == s.schemas;
  }

  /** A call that tolerates finding its work done. */
  predicate Forgiving(d: Ddl) {
    match d
    case SchemaCreate(_, _, onConflict) => onConflict == Ignore
    case SchemaDrop(_, ignoreNotFound, _) => ignoreNotFound
    case TableCreate(_, _, _, _, onConflict) => onConflict == Ignore
    case TableDrop(_, _, ignoreNotFound) => ignoreNotFound
    case ViewCreate(_, _, _, onConflict) => onConflict == Ignore
    case ViewDrop(_, _, ignoreNotFound) => ignoreNotFound
    case ViewCommentSet(_, _, _, _) => false
    case ViewColumnCommentSet(_, _, _, _, _) => false
  }

  /** Repeating a forgiving call changes nothing, the version included; so it keeps every etag valid. */
  lemma ForgivingCallsRepeat(s: State, d: Ddl)
    requires Forgiving(d) && Change(s, d).Ok?
    ensures Change(Change(s, d).value, d) == Ok(Change(s, d).value)
  {
  }

  // ---- keys --------------------------------------------------------------

  /** Every schema is filed under the key of its own path. */
  ghost predicate WellKeyed(s: State) {
    forall k :: k in s.schemas ==> PathKey(s.schemas[k].path) == Ok(k)
  }

  lemma ChangeKeepsKeys(s: State, d: Ddl)
    requires WellKeyed(s) && Change(s, d).Ok?
    ensures WellKeyed(Change(s, d).value)
  {
    var s', key := Change(s, d).value, PathKey(d.path).value;
    hide Change;
    forall k | k in s'.schemas ensures PathKey(s'.schemas[k].path) == Ok(k) {
      if k != key { ChangeIsLocal(s, d, k, ""); }
    }
  }

  // ---- etags -------------------------------------------------------------

  function Etag(version: nat): string { "gen-" + Digits(version) }

  /** An etag is `gen-` and the generation's numeral. */
  lemma EtagReads(version: nat)
    ensures |Etag(version)| > 4 && Etag(version)[..4] == "gen-" && ReadInt(Etag(version)[4..]) == Some(version)
  {
    DigitsStart(version);
    ReadDigits(version);
    assert Etag(version)[4..] == Digits(version);
  }

  /** Equal etags mean equal generations. */
  lemma EtagInjective(a: nat, b: nat)
    requires Etag(a) == Etag(b)
    ensures a == b
  {
    EtagReads(a);
    EtagReads(b);
  }

  // ---- the catalog as a whole --------------------------------------------

  type World = map<Key, State>

  datatype Event =
    | Attach(id: AttachId)
    | Detach(id: AttachId)
    | Alter(id: AttachId, ddl: Ddl)
    | Contents(id: AttachId, ifNoneMatch: Option<string>)

  datatype Answer =
    | Done
    | Failed(reason: string)
    | NotModified(etag: string)
    | Snapshot(etag: string, schemas: map<string, Schema>)

  function MainOnly(): State { State(1, map["main" := Schema(["main"], None, map[], map[])]) }

  function React(w: World, e: Event): (World, Answer) {
    var k := KeyOf(e.id);
    match e
    case Attach(_) => (w[k := MainOnly()], Done)
    case Detach(_) => (w - {k}, Done)
    case Alter(_, ddl) =>
      if k !in w then (w, Failed("not attached"))
      else
        (match Change(w[k], ddl)
         case Err(r) => (w, Failed(r))
         case Ok(s) => (w[k := s], Done))
    case Contents(_, ifNoneMatch) =>
      if k !in w then (w, Failed("not attached"))
      else if ifNoneMatch == Some(Etag(w[k].version)) then (w, NotModified(Etag(w[k].version)))
      else (w, Snapshot(Etag(w[k].version), w[k].schemas))
  }

  function Run(w: World, events: seq<Event>): World
    decreases |events|
  {
    if events == [] then w else Run(React(w, events[0]).0, events[1..])
  }

  /** Overwriting byte 0 of the attach id reaches the same state and gets the same answer. */
  lemma RouteByteIsIgnored(w: World, e: Event, id: AttachId, route: Byte)
    requires |e.id| > 0 && id == e.id[0 := route]
    ensures React(w, e.(id := id)) == React(w, e)
  {
    assert KeyOf(id) == KeyOf(e.id);
  }

  /** An event on one attachment leaves every other alone. */
  lemma OthersUntouched(w: World, e: Event, k: Key)
    requires KeyOf(e.id) != k
    ensures k in React(w, e).0 <==> k in w
    ensures k in w ==> React(w, e).0[k] == w[k]
  {
  }

  /** The same calls, with attach ids that differ in byte 0 at most. */
  predicate SameButRoutes(a: seq<Event>, b: seq<Event>) {
    |a| == |b| && forall i :: 0 <= i < |a| ==> KeyOf(a[i].id) == KeyOf(b[i].id) && a[i] == b[i].(id := a[i].id)
  }

  /** The answers a run of events gets. */
  function Answers(w: World, events: seq<Event>): seq<Answer>
    decreases |events|
  {
    if events == [] then [] else
      var (w', answer) := React(w, events[0]);
      [answer] + Answers(w', events[1..])
  }

  /** However a composite stamps its route into the attach ids, a run reaches the same state with the same answers. */
  lemma {:induction false} RoutesDoNotMatter(w: World, a: seq<Event>, b: seq<Event>)
    requires SameButRoutes(a, b)
    ensures Run(w, a) == Run(w, b) && Answers(w, a) == Answers(w, b)
    decreases |a|
  {
    if a != [] {
      assert React(w, a[0]) == React(w, b[0]);
      forall i | 0 <= i < |a| - 1 ensures a[1..][i] == a[i+1] && b[1..][i] == b[i+1] {}
      RoutesDoNotMatter(React(w, a[0]).0, a[1..], b[1..]);
    }
  }

  /** What the events on one attachment are among others. */
  function OnKey(events: seq<Event>, k: Key): seq<Event> {
    if events == [] then [] else (if KeyOf(events[0].id) == k then [events[0]] else []) + OnKey(events[1..], k)
  }

  /** Two worlds hold the same under a key, or both nothing. */
  predicate SameAt(a: World, b: World, k: Key) { (k in a <==> k in b) && (k in a ==> a[k] == b[k]) }

  /** Attachments do not interfere: one ends as if only its own events had happened. */
  lemma {:induction false} OnlyOwnEventsCount(w: World, v: World, events: seq<Event>, k: Key)
    requires SameAt(w, v, k)
    ensures SameAt(Run(w, events), Run(v, OnKey(events, k)), k)
    decreases |events|
  {
    if events != [] {
      var e, rest := events[0], OnKey(events[1..], k);
      if KeyOf(e.id) == k {
        assert ([e] + rest)[1..] == rest;
        OnlyOwnEventsCount(React(w, e).0, React(v, e).0, events[1..], k);
      } else {
        OthersUntouched(w, e, k);
        assert [] + rest == rest;
        OnlyOwnEventsCount(React(w, e).0, v, events[1..], k);
      }
    }
  }

  /** No event re-creates this attachment. */
  predicate NoAttach(events: seq<Event>, k: Key) {
    forall i :: 0 <= i < |events| ==> events[i].Attach? ==> KeyOf(events[i].id) != k
  }

  lemma ReactMovesOn(w: World, e: Event, k: Key)
    requires e.Attach? ==> KeyOf(e.id) != k
    requires k in React(w, e).0
    ensures k in w && (React(w, e).0[k] == w[k] || React(w, e).0[k].version > w[k].version)
  {
    if e.Alter? && KeyOf(e.id) == k && Change(w[k], e.ddl).Ok? { ChangeBumps(w[k], e.ddl); }
  }

  /** Over any run, an attachment that is still there kept its contents or moved its version on. */
  lemma {:induction false} RunMovesOn(w: World, events: seq<Event>, k: Key)
    requires NoAttach(events, k) && k in Run(w, events)
    ensures k in w && (Run(w, events)[k] == w[k] || Run(w, events)[k].version > w[k].version)
    decreases |events|
  {
    if events != [] {
      RunMovesOn(React(w, events[0]).0, events[1..], k);
      ReactMovesOn(w, events[0], k);
    }
  }

  /**
   Etag safety: whatever happened since an etag was issued for an attachment, a
   "not modified" answer to it means the contents are those it was issued for.
   */
  lemma NotModifiedMeansUnchanged(w: World, id: AttachId, asked: Option<string>, events: seq<Event>)
    requires KeyOf(id) in w && NoAttach(events, KeyOf(id))
    requires var issued := React(w, Contents(id, asked)).1.etag;
      React(Run(w, events), Contents(id, Some(issued))).1.NotModified?
    ensures KeyOf(id) in Run(w, events) && Run(w, events)[KeyOf(id)] == w[KeyOf(id)]
    ensures React(Run(w, events), Contents(id, None)).1 == React(w, Contents(id, None)).1
  {
    var k := KeyOf(id);
    var w' := Run(w, events);
    EtagInjective(w'[k].version, w[k].version);
    RunMovesOn(w, events, k);
  }

  lemma {:induction false} RunSplit(w: World, events: seq<Event>, i: nat)
    requires i <= |events|
    ensures Run(w, events) == Run(Run(w, events[..i]), events[i..])
    decreases i
  {
    if i > 0 {
      RunSplit(React(w, events[0]).0, events[1..], i - 1);
      assert events[..i][1..] == events[1..][..i-1] && events[1..][i-1..] == events[i..];
    } else {
      assert events[i..] == events;
    }
  }

  /**
   The etag is read before the snapshot is built, and other calls may run while it
   is. Whatever pieces were read when, a later "not modified" answer to that etag
   vouches for all of them: the catalog never moved in between.
   */
  lemma InterleavedBuildIsSafe(w: World, id: AttachId, events: seq<Event>, i: nat)
    requires KeyOf(id) in w && NoAttach(events, KeyOf(id)) && i <= |events|
    requires React(Run(w, events), Contents(id, Some(Etag(w[KeyOf(id)].version)))).1.NotModified?
    ensures KeyOf(id) in Run(w, events[..i]) && Run(w, events[..i])[KeyOf(id)] == w[KeyOf(id)]
  {
    var k := KeyOf(id);
    RunSplit(w, events, i);
    EtagInjective(Run(w, events)[k].version, w[k].version);
    RunMovesOn(Run(w, events[..i]), events[i..], k);
    RunMovesOn(w, events[..i], k);
  }

  /** An unchanged catalog is never rebuilt: its own etag is always answered "not modified". */
  lemma UnchangedIsNotRebuilt(w: World, id: AttachId, events: seq<Event>)
    requires KeyOf(id) in w && NoAttach(events, KeyOf(id)) && KeyOf(id) in Run(w, events)
    ensures React(Run(w, events), Contents(id, Some(Etag(w[KeyOf(id)].version)))).1.NotModified?
      <==> Run(w, events)[KeyOf(id)] == w[KeyOf(id)]
  {
    var k := KeyOf(id);
    RunMovesOn(w, events, k);
    if Etag(w[k].version) == Etag(Run(w, events)[k].version) { EtagInjective(w[k].version, Run(w, events)[k].version); }
  }

  /** What a client hears that fetches, lets events happen, and asks again. */
  lemma FetchThenAsk(w: World, id: AttachId, events: seq<Event>)
    requires KeyOf(id) in w && NoAttach(events, KeyOf(id))
    ensures React(w, Contents(id, None)) == (w, Snapshot(Etag(w[KeyOf(id)].version), w[KeyOf(id)].schemas))
    ensures var (w', second) := React(Run(w, events), Contents(id, Some(Etag(w[KeyOf(id)].version))));
      && w' == Run(w, events)
      && (second.NotModified? <==> KeyOf(id) in w' && w'[KeyOf(id)] == w[KeyOf(id)])
  {
    if KeyOf(id) in Run(w, events) { UnchangedIsNotRebuilt(w, id, events); }
  }

  function MakeTable(id: AttachId, name: string): Event {
    Alter(id, TableCreate(["main"], name, Table("c"), false, Fail))
  }

  lemma RunAppend(w: World, events: seq<Event>, e: Event)
    ensures Run(w, events + [e]) == React(Run(w, events), e).0
    decreases |events|
  {
    if events == [] {
      assert events + [e] == [e] && [e][1..] == [];
    } else {
      assert (events + [e])[1..] == events[1..] + [e];
      RunAppend(React(w, events[0]).0, events[1..], e);
    }
  }

  lemma MadeTable(w: World, id: AttachId, name: string)
    requires KeyOf(id) in w && w[KeyOf(id)] == MainOnly()
    ensures React(w, MakeTable(id, name)).0
      == w[KeyOf(id) := State(2, map["main" := Schema(["main"], None, map[name := Table("c")], map[])])]
  {
    assert Lower("main") == "main";
    assert "" !in ["main"] by { assert |"main"| == 4; }
    var schema := MainOnly().schemas["main"];
    assert schema.tables[name := Table("c")] == map[name := Table("c")];
    assert MainOnly().schemas["main" := schema.(tables := map[name := Table("c")])]
      == map["main" := Schema(["main"], None, map[name := Table("c")], map[])];
  }

  /** Without fresh attach ids the promise fails: a second attachment under the same id counts from one again. */
  lemma ReattachReusesEtags(id: AttachId) returns (w: World, w': World)
    ensures w == Run(map[], [Attach(id)] + [MakeTable(id, "t")])
    ensures w' == Run(w, [Detach(id)] + [Attach(id)] + [MakeTable(id, "u")])
    ensures KeyOf(id) in w && KeyOf(id) in w'
    ensures React(w', Contents(id, Some(Etag(w[KeyOf(id)].version)))).1.NotModified?
    ensures w'[KeyOf(id)].schemas != w[KeyOf(id)].schemas
  {
    var k := KeyOf(id);
    RunAppend(map[], [], Attach(id));
    RunAppend(map[], [Attach(id)], MakeTable(id, "t"));
    assert [] + [Attach(id)] == [Attach(id)];
    var w1 := React(map[], Attach(id)).0;
    MadeTable(w1, id, "t");
    w := React(w1, MakeTable(id, "t")).0;
    RunAppend(w, [], Detach(id));
    assert [] + [Detach(id)] == [Detach(id)];
    RunAppend(w, [Detach(id)], Attach(id));
    RunAppend(w, [Detach(id)] + [Attach(id)], MakeTable(id, "u"));
    var w2 := React(React(w, Detach(id)).0, Attach(id)).0;
    MadeTable(w2, id, "u");
    w' := React(w2, MakeTable(id, "u")).0;
    assert "t" != "u" by { assert "t"[0] != "u"[0]; }
    assert "t" in w[k].schemas["main"].tables && "t" !in w'[k].schemas["main"].tables;
  }
}
