/**
 The in-memory catalogs as they live on the heap: maps of schemas, tables and view
 objects that DDL changes in place, refining the state machine of `Catalog`.
 */
module CatalogObjects {
  import opened Seqs
  import opened Bytes
  import opened Catalog
  import CatalogGuarantees

  /** A view's comments are overwritten in place. `home` and `name` say whose it is. */
  class ViewObject {
    ghost const home: SchemaObject
    ghost const name: string
    const definition: string
    var comment: Option<string>
    var columnComments: map<string, string>

    ghost function Value(): View reads this { View(definition, comment, columnComments) }

    constructor (ghost home: SchemaObject, ghost name: string, v: View)
      ensures this.home == home && this.name == name && Value() == v
    {
      this.home, this.name := home, name;
      definition, comment, columnComments := v.definition, v.comment, v.columnComments;
    }
  }

  class SchemaObject {
    ghost const home: AttachObject
    ghost const key: string
    const path: seq<string>
    const comment: Option<string>
    var tables: map<string, Table>
    var views: map<string, ViewObject>

    /** Every view object belongs here, under its own name; so no two names share one. */
    ghost predicate Valid() reads this {
      forall n :: n in views ==> views[n].home == this && views[n].name == n
    }

    ghost function Value(): Schema
      reads this, views.Values
    {
      Schema(path, comment, tables, map n | n in views :: views[n].Value())
    }

    constructor (ghost home: AttachObject, ghost key: string, path: seq<string>, comment: Option<string>)
      ensures Valid() && this.home == home && this.key == key
      ensures Value() == Schema(path, comment, map[], map[]) && views == map[]
    {
      this.home, this.key := home, key;
      this.path, this.comment := path, comment;
      tables, views := map[], map[];
    }

    method SetTable(name: string, table: Table)
      requires Valid()
      modifies this
      ensures Valid() && Value() == old(Value()).(tables := old(tables)[name := table]) && views == old(views)
    {
      tables := tables[name := table];
    }

    method DeleteTable(name: string)
      requires Valid()
      modifies this
      ensures Valid() && Value() == old(Value()).(tables := old(tables) - {name}) && views == old(views)
    {
      tables := tables - {name};
    }

    method SetView(name: string, view: View)
      requires Valid()
      modifies this
      ensures Valid() && Value() == old(Value()).(views := old(Value()).views[name := view])
      ensures fresh(views.Values - old(views).Values)
    {
      var v := new ViewObject(this, name, view);
      views := views[name := v];
    }

    method DeleteView(name: string)
      requires Valid()
      modifies this
      ensures Valid() && Value() == old(Value()).(views := old(Value()).views - {name})
      ensures views.Values <= old(views).Values
    {
      views := views - {name};
    }
  }

  /** What a DDL call must do to a state: the change, or nothing and an error. */
  ghost predicate Did(before: State, after: State, d: Ddl, r: Result<()>) {
    match Change(before, d)
    case Err(_) => r.Err? && after == before
    case Ok(s) => r.Ok? && after == s
  }

  /** What that means for the caller: which calls are accepted, and what they leave. */
  ghost predicate KeptPromise(before: State, after: State, d: Ddl, r: Result<()>) {
    && (r.Ok? <==> CatalogGuarantees.Accepts(before, d))
    && (if r.Ok? then CatalogGuarantees.Achieves(before, d, after) else after == before)
  }

  lemma DidKeepsPromise(before: State, after: State, d: Ddl, r: Result<()>)
    requires Did(before, after, d, r)
    ensures KeptPromise(before, after, d, r)
  {
    hide Change, CatalogGuarantees.Accepts, CatalogGuarantees.Achieves;
    CatalogGuarantees.ChangeAccepts(before, d);
    if r.Ok? { CatalogGuarantees.ChangeAchieves(before, d); }
  }

  /** One attachment's private state. */
  class AttachObject {
    ghost const id: Key
    var version: nat
    var schemas: map<string, SchemaObject>

    ghost predicate Valid() reads this`schemas, schemas.Values {
      forall k :: k in schemas ==> schemas[k].home == this && schemas[k].key == k && schemas[k].Valid()
    }

    ghost function Views(): set<ViewObject>
      reads this`schemas, schemas.Values
    {
      set k, n | k in schemas && n in schemas[k].views :: schemas[k].views[n]
    }

    ghost function Value(): State
      reads this, schemas.Values, Views()
    {
      State(version, map k | k in schemas :: schemas[k].Value())
    }

    ghost function Footprint(): set<object>
      reads this`schemas, schemas.Values
    {
      {this} + schemas.Values + Views()
    }

    constructor (ghost id: Key)
      ensures Valid() && this.id == id && Value() == MainOnly()
      ensures fresh(Footprint())
    {
      this.id := id;
      version := 1;
      schemas := map[];
      new;
      var main := new SchemaObject(this, "main", ["main"], None);
      schemas := map["main" := main];
    }

    /** The schemas other than one are what they were, so only that one's value changed. */
    twostate lemma OnlyOne(k: string)
      requires old(Valid()) && Valid() && old(schemas) == schemas && k in schemas
      requires forall j :: j in schemas && j != k ==> schemas[j].Value() == old(schemas[j].Value())
      ensures Value().schemas == old(Value()).schemas[k := schemas[k].Value()]
    {
    }

    /** A view object is in one schema only, so changing it in place changes no other schema. */
    lemma ViewsApart(k: string, name: string)
      requires Valid() && k in schemas && name in schemas[k].views
      ensures forall j :: j in schemas && j != k ==> schemas[k].views[name] !in schemas[j].views.Values
    {
    }

    twostate lemma NoNewObjects()
      requires old(schemas) == schemas
      requires forall j :: j in schemas ==> schemas[j].views.Values <= old(schemas[j].views.Values)
      ensures Footprint() <= old(Footprint())
    {
      forall v | v in Views() ensures v in old(Views()) {
        var j, n :| j in schemas && n in schemas[j].views && v == schemas[j].views[n];
        assert v in old(schemas[j].views.Values);
      }
    }

    method Bump()
      requires Valid()
      modifies this`version
      ensures Valid() && Footprint() == old(Footprint()) && Value() == old(Value()).(version := old(version) + 1)
    {
      version := version + 1;
    }

    method PutSchema(k: string, path: seq<string>, comment: Option<string>)
      requires Valid()
      modifies this
      ensures fresh(Footprint() - old(Footprint()))
      ensures Valid() && Value() == Bumped(old(Value()), k, Schema(path, comment, map[], map[]))
    {
      var schema := NewSchema(k, path, comment);
      ghost var before := Value();
      Enter(k, schema);
      Entered(before.schemas, k);
      Bump();
    }

    method Enter(k: string, schema: SchemaObject)
      requires Valid() && schema.Valid() && schema.home == this && schema.key == k && schema.views == map[]
      modifies this`schemas
      ensures Valid() && schemas == old(schemas)[k := schema] && Footprint() <= old(Footprint()) + {schema}
      ensures schema.Value() == old(schema.Value())
      ensures forall j :: j in schemas && j != k ==> schemas[j].Value() == old(schemas[j].Value())
    {
      schemas := schemas[k := schema];
    }

    method NewSchema(k: string, path: seq<string>, comment: Option<string>) returns (schema: SchemaObject)
      requires Valid()
      ensures fresh(schema) && schema.Valid() && schema.home == this && schema.key == k
      ensures schema.Value() == Schema(path, comment, map[], map[]) && schema.views == map[]
      ensures Valid() && Value() == old(Value())
    {
      schema := new SchemaObject(this, k, path, comment);
      assert forall j :: j in schemas ==> schemas[j].Value() == old(schemas[j].Value());
    }

    lemma Entered(before: map<string, Schema>, k: string)
      requires Valid() && k in schemas && before.Keys + {k} == schemas.Keys
      requires forall j :: j in schemas && j != k ==> schemas[j].Value() == before[j]
      ensures Value().schemas == before[k := schemas[k].Value()]
    {
    }

    method RemoveSchema(k: string)
      requires Valid()
      modifies this
      ensures fresh(Footprint() - old(Footprint()))
      ensures Valid() && Value() == State(old(Value()).version + 1, old(Value()).schemas - {k})
    {
      Forget(k);
      Bump();
    }

    method Forget(k: string)
      requires Valid()
      modifies this`schemas
      ensures Valid() && Value() == old(Value()).(schemas := old(Value()).schemas - {k})
      ensures Footprint() <= old(Footprint())
    {
      schemas := schemas - {k};
    }

    method PutTable(k: string, name: string, table: Table)
      requires Valid() && k in schemas
      modifies this`version, schemas[k]
      ensures fresh(Footprint() - old(Footprint()))
      ensures Valid()
      ensures var schema := old(Value()).schemas[k];
        Value() == Bumped(old(Value()), k, schema.(tables := schema.tables[name := table]))
    {
      schemas[k].SetTable(name, table);
      OnlyOne(k);
      Bump();
    }

    method RemoveTable(k: string, name: string)
      requires Valid() && k in schemas
      modifies this`version, schemas[k]
      ensures fresh(Footprint() - old(Footprint()))
      ensures Valid()
      ensures var schema := old(Value()).schemas[k];
        Value() == Bumped(old(Value()), k, schema.(tables := schema.tables - {name}))
    {
      schemas[k].DeleteTable(name);
      OnlyOne(k);
      Bump();
    }

    method PutView(k: string, name: string, view: View)
      requires Valid() && k in schemas
      modifies this`version, schemas[k]
      ensures fresh(Footprint() - old(Footprint()))
      ensures Valid()
      ensures var schema := old(Value()).schemas[k];
        Value() == Bumped(old(Value()), k, schema.(views := schema.views[name := view]))
    {
      schemas[k].SetView(name, view);
      OnlyOne(k);
      Bump();
    }

    method RemoveView(k: string, name: string)
      requires Valid() && k in schemas
      modifies this`version, schemas[k]
      ensures fresh(Footprint() - old(Footprint()))
      ensures Valid()
      ensures var schema := old(Value()).schemas[k];
        Value() == Bumped(old(Value()), k, schema.(views := schema.views - {name}))
    {
      schemas[k].DeleteView(name);
      NoNewObjects();
      OnlyOne(k);
      hide SchemaObject.Value, AttachObject.Value;
      Bump();
    }

    method EditComment(k: string, name: string, c: Option<string>)
      requires Valid() && k in schemas && name in schemas[k].views
      modifies schemas[k].views[name]
      ensures Valid() && Footprint() == old(Footprint())
      ensures schemas[k].Value() == old(schemas[k].Value()).(views :=
        old(schemas[k].Value()).views[name := old(schemas[k].Value()).views[name].(comment := c)])
      ensures forall j :: j in schemas && j != k ==> schemas[j].Value() == old(schemas[j].Value())
    {
      ViewsApart(k, name);
      schemas[k].views[name].comment := c;
    }

    method PutViewComment(k: string, name: string, c: Option<string>)
      requires Valid() && k in schemas && name in schemas[k].views
      modifies this`version, schemas[k].views[name]
      ensures fresh(Footprint() - old(Footprint()))
      ensures Valid()
      ensures var schema := old(Value()).schemas[k];
        Value() == Bumped(old(Value()), k, schema.(views := schema.views[name := schema.views[name].(comment := c)]))
    {
      EditComment(k, name, c);
      OnlyOne(k);
      hide SchemaObject.Value, AttachObject.Value;
      Bump();
    }

    method EditColumnComments(k: string, name: string, comments: map<string, string>)
      requires Valid() && k in schemas && name in schemas[k].views
      modifies schemas[k].views[name]
      ensures Valid() && Footprint() == old(Footprint())
      ensures schemas[k].Value() == old(schemas[k].Value()).(views :=
        old(schemas[k].Value()).views[name := old(schemas[k].Value()).views[name].(columnComments := comments)])
      ensures forall j :: j in schemas && j != k ==> schemas[j].Value() == old(schemas[j].Value())
    {
      ViewsApart(k, name);
      schemas[k].views[name].columnComments := comments;
    }

    /** Copy the comments, change the copy, and put it in their place. */
    method PutViewColumnComment(k: string, name: string, column: string, c: Option<string>)
      requires Valid() && k in schemas && name in schemas[k].views
      modifies this`version, schemas[k].views[name]
      ensures fresh(Footprint() - old(Footprint()))
      ensures Valid()
      ensures var schema := old(Value()).schemas[k];
        var view := WithColumnComment(schema.views[name], column, c);
        Value() == Bumped(old(Value()), k, schema.(views := schema.views[name := view]))
    {
      var comments := schemas[k].views[name].columnComments;
      if c.None? {
        comments := comments - {column};
      } else {
        comments := comments[column := c.value];
      }
      EditColumnComments(k, name, comments);
      OnlyOne(k);
      hide SchemaObject.Value, AttachObject.Value;
      Bump();
    }

    /** Looking an object up here finds what the value has, and nothing else. */
    lemma Lookup(k: string)
      requires Valid()
      ensures k in schemas <==> k in Value().schemas
      ensures k in schemas ==>
        var schema := Value().schemas[k];
        && schema == schemas[k].Value() && schema.tables == schemas[k].tables
        && schema.views.Keys == schemas[k].views.Keys
        && (schema.views == map[] <==> schemas[k].views == map[])
    {
      if k in schemas && schemas[k].Value().views == map[] {
        assert schemas[k].views.Keys == schemas[k].Value().views.Keys == {};
      }
    }

    // ---- DDL, in the source's order of checks ----------------------------

    method CreateSchema(path: seq<string>, comment: Option<string>, onConflict: Conflict) returns (r: Result<()>)
      requires Valid()
      modifies this, schemas.Values, Views()
      ensures fresh(Footprint() - old(Footprint()))
      ensures Valid() && Did(old(Value()), Value(), SchemaCreate(path, comment, onConflict), r)
    {
      hide AttachObject.Value, SchemaObject.Value, AttachObject.Footprint, AttachObject.Views;
      var key := PathKey(path);
      if key.Err? { return Err(key.error); }
      Lookup(key.value);
      if key.value in schemas {
        if onConflict == Ignore { return Ok(()); }
        if onConflict != Replace { return Err("already exists"); }
      }
      if |path| > 1 {
        Lookup(Joined(path[..|path|-1]));
        if Joined(path[..|path|-1]) !in schemas { return Err("parent not found"); }
      }
      PutSchema(key.value, path, comment);
      r := Ok(());
    }

    method DropSchema(path: seq<string>, ignoreNotFound: bool, cascade: bool) returns (r: Result<()>)
      requires Valid()
      modifies this, schemas.Values, Views()
      ensures fresh(Footprint() - old(Footprint()))
      ensures Valid() && Did(old(Value()), Value(), SchemaDrop(path, ignoreNotFound, cascade), r)
    {
      hide AttachObject.Value, SchemaObject.Value;
      var key := PathKey(path);
      if key.Err? { return Err(key.error); }
      Lookup(key.value);
      if key.value !in schemas { return if ignoreNotFound then Ok(()) else Err("not found"); }
      var schema := schemas[key.value];
      if !cascade && (schema.tables != map[] || schema.views != map[]) { return Err("schema is not empty"); }
      RemoveSchema(key.value);
      r := Ok(());
    }

    method CreateTable(path: seq<string>, name: string, table: Table, constrained: bool, onConflict: Conflict)
      returns (r: Result<()>)
      requires Valid()
      modifies this, schemas.Values, Views()
      ensures fresh(Footprint() - old(Footprint()))
      ensures Valid() && Did(old(Value()), Value(), TableCreate(path, name, table, constrained, onConflict), r)
    {
      hide AttachObject.Value, SchemaObject.Value;
      if constrained { return Err("constraints are unsupported"); }
      var key := PathKey(path);
      if key.Err? { return Err(key.error); }
      Lookup(key.value);
      if key.value !in schemas { return Err("schema not found"); }
      if name in schemas[key.value].tables {
        if onConflict == Ignore { return Ok(()); }
        if onConflict == Fail { return Err("already exists"); }
      }
      PutTable(key.value, name, table);
      r := Ok(());
    }

    method DropTable(path: seq<string>, name: string, ignoreNotFound: bool) returns (r: Result<()>)
      requires Valid()
      modifies this, schemas.Values, Views()
      ensures fresh(Footprint() - old(Footprint()))
      ensures Valid() && Did(old(Value()), Value(), TableDrop(path, name, ignoreNotFound), r)
    {
      hide AttachObject.Value, SchemaObject.Value;
      var key := PathKey(path);
      if key.Err? { return Err(key.error); }
      Lookup(key.value);
      if key.value !in schemas || name !in schemas[key.value].tables {
        return if ignoreNotFound then Ok(()) else Err("not found");
      }
      RemoveTable(key.value, name);
      r := Ok(());
    }

    method CreateView(path: seq<string>, name: string, view: View, onConflict: Conflict) returns (r: Result<()>)
      requires Valid()
      modifies this, schemas.Values, Views()
      ensures fresh(Footprint() - old(Footprint()))
      ensures Valid() && Did(old(Value()), Value(), ViewCreate(path, name, view, onConflict), r)
    {
      hide AttachObject.Value, SchemaObject.Value;
      var key := PathKey(path);
      if key.Err? { return Err(key.error); }
      Lookup(key.value);
      if key.value !in schemas { return Err("schema not found"); }
      if name in schemas[key.value].views {
        if onConflict == Ignore { return Ok(()); }
        if onConflict == Fail { return Err("already exists"); }
      }
      PutView(key.value, name, view);
      r := Ok(());
    }

    method DropView(path: seq<string>, name: string, ignoreNotFound: bool) returns (r: Result<()>)
      requires Valid()
      modifies this, schemas.Values, Views()
      ensures fresh(Footprint() - old(Footprint()))
      ensures Valid() && Did(old(Value()), Value(), ViewDrop(path, name, ignoreNotFound), r)
    {
      hide AttachObject.Value, SchemaObject.Value;
      var key := PathKey(path);
      if key.Err? { return Err(key.error); }
      Lookup(key.value);
      if key.value !in schemas || name !in schemas[key.value].views {
        return if ignoreNotFound then Ok(()) else Err("not found");
      }
      RemoveView(key.value, name);
      r := Ok(());
    }

    method SetViewComment(path: seq<string>, name: string, comment: Option<string>, ignoreNotFound: bool)
      returns (r: Result<()>)
      requires Valid()
      modifies this, schemas.Values, Views()
      ensures fresh(Footprint() - old(Footprint()))
      ensures Valid() && Did(old(Value()), Value(), ViewCommentSet(path, name, comment, ignoreNotFound), r)
    {
      hide AttachObject.Value, SchemaObject.Value;
      var key := PathKey(path);
      if key.Err? { return Err(key.error); }
      Lookup(key.value);
      if key.value !in schemas || name !in schemas[key.value].views {
        return if ignoreNotFound then Ok(()) else Err("not found");
      }
      PutViewComment(key.value, name, comment);
      r := Ok(());
    }

    method SetViewColumnComment(
        path: seq<string>, name: string, columnPath: seq<string>, comment: Option<string>, ignoreNotFound: bool)
      returns (r: Result<()>)
      requires Valid()
      modifies this, schemas.Values, Views()
      ensures fresh(Footprint() - old(Footprint()))
      ensures Valid()
      ensures Did(old(Value()), Value(), ViewColumnCommentSet(path, name, columnPath, comment, ignoreNotFound), r)
    {
      hide AttachObject.Value, SchemaObject.Value;
      if |columnPath| != 1 || columnPath[0] == "" || '\0' in columnPath[0] { return Err("one raw output identifier"); }
      var key := PathKey(path);
      if key.Err? { return Err(key.error); }
      Lookup(key.value);
      if key.value !in schemas || name !in schemas[key.value].views {
        return if ignoreNotFound then Ok(()) else Err("not found");
      }
      PutViewColumnComment(key.value, name, columnPath[0], comment);
      r := Ok(());
    }

    method Alter(d: Ddl) returns (r: Result<()>)
      requires Valid()
      modifies this, schemas.Values, Views()
      ensures fresh(Footprint() - old(Footprint()))
      ensures Valid() && Did(old(Value()), Value(), d, r) && KeptPromise(old(Value()), Value(), d, r)
    {
      hide Did, KeptPromise, AttachObject.Value;
      match d {
        case SchemaCreate(path, comment, onConflict) => r := CreateSchema(path, comment, onConflict);
        case SchemaDrop(path, ignoreNotFound, cascade) => r := DropSchema(path, ignoreNotFound, cascade);
        case TableCreate(path, name, table, constrained, onConflict) =>
          r := CreateTable(path, name, table, constrained, onConflict);
        case TableDrop(path, name, ignoreNotFound) => r := DropTable(path, name, ignoreNotFound);
        case ViewCreate(path, name, view, onConflict) => r := CreateView(path, name, view, onConflict);
        case ViewDrop(path, name, ignoreNotFound) => r := DropView(path, name, ignoreNotFound);
        case ViewCommentSet(path, name, comment, ignoreNotFound) =>
          r := SetViewComment(path, name, comment, ignoreNotFound);
        case ViewColumnCommentSet(path, name, columnPath, comment, ignoreNotFound) =>
          r := SetViewColumnComment(path, name, columnPath, comment, ignoreNotFound);
      }
      DidKeepsPromise(old(Value()), Value(), d, r);
    }

    /** List every schema, copying its maps and what its view objects hold now. */
    method ListSchemas() returns (listed: map<string, Schema>)
      requires Valid()
      ensures listed == Value().schemas
    {
      listed := map k | k in schemas :: Schema(schemas[k].path, schemas[k].comment, schemas[k].tables,
        map n | n in schemas[k].views :: View(
          schemas[k].views[n].definition, schemas[k].views[n].comment, schemas[k].views[n].columnComments));
      forall k | k in schemas ensures listed[k] == schemas[k].Value() {
        assert listed[k].views == schemas[k].Value().views;
      }
    }
  }

  /** The process-wide catalog: a private state object per attachment, and a count of the snapshots built. */
  class RevalidatingCatalog {
    var states: map<Key, AttachObject>
    var builds: nat

    ghost function Schemas(): set<SchemaObject>
      reads this`states, states.Values
    {
      set k, j | k in states && j in states[k].schemas :: states[k].schemas[j]
    }

    ghost function Views(): set<ViewObject>
      reads this`states, states.Values, Schemas()
    {
      set k, v | k in states && v in states[k].Views() :: v
    }

    ghost function Footprint(): set<object>
      reads this`states, states.Values, Schemas()
    {
      {this} + set k, o: object | k in states && o in states[k].Footprint() :: o
    }

    ghost predicate Valid()
      reads this`states, states.Values, Schemas()
    {
      forall k :: k in states ==> states[k].id == k && states[k].Valid()
    }

    ghost function World(): World
      reads this`states, states.Values, Schemas(), Views()
    {
      map k | k in states :: states[k].Value()
    }

    constructor ()
      ensures Valid() && World() == map[] && builds == 0
    {
      states, builds := map[], 0;
    }

    method AttachCatalog(id: AttachId)
      requires Valid()
      modifies this`states
      ensures Valid() && World() == React(old(World()), Attach(id)).0 && builds == old(builds)
      ensures fresh(Footprint() - old(Footprint()))
    {
      hide AttachObject.Value, AttachObject.Valid, MainOnly;
      ghost var before := World();
      var state := NewState(KeyOf(id));
      PutState(KeyOf(id), state);
      Entered(before, KeyOf(id));
    }

    method PutState(k: Key, state: AttachObject)
      requires Valid() && state.Valid() && state.id == k
      modifies this`states
      ensures Valid() && states == old(states)[k := state]
      ensures state.Value() == old(state.Value()) && state.Footprint() == old(state.Footprint())
      ensures forall a :: a in old(states).Values ==> a.Value() == old(a.Value()) && a.Footprint() == old(a.Footprint())
    {
      hide SchemaObject.Value;
      states := states[k := state];
      assert forall a :: a in old(states).Values ==> a.Views() == old(a.Views());
    }

    method NewState(k: Key) returns (state: AttachObject)
      requires Valid()
      ensures fresh(state) && state.Valid() && state.id == k && state.Value() == MainOnly()
      ensures fresh(state.Footprint())
      ensures forall j :: j in states ==> states[j].Footprint() == old(states[j].Footprint())
      ensures forall j :: j in states ==> states[j].Valid() && states[j].Value() == old(states[j].Value())
    {
      state := new AttachObject(k);
      assert forall j :: j in states ==> states[j].Views() == old(states[j].Views());
    }

    lemma Entered(before: map<Key, State>, k: Key)
      requires Valid() && k in states && before.Keys + {k} == states.Keys
      requires forall j :: j in states && j != k ==> states[j].Value() == before[j]
      ensures World() == before[k := states[k].Value()]
    {
    }

    method DetachCatalog(id: AttachId)
      requires Valid()
      modifies this`states
      ensures Valid() && World() == React(old(World()), Detach(id)).0 && builds == old(builds)
      ensures fresh(Footprint() - old(Footprint()))
    {
      hide Change, MainOnly, SchemaObject.Value, SchemaObject.Valid;
      states := states - {KeyOf(id)};
      assert World().Keys == old(World()).Keys - {KeyOf(id)};
      assert forall k :: k in states ==> World()[k] == old(World())[k];
    }

    /** Two attachments share no object, so what one call changes in place is its own attachment's. */
    lemma Apart(a: AttachObject, b: AttachObject)
      requires a.Valid() && b.Valid() && a.id != b.id
      ensures a.Footprint() !! b.Footprint()
    {
    }

    method Alter(id: AttachId, d: Ddl) returns (r: Result<()>)
      requires Valid()
      modifies Footprint()
      ensures fresh(Footprint() - old(Footprint()))
      ensures Valid() && states == old(states) && builds == old(builds)
      ensures var (w, answer) := React(old(World()), Event.Alter(id, d));
        World() == w && (r.Ok? <==> answer.Done?)
      ensures r.Ok? ==> KeyOf(id) in states
      ensures KeyOf(id) in states ==> KeptPromise(old(states[KeyOf(id)].Value()), states[KeyOf(id)].Value(), d, r)
    {
      hide KeptPromise;
      if KeyOf(id) !in states { return Err("not attached"); }
      PartOf(KeyOf(id));
      r := AlterOne(KeyOf(id), d);
      FootprintGrows(KeyOf(id));
      Settled(old(World()), KeyOf(id), d, r);
    }

    lemma PartOf(k: Key)
      requires k in states
      ensures states[k].Footprint() <= Footprint()
    {
      forall o | o in states[k].Footprint() ensures o in Footprint() {}
    }

    twostate lemma FootprintGrows(k: Key)
      requires k in states && states == old(states)
      requires fresh(states[k].Footprint() - old(states[k].Footprint()))
      requires forall j :: j in states && j != k ==> states[j].Footprint() == old(states[j].Footprint())
      ensures fresh(Footprint() - old(Footprint()))
    {
      forall o | o in Footprint() && o !in old(Footprint()) ensures fresh(o) {
        var j :| j in states && o in states[j].Footprint();
        assert o !in old(states[j].Footprint());
      }
    }

    method AlterOne(k: Key, d: Ddl) returns (r: Result<()>)
      requires Valid() && k in states
      modifies states[k].Footprint()
      ensures fresh(states[k].Footprint() - old(states[k].Footprint()))
      ensures forall j :: j in states && j != k ==> states[j].Footprint() == old(states[j].Footprint())
      ensures Valid() && Did(old(states[k].Value()), states[k].Value(), d, r)
      ensures KeptPromise(old(states[k].Value()), states[k].Value(), d, r)
      ensures forall j :: j in states && j != k ==> states[j].Value() == old(states[j].Value())
    {
      hide Did, KeptPromise, Change, AttachObject.Value, SchemaObject.Value, SchemaObject.Valid;
      AllApart(k);
      r := states[k].Alter(d);
      assert forall j :: j in states && j != k ==> states[j].Views() == old(states[j].Views());
    }

    lemma AllApart(k: Key)
      requires Valid() && k in states
      ensures forall j :: j in states && j != k ==> states[j].Footprint() !! states[k].Footprint()
    {
      forall j | j in states && j != k ensures states[j].Footprint() !! states[k].Footprint() {
        Apart(states[j], states[k]);
      }
    }

    /** One state did what was asked and the others stayed: that is the reaction. */
    lemma Settled(before: map<Key, State>, k: Key, d: Ddl, r: Result<()>)
      requires Valid() && k in states && before.Keys == states.Keys
      requires Did(before[k], states[k].Value(), d, r)
      requires forall j :: j in states && j != k ==> states[j].Value() == before[j]
      ensures forall id :: KeyOf(id) == k ==>
        var (w, answer) := React(before, Event.Alter(id, d));
        World() == w && (r.Ok? <==> answer.Done?)
    {
      hide AttachObject.Value, Change;
      Entered(before, k);
      assert before[k := before[k]] == before;
    }

    lemma VersionAt(k: Key)
      requires Valid() && k in states
      ensures k in World() && World()[k].version == states[k].version
    {
    }

    /** What is the same for every attachment is the same for all of them together. */
    twostate lemma AllSame()
      requires states == old(states)
      requires forall j :: j in states ==>
        states[j].Value() == old(states[j].Value()) && states[j].Footprint() == old(states[j].Footprint())
      ensures World() == old(World()) && Footprint() == old(Footprint())
    {
    }

    method CountBuild()
      requires Valid()
      modifies this`builds
      ensures Valid() && builds == old(builds) + 1
      ensures forall j :: j in states ==>
        states[j].Value() == old(states[j].Value()) && states[j].Footprint() == old(states[j].Footprint())
    {
      builds := builds + 1;
      assert Schemas() == old(Schemas()) && Views() == old(Views());
      assert forall j :: j in states ==> states[j].Views() == old(states[j].Views());
    }

    method ListOne(k: Key) returns (listed: map<string, Schema>)
      requires Valid() && k in states
      ensures listed == states[k].Value().schemas
      ensures forall j :: j in states ==>
        states[j].Value() == old(states[j].Value()) && states[j].Footprint() == old(states[j].Footprint())
    {
      listed := states[k].ListSchemas();
      assert Schemas() == old(Schemas()) && Views() == old(Views());
      assert forall j :: j in states ==> states[j].Views() == old(states[j].Views());
    }

    /** A matching etag builds nothing; otherwise the snapshot is built and counted. */
    method CatalogContents(id: AttachId, ifNoneMatch: Option<string>) returns (answer: Answer)
      requires Valid()
      modifies this`builds
      ensures fresh(Footprint() - old(Footprint()))
      ensures Valid() && (World(), answer) == React(old(World()), Contents(id, ifNoneMatch))
      ensures builds == old(builds) + if answer.Snapshot? then 1 else 0
    {
      hide AttachObject.Value, AttachObject.Footprint, AttachObject.Valid, Etag;
      var k := KeyOf(id);
      if k !in states { return Failed("not attached"); }
      VersionAt(k);
      var etag := Etag(states[k].version);
      if ifNoneMatch == Some(etag) { return NotModified(etag); }
      CountBuild();
      var listed := ListOne(k);
      AllSame();
      answer := Snapshot(etag, listed);
    }

    // ---- runs ------------------------------------------------------------

    method Handle(e: Event)
      requires Valid()
      modifies Footprint()
      ensures Valid() && World() == React(old(World()), e).0
      ensures fresh(Footprint() - old(Footprint()))
    {
      hide World, React;
      match e
      case Attach(id) => AttachCatalog(id);
      case Detach(id) => DetachCatalog(id);
      case Alter(id, d) => var _ := Alter(id, d);
      case Contents(id, ifNoneMatch) => var _ := CatalogContents(id, ifNoneMatch);
    }

    method Play(events: seq<Event>)
      requires Valid()
      modifies Footprint()
      ensures Valid() && World() == Run(old(World()), events)
      ensures fresh(Footprint() - old(Footprint()))
    {
      hide World, React, Valid;
      for i := 0 to |events|
        invariant Valid() && Run(World(), events[i..]) == Run(old(World()), events)
        invariant fresh(Footprint() - old(Footprint()))
      {
        assert events[i..][1..] == events[i+1..];
        ghost var before := Footprint();
        label Before:
        Handle(events[i]);
        assert fresh@Before(Footprint() - before);
        forall o | o in Footprint() - old(Footprint()) ensures fresh(o) {
          if o in before {
            assert o in before - old(Footprint());
            assert fresh(o);
          } else {
            assert o in Footprint() - before;
            assert fresh@Before(o);
            assert fresh(o);
          }
        }
      }
    }

    /**
     A client that fetches, lets anything happen, and asks again: it is told "not
     modified" exactly when the objects hold what its snapshot held, however many of
     them were changed in place meanwhile.
     */
    method FetchAndRevalidate(id: AttachId, events: seq<Event>) returns (first: Answer, second: Answer)
      requires Valid() && KeyOf(id) in states && NoAttach(events, KeyOf(id))
      modifies Footprint()
      ensures Valid() && World() == Run(old(World()), events)
      ensures first.Snapshot? && first.schemas == old(World())[KeyOf(id)].schemas
      ensures second.NotModified? <==> KeyOf(id) in states && World()[KeyOf(id)] == old(World())[KeyOf(id)]
      ensures second.NotModified? ==> World()[KeyOf(id)].schemas == first.schemas
    {
      hide React, Run, Etag, Valid;
      ghost var w := World();
      assert KeyOf(id) in w;
      FetchThenAsk(w, id, events);
      first := CatalogContents(id, None);
      Play(events);
      second := CatalogContents(id, Some(first.etag));
    }
  }
}
