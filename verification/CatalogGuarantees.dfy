/**
 What a caller of the DDL may rely on, said of the contents alone: what each call
 accepts, what it leaves there, and that nothing disappears unless a call aims at it.
 */
module CatalogGuarantees {
  import opened Seqs
  import opened Catalog
  import opened CatalogServing

  predicate TableAt(s: State, k: string, name: string) { k in s.schemas && name in s.schemas[k].tables }

  predicate ViewAt(s: State, k: string, name: string) { k in s.schemas && name in s.schemas[k].views }

  // ---- nothing is lost or gained by accident -----------------------------

  /** The call replaces or drops the whole schema with what is in it. */
  predicate AimsAtSchema(d: Ddl, k: string) {
    PathKey(d.path) == Ok(k) && ((d.SchemaCreate? && d.onConflict == Replace) || (d.SchemaDrop? && d.cascade))
  }

  predicate AimsAtTable(d: Ddl, k: string, name: string) {
    || AimsAtSchema(d, k)
    || (PathKey(d.path) == Ok(k) && d.TableDrop? && d.name == name)
    || (PathKey(d.path) == Ok(k) && d.TableCreate? && d.name == name && d.onConflict == Replace)
  }

  predicate AimsAtView(d: Ddl, k: string, name: string) {
    || AimsAtSchema(d, k)
    || (PathKey(d.path) == Ok(k) && d.ViewDrop? && d.name == name)
    || (PathKey(d.path) == Ok(k) && d.ViewCreate? && d.name == name && d.onConflict == Replace)
  }

  /** The call sets a comment of the view, or of one of its columns. */
  predicate Comments(d: Ddl, k: string, name: string) {
    PathKey(d.path) == Ok(k) && (d.ViewCommentSet? || d.ViewColumnCommentSet?) && d.name == name
  }

  /** What the call does not aim at is still there, and as it was. */
  ghost predicate Keeps(s: State, d: Ddl, s': State) {
    && (forall k, name :: TableAt(s, k, name) && !AimsAtTable(d, k, name) ==>
      TableAt(s', k, name) && s'.schemas[k].tables[name] == s.schemas[k].tables[name])
    && (forall k, name :: ViewAt(s, k, name) && !AimsAtView(d, k, name) ==>
      && ViewAt(s', k, name)
      && s'.schemas[k].views[name].definition == s.schemas[k].views[name].definition
      && (!Comments(d, k, name) ==> s'.schemas[k].views[name] == s.schemas[k].views[name]))
    && (forall k :: k in s.schemas && !(PathKey(d.path) == Ok(k) && (d.SchemaDrop? || AimsAtSchema(d, k))) ==>
      k in s'.schemas && s'.schemas[k].path == s.schemas[k].path && s'.schemas[k].comment == s.schemas[k].comment)
  }

  /** What is there afterwards and was not before is what the call creates. */
  ghost predicate AddsOnlyItsOwn(s: State, d: Ddl, s': State) {
    && (forall k, name :: TableAt(s', k, name) && !TableAt(s, k, name) ==>
      d.TableCreate? && PathKey(d.path) == Ok(k) && d.name == name)
    && (forall k, name :: ViewAt(s', k, name) && !ViewAt(s, k, name) ==>
      d.ViewCreate? && PathKey(d.path) == Ok(k) && d.name == name)
    && (forall k :: k in s'.schemas && k !in s.schemas ==> d.SchemaCreate? && PathKey(d.path) == Ok(k))
  }

  lemma KeepsOne(s: State, d: Ddl, k: string, name: string)
    requires Change(s, d).Ok?
    ensures var s' := Change(s, d).value;
      && (TableAt(s, k, name) && !AimsAtTable(d, k, name) ==>
           TableAt(s', k, name) && s'.schemas[k].tables[name] == s.schemas[k].tables[name])
      && (ViewAt(s, k, name) && !AimsAtView(d, k, name) ==>
           && ViewAt(s', k, name)
           && s'.schemas[k].views[name].definition == s.schemas[k].views[name].definition
           && (!Comments(d, k, name) ==> s'.schemas[k].views[name] == s.schemas[k].views[name]))
  {
    hide Joined;
  }

  lemma ChangeKeeps(s: State, d: Ddl)
    requires Change(s, d).Ok?
    ensures Keeps(s, d, Change(s, d).value)
  {
    forall k, name { KeepsOne(s, d, k, name); }
    KeepsSchemas(s, d);
    hide Change, AimsAtTable, AimsAtView, AimsAtSchema, Comments, TableAt, ViewAt;
  }

  lemma KeepsSchemas(s: State, d: Ddl)
    requires Change(s, d).Ok?
    ensures var s' := Change(s, d).value;
      forall k :: k in s.schemas && !(PathKey(d.path) == Ok(k) && (d.SchemaDrop? || AimsAtSchema(d, k))) ==>
        k in s'.schemas && s'.schemas[k].path == s.schemas[k].path && s'.schemas[k].comment == s.schemas[k].comment
  {
    hide Joined;
  }

  lemma ChangeAdds(s: State, d: Ddl)
    requires Change(s, d).Ok?
    ensures AddsOnlyItsOwn(s, d, Change(s, d).value)
  {
    hide Joined;
  }

  // ---- what is accepted, and what it leaves ------------------------------

  /** The path is one, the object is there or may be missing, and nothing is in the way of a new one. */
  predicate Accepts(s: State, d: Ddl)
  {
    && d.path != [] && "" !in d.path
    && var k := Joined(d.path);
      match d
      case SchemaCreate(path, _, onConflict) =>
        if k in s.schemas && onConflict != Replace then onConflict == Ignore
        else |path| == 1 || Joined(path[..|path|-1]) in s.schemas
      case SchemaDrop(_, ignoreNotFound, cascade) =>
        if k !in s.schemas then ignoreNotFound
        else cascade || (|s.schemas[k].tables| == 0 && |s.schemas[k].views| == 0)
      case TableCreate(_, name, _, constrained, onConflict) =>
        !constrained && k in s.schemas && (TableAt(s, k, name) ==> onConflict != Fail)
      case TableDrop(_, name, ignoreNotFound) => TableAt(s, k, name) || ignoreNotFound
      case ViewCreate(_, name, _, onConflict) => k in s.schemas && (ViewAt(s, k, name) ==> onConflict != Fail)
      case ViewDrop(_, name, ignoreNotFound) => ViewAt(s, k, name) || ignoreNotFound
      case ViewCommentSet(_, name, _, ignoreNotFound) => ViewAt(s, k, name) || ignoreNotFound
      case ViewColumnCommentSet(_, name, columnPath, _, ignoreNotFound) =>
        && |columnPath| == 1 && columnPath[0] != "" && '\0' !in columnPath[0]
        && (ViewAt(s, k, name) || ignoreNotFound)
  }

  /** After a create the object is there, the old one if it was to be kept, and otherwise exactly the new one. */
  ghost predicate Created(s: State, d: Ddl, s': State) {
    var k := Joined(d.path);
    && k in s'.schemas
    && (d.SchemaCreate? ==>
      if k in s.schemas && d.onConflict == Ignore then s'.schemas[k] == s.schemas[k]
      else s'.schemas[k] == Schema(d.path, d.comment, map[], map[]))
    && (d.TableCreate? ==>
      && TableAt(s', k, d.name)
      && s'.schemas[k].tables[d.name]
         == if TableAt(s, k, d.name) && d.onConflict == Ignore then s.schemas[k].tables[d.name] else d.table)
    && (d.ViewCreate? ==>
      && ViewAt(s', k, d.name)
      && s'.schemas[k].views[d.name]
         == if ViewAt(s, k, d.name) && d.onConflict == Ignore then s.schemas[k].views[d.name] else d.view)
  }

  /** After a drop the object is not there. */
  ghost predicate Dropped(d: Ddl, s': State) {
    var k := Joined(d.path);
    && (d.SchemaDrop? ==> k !in s'.schemas)
    && (d.TableDrop? ==> !TableAt(s', k, d.name))
    && (d.ViewDrop? ==> !ViewAt(s', k, d.name))
  }

  /** A view that is there has the comment it was given, and its other comments as before. */
  ghost predicate Commented(s: State, d: Ddl, s': State)
    requires d.ViewCommentSet? || d.ViewColumnCommentSet?
  {
    var k := Joined(d.path);
    ViewAt(s, k, d.name) ==>
      && ViewAt(s', k, d.name)
      && var before, after := s.schemas[k].views[d.name], s'.schemas[k].views[d.name];
        match d
        case ViewCommentSet(_, _, comment, _) =>
          after.comment == comment && after.columnComments == before.columnComments
        case ViewColumnCommentSet(_, _, columnPath, comment, _) =>
          && after.comment == before.comment && |columnPath| == 1
          && forall column ::
            CommentOf(after, column) == if column == columnPath[0] then comment else CommentOf(before, column)
  }

  function CommentOf(v: View, column: string): Option<string> {
    if column in v.columnComments then Some(v.columnComments[column]) else None
  }

  /** What an accepted call leaves. */
  ghost predicate Achieves(s: State, d: Ddl, s': State) {
    && Keeps(s, d, s') && AddsOnlyItsOwn(s, d, s')
    && (d.SchemaCreate? || d.TableCreate? || d.ViewCreate? ==> Created(s, d, s'))
    && Dropped(d, s')
    && (d.ViewCommentSet? || d.ViewColumnCommentSet? ==> Commented(s, d, s'))
  }

  lemma ChangeAccepts(s: State, d: Ddl)
    ensures Change(s, d).Ok? <==> Accepts(s, d)
  {
    hide Joined;
  }

  lemma ChangeAchieves(s: State, d: Ddl)
    requires Change(s, d).Ok?
    ensures Achieves(s, d, Change(s, d).value)
  {
    hide Joined, Keeps, AddsOnlyItsOwn;
    ChangeKeeps(s, d);
    ChangeAdds(s, d);
  }

  // ---- over whole runs ---------------------------------------------------

  /** The attach ids name one attachment: they differ in the first byte at most. */
  predicate SameAttachment(a: AttachId, b: AttachId) {
    (|a| <= 1 && |b| <= 1) || (|a| == |b| && forall i :: 1 <= i < |a| ==> a[i] == b[i])
  }

  lemma AttachmentKeys(a: AttachId, b: AttachId)
    ensures KeyOf(a) == KeyOf(b) <==> SameAttachment(a, b)
  {
    if KeyOf(a) == KeyOf(b) && |a| > 1 {
      forall i | 1 <= i < |a| ensures a[i] == b[i] { assert a[1..][i-1] == b[1..][i-1]; }
    }
  }

  /** A fresh attachment holds one empty schema, `main`; without one, nothing is altered or answered. */
  lemma FreshAttachment(w: World, id: AttachId, d: Ddl, ifNoneMatch: Option<string>)
    ensures var s := React(w, Attach(id)).0[KeyOf(id)];
      s.version == 1 && |s.schemas| == 1 && PathKey(["main"]).Ok? && PathKey(["main"]).value in s.schemas
      && s.schemas[PathKey(["main"]).value] == Schema(["main"], None, map[], map[])
    ensures KeyOf(id) !in React(w, Detach(id)).0
    ensures KeyOf(id) !in w ==>
      && React(w, Alter(id, d)).0 == w && React(w, Alter(id, d)).1.Failed?
      && React(w, Contents(id, ifNoneMatch)).0 == w && React(w, Contents(id, ifNoneMatch)).1.Failed?
  {
    hide Change;
    assert Lower("main") == "main";
  }

  /** No event ends or restarts the attachment, and no call on it aims at the table. */
  ghost predicate SparesTable(events: seq<Event>, id: AttachId, k: string, name: string) {
    forall i :: 0 <= i < |events| && SameAttachment(events[i].id, id) ==>
      !events[i].Attach? && !events[i].Detach? && (events[i].Alter? ==> !AimsAtTable(events[i].ddl, k, name))
  }

  /** A table stays as it is through every run in which nobody aims at it, whatever else happens to the catalogs. */
  lemma {:induction false} TableSurvives(w: World, events: seq<Event>, id: AttachId, k: string, name: string)
    requires KeyOf(id) in w && TableAt(w[KeyOf(id)], k, name) && SparesTable(events, id, k, name)
    ensures KeyOf(id) in Run(w, events) && TableAt(Run(w, events)[KeyOf(id)], k, name)
    ensures Run(w, events)[KeyOf(id)].schemas[k].tables[name] == w[KeyOf(id)].schemas[k].tables[name]
    decreases |events|
  {
    hide Change, AimsAtTable;
    if events != [] {
      var e := events[0];
      AttachmentKeys(e.id, id);
      if e.Alter? && KeyOf(e.id) == KeyOf(id) && Change(w[KeyOf(id)], e.ddl).Ok? {
        KeepsOne(w[KeyOf(id)], e.ddl, k, name);
      }
      assert forall i :: 0 <= i < |events[1..]| ==> events[1..][i] == events[i+1];
      TableSurvives(React(w, e).0, events[1..], id, k, name);
    }
  }

  ghost predicate SparesView(events: seq<Event>, id: AttachId, k: string, name: string) {
    forall i :: 0 <= i < |events| && SameAttachment(events[i].id, id) ==>
      !events[i].Attach? && !events[i].Detach? && (events[i].Alter? ==> !AimsAtView(events[i].ddl, k, name))
  }

  /** So does a view's definition, even when its comments change. */
  lemma {:induction false} ViewSurvives(w: World, events: seq<Event>, id: AttachId, k: string, name: string)
    requires KeyOf(id) in w && ViewAt(w[KeyOf(id)], k, name) && SparesView(events, id, k, name)
    ensures KeyOf(id) in Run(w, events) && ViewAt(Run(w, events)[KeyOf(id)], k, name)
    ensures Run(w, events)[KeyOf(id)].schemas[k].views[name].definition
      == w[KeyOf(id)].schemas[k].views[name].definition
    decreases |events|
  {
    hide Change, AimsAtView, Comments;
    if events != [] {
      var e := events[0];
      AttachmentKeys(e.id, id);
      if e.Alter? && KeyOf(e.id) == KeyOf(id) && Change(w[KeyOf(id)], e.ddl).Ok? {
        KeepsOne(w[KeyOf(id)], e.ddl, k, name);
      }
      assert forall i :: 0 <= i < |events[1..]| ==> events[1..][i] == events[i+1];
      ViewSurvives(React(w, e).0, events[1..], id, k, name);
    }
  }

  // ---- which paths are one schema ----------------------------------------

  /** The same character, or the two cases of one ASCII letter. */
  predicate SameLetter(c: char, d: char) {
    || c == d
    || ('A' <= c <= 'Z' && d as int == c as int + 32)
    || ('A' <= d <= 'Z' && c as int == d as int + 32)
  }

  predicate SameName(a: string, b: string) { |a| == |b| && forall i :: 0 <= i < |a| ==> SameLetter(a[i], b[i]) }

  predicate SamePath(p: Path, q: Path) { |p| == |q| && forall i :: 0 <= i < |p| ==> SameName(p[i], q[i]) }

  lemma LowerIgnoresCase(a: string, b: string)
    ensures Lower(a) == Lower(b) <==> SameName(a, b)
  {
    if |a| == |b| {
      forall i | 0 <= i < |a| ensures LowerChar(a[i]) == LowerChar(b[i]) <==> SameLetter(a[i], b[i]) {}
      if Lower(a) == Lower(b) {
        forall i | 0 <= i < |a| ensures SameLetter(a[i], b[i]) { assert Lower(a)[i] == Lower(b)[i]; }
      }
    } else {
      assert |Lower(a)| != |Lower(b)|;
    }
  }

  /** Without NULs, two paths are looked up alike exactly when they differ in the case of letters only. */
  lemma PathsMatchIff(p: Path, q: Path)
    requires p != [] && "" !in p && q != [] && "" !in q && PlainPath(p) && PlainPath(q)
    ensures PathKey(p) == PathKey(q) <==> SamePath(p, q)
  {
    hide Lower, Joined;
    if PathKey(p) == PathKey(q) { PlainKeysAreExact(p, q); }
    assert Folded(p) == Folded(q) <==> SamePath(p, q) by {
      if Folded(p) == Folded(q) {
        forall i | 0 <= i < |p| ensures SameName(p[i], q[i]) {
          assert Folded(p)[i] == Folded(q)[i];
          LowerIgnoresCase(p[i], q[i]);
        }
      }
      if SamePath(p, q) {
        forall i | 0 <= i < |p| ensures Lower(p[i]) == Lower(q[i]) { LowerIgnoresCase(p[i], q[i]); }
      }
    }
    if SamePath(p, q) { SameKey(p, q); }
  }
}
