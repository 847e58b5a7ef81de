/**
 Serving a catalog's contents. The catalogs file a schema under its path joined by
 NULs; the server compares paths component by component, and refuses contents that
 list a path twice or a schema without its parent.
 */
module CatalogServing {
  import opened Seqs
  import opened Catalog

  type Path = seq<string>

  /** A path as the server compares it. */
  function Folded(path: Path): Path { Map(path, Lower) }

  function ParentOf(path: Path): Path
    requires |path| > 1
  {
    path[..|path|-1]
  }

  /** The folded paths of a listing. */
  function KeySet(paths: seq<Path>): set<Path> { set i | 0 <= i < |paths| :: Folded(paths[i]) }

  /** Every path's parent is there. */
  ghost predicate Closed(keys: set<Path>) { forall p :: p in keys && |p| > 1 ==> ParentOf(p) in keys }

  lemma FoldedParent(path: Path)
    requires |path| > 1
    ensures |Folded(path)| == |path| > |ParentOf(path)| && ParentOf(Folded(path)) == Folded(ParentOf(path))
  {
  }

  // ---- the server's checks -----------------------------------------------

  /** What the builder demands of the listed schemas: no path twice, every parent listed. */
  ghost predicate Complete(paths: seq<Path>) { |KeySet(paths)| == |paths| && Closed(KeySet(paths)) }

  /** What the reader demands of the served schemas: no path twice, every parent listed earlier. */
  ghost predicate Preceded(paths: seq<Path>) {
    && |KeySet(paths)| == |paths|
    && forall i :: 0 <= i < |paths| && |paths[i]| > 1 ==> Folded(ParentOf(paths[i])) in KeySet(paths[..i])
  }

  lemma KeySetGrows(paths: seq<Path>, i: nat)
    requires i < |paths|
    ensures KeySet(paths[..i+1]) == KeySet(paths[..i]) + {Folded(paths[i])}
  {
    var before, after := paths[..i], paths[..i+1];
    forall x | x in KeySet(after) ensures x in KeySet(before) + {Folded(paths[i])} {
      var j :| 0 <= j < |after| && Folded(after[j]) == x;
      if j < i { assert Folded(before[j]) in KeySet(before); }
    }
    forall x | x in KeySet(before) ensures x in KeySet(after) {
      var j :| 0 <= j < |before| && Folded(before[j]) == x;
      assert Folded(after[j]) in KeySet(after);
    }
    assert Folded(after[i]) in KeySet(after);
  }

  /** A listing has at most as many keys as its first part, and one more per further path. */
  lemma {:induction false} KeySetBound(paths: seq<Path>, i: nat)
    requires i <= |paths|
    ensures |KeySet(paths)| <= |KeySet(paths[..i])| + (|paths| - i)
    decreases |paths| - i
  {
    if i < |paths| {
      KeySetGrows(paths, i);
      KeySetBound(paths, i + 1);
    } else {
      assert paths[..i] == paths;
    }
  }

  /** The builder: collect the keys, compare the counts, then look up each parent. */
  method CheckContents(paths: seq<Path>) returns (ok: bool)
    ensures ok <==> Complete(paths)
  {
    var keys: set<Path> := {};
    for i := 0 to |paths|
      invariant keys == KeySet(paths[..i])
    {
      KeySetGrows(paths, i);
      keys := keys + {Folded(paths[i])};
    }
    assert paths[..|paths|] == paths;
    if |keys| != |paths| { return false; }
    for i := 0 to |paths|
      invariant forall j :: 0 <= j < i && |paths[j]| > 1 ==> ParentOf(Folded(paths[j])) in keys
    {
      if |paths[i]| > 1 {
        FoldedParent(paths[i]);
        assert Folded(paths[i]) in KeySet(paths);
        if Folded(ParentOf(paths[i])) !in keys { return false; }
      }
    }
    ok := true;
  }

  /** The reader: one pass over an index that grows, each parent already in it. */
  method ReadContents(paths: seq<Path>) returns (ok: bool)
    ensures ok <==> Preceded(paths)
  {
    hide Folded;
    var index: set<Path> := {};
    for i := 0 to |paths|
      invariant index == KeySet(paths[..i]) && |index| == i
      invariant forall j :: 0 <= j < i && |paths[j]| > 1 ==> Folded(ParentOf(paths[j])) in KeySet(paths[..j])
    {
      KeySetGrows(paths, i);
      if Folded(paths[i]) in index {
        KeySetBound(paths, i + 1);
        return false;
      }
      if |paths[i]| > 1 && Folded(ParentOf(paths[i])) !in index { return false; }
      index := index + {Folded(paths[i])};
    }
    assert paths[..|paths|] == paths;
    ok := true;
  }

  function Depth(path: Path): int { |path| }

  lemma ParentsComeFirst(sorted: seq<Path>, i: nat)
    requires SortedBy(sorted, Depth) && Closed(KeySet(sorted)) && i < |sorted| && |sorted[i]| > 1
    ensures Folded(ParentOf(sorted[i])) in KeySet(sorted[..i])
  {
    hide Folded, ParentOf, SortedBy;
    var parent := ParentOf(sorted[i]);
    FoldedParent(sorted[i]);
    assert Folded(sorted[i]) in KeySet(sorted);
    var j := IndexOf(sorted, Folded(parent));
    hide KeySet, Closed;
    ShallowerIsEarlier(sorted, i, j, parent);
    InPrefix(sorted, i, j);
  }

  lemma IndexOf(paths: seq<Path>, x: Path) returns (j: nat)
    requires x in KeySet(paths)
    ensures j < |paths| && Folded(paths[j]) == x
  {
    j :| 0 <= j < |paths| && Folded(paths[j]) == x;
  }

  lemma InPrefix(paths: seq<Path>, i: nat, j: nat)
    requires j < i <= |paths|
    ensures Folded(paths[j]) in KeySet(paths[..i])
  {
    assert paths[..i][j] == paths[j];
  }

  lemma ShallowerIsEarlier(sorted: seq<Path>, i: nat, j: nat, parent: Path)
    requires SortedBy(sorted, Depth) && i < |sorted| && j < |sorted|
    requires |parent| < |sorted[i]| && Folded(sorted[j]) == Folded(parent)
    ensures j < i
  {
    assert |Folded(sorted[j])| == |sorted[j]| && |Folded(parent)| == |parent|;
    assert Depth(sorted[j]) < Depth(sorted[i]);
  }

  lemma PrecededIsClosed(paths: seq<Path>)
    requires Preceded(paths)
    ensures Closed(KeySet(paths))
  {
    forall p | p in KeySet(paths) && |p| > 1 ensures ParentOf(p) in KeySet(paths) {
      var i :| 0 <= i < |paths| && Folded(paths[i]) == p;
      FoldedParent(paths[i]);
      PrefixKeys(paths, i);
    }
  }

  lemma PrefixKeys(paths: seq<Path>, i: nat)
    requires i <= |paths|
    ensures KeySet(paths[..i]) <= KeySet(paths)
  {
    forall x | x in KeySet(paths[..i]) ensures x in KeySet(paths) {
      var j :| 0 <= j < i && Folded(paths[..i][j]) == x;
      assert Folded(paths[j]) in KeySet(paths);
    }
  }

  /** Sorting by depth puts every parent before its children: the reader accepts exactly what the builder does. */
  lemma ReaderAcceptsWhatIsBuilt(paths: seq<Path>)
    ensures Preceded(StableSort(paths, Depth)) <==> Complete(paths)
  {
    var sorted := StableSort(paths, Depth);
    StableSortFacts(paths, Depth);
    SameKeySet(paths, sorted);
    hide StableSort, SortedBy, KeySet, Closed;
    if Complete(paths) {
      forall i | 0 <= i < |sorted| && |sorted[i]| > 1 ensures Folded(ParentOf(sorted[i])) in KeySet(sorted[..i]) {
        ParentsComeFirst(sorted, i);
      }
    }
    if Preceded(sorted) { PrecededIsClosed(sorted); }
  }

  lemma SameKeySet(a: seq<Path>, b: seq<Path>)
    requires multiset(a) == multiset(b)
    ensures KeySet(a) == KeySet(b) && |a| == |b|
  {
    assert |multiset(a)| == |a| && |multiset(b)| == |b|;
    KeySetWithin(a, b);
    KeySetWithin(b, a);
  }

  lemma KeySetWithin(a: seq<Path>, b: seq<Path>)
    requires multiset(a) == multiset(b)
    ensures KeySet(a) <= KeySet(b)
  {
    forall x | x in KeySet(a) ensures x in KeySet(b) {
      var i :| 0 <= i < |a| && Folded(a[i]) == x;
      assert a[i] in multiset(b);
      var j :| 0 <= j < |b| && b[j] == a[i];
    }
  }

  // ---- what a catalog's state must be ------------------------------------

  function SchemaSet(s: State): set<Path> { set k | k in s.schemas :: Folded(s.schemas[k].path) }

  /** The contents pass the server's checks. */
  ghost predicate Servable(s: State) { |SchemaSet(s)| == |s.schemas| && Closed(SchemaSet(s)) }

  function PathsOf(s: State, keys: seq<string>): (paths: seq<Path>)
    requires forall i :: 0 <= i < |keys| ==> keys[i] in s.schemas
    ensures |paths| == |keys| && forall i :: 0 <= i < |keys| ==> paths[i] == s.schemas[keys[i]].path
  {
    seq(|keys|, i requires 0 <= i < |keys| => s.schemas[keys[i]].path)
  }

  /** In whatever order the schemas are listed, the checks come out as `Servable` says. */
  lemma AnyListingWillDo(s: State, keys: seq<string>)
    requires NoRepeats(keys) && forall k :: k in keys <==> k in s.schemas
    ensures Complete(PathsOf(s, keys)) <==> Servable(s)
  {
    var paths := PathsOf(s, keys);
    forall x | x in SchemaSet(s) ensures x in KeySet(paths) {
      var k :| k in s.schemas && Folded(s.schemas[k].path) == x;
      var i :| 0 <= i < |keys| && keys[i] == k;
      assert Folded(paths[i]) == x;
    }
    forall x | x in KeySet(paths) ensures x in SchemaSet(s) {
      var i :| 0 <= i < |paths| && Folded(paths[i]) == x;
      assert keys[i] in s.schemas;
    }
    assert KeySet(paths) == SchemaSet(s);
    DistinctCount(keys);
    assert (set k | k in keys) == s.schemas.Keys;
    assert |s.schemas.Keys| == |s.schemas|;
  }

  // ---- keys and paths ----------------------------------------------------

  /** The key of a path depends on its folded components only. */
  lemma {:induction false} SameKey(a: Path, b: Path)
    requires Folded(a) == Folded(b)
    ensures Joined(a) == Joined(b)
  {
    assert |a| == |Folded(a)| == |b|;
    if a != [] {
      assert Lower(a[0]) == Folded(a)[0] == Folded(b)[0];
      assert Folded(a[1..]) == Folded(a)[1..] == Folded(b)[1..] == Folded(b[1..]);
      SameKey(a[1..], b[1..]);
    }
  }

  lemma {:induction false} ParentKeyIsShorter(path: Path)
    requires |path| > 1
    ensures |Joined(ParentOf(path))| < |Joined(path)|
    decreases |path|
  {
    if |path| > 2 {
      assert ParentOf(path)[1..] == ParentOf(path[1..]);
      ParentKeyIsShorter(path[1..]);
    } else {
      assert ParentOf(path) == [path[0]];
    }
  }

  /** What is filed under the key of `path` has that path. */
  predicate Filed(s: State, path: Path) {
    Joined(path) in s.schemas && Folded(s.schemas[Joined(path)].path) == Folded(path)
  }

  /** Something is filed under the key of `path`, but it has another path: a component holds a NUL. */
  predicate Impostor(s: State, path: Path) { Joined(path) in s.schemas && !Filed(s, path) }

  lemma FiledIff(s: State, path: Path)
    requires WellKeyed(s)
    ensures Filed(s, path) <==> Folded(path) in SchemaSet(s)
  {
    if Folded(path) in SchemaSet(s) {
      var k :| k in s.schemas && Folded(s.schemas[k].path) == Folded(path);
      SameKey(s.schemas[k].path, path);
    }
  }

  lemma {:induction false} PathsCount(s: State, keys: set<string>)
    requires WellKeyed(s) && keys <= s.schemas.Keys
    ensures |set k | k in keys :: Folded(s.schemas[k].path)| == |keys|
    decreases |keys|
  {
    if keys != {} {
      var x :| x in keys;
      PathsCount(s, keys - {x});
      var rest := set k | k in keys - {x} :: Folded(s.schemas[k].path);
      var fx := Folded(s.schemas[x].path);
      if fx in rest {
        var k :| k in keys - {x} && Folded(s.schemas[k].path) == fx;
        SameKey(s.schemas[k].path, s.schemas[x].path);
        assert false;
      }
      assert (set k | k in keys :: Folded(s.schemas[k].path)) == rest + {fx};
    }
  }

  /** The parent of the schema under `k` is filed. */
  predicate ParentFiled(s: State, k: string)
    requires k in s.schemas
  {
    |s.schemas[k].path| > 1 ==> Filed(s, ParentOf(s.schemas[k].path))
  }

  /** Under the keys the catalog files them by, no path occurs twice; what is left to check are the parents. */
  lemma ServableByKey(s: State)
    requires WellKeyed(s)
    ensures Servable(s) <==> forall k :: k in s.schemas ==> ParentFiled(s, k)
  {
    PathsCount(s, s.schemas.Keys);
    assert SchemaSet(s) == set k | k in s.schemas.Keys :: Folded(s.schemas[k].path);
    assert |s.schemas.Keys| == |s.schemas|;
    if Closed(SchemaSet(s)) {
      forall k | k in s.schemas ensures ParentFiled(s, k) {
        var path := s.schemas[k].path;
        if |path| > 1 {
          FoldedParent(path);
          assert Folded(path) in SchemaSet(s);
          FiledIff(s, ParentOf(path));
        }
      }
    }
    if forall k :: k in s.schemas ==> ParentFiled(s, k) {
      forall p | p in SchemaSet(s) && |p| > 1 ensures ParentOf(p) in SchemaSet(s) {
        var k :| k in s.schemas && Folded(s.schemas[k].path) == p;
        assert ParentFiled(s, k);
        FoldedParent(s.schemas[k].path);
        FiledIff(s, ParentOf(s.schemas[k].path));
      }
    }
  }

  // ---- which calls keep contents servable --------------------------------

  /** The schema under `k` lies right below `path`. */
  predicate ChildOf(s: State, k: string, path: Path)
    requires k in s.schemas
  {
    |s.schemas[k].path| > 1 && Folded(ParentOf(s.schemas[k].path)) == Folded(path)
  }

  ghost predicate HasChild(s: State, path: Path) { exists k :: k in s.schemas && ChildOf(s, k, path) }

  /** A create writes a schema unless it finds its key taken and is told to leave it. */
  predicate Writes(s: State, d: Ddl)
    requires d.SchemaCreate?
  {
    Joined(d.path) !in s.schemas || d.onConflict != Ignore
  }

  /** Creating a schema below an impostor, or replacing an impostor that others lie below. */
  ghost predicate BreaksByCreating(s: State, path: Path) {
    || (|path| > 1 && Impostor(s, ParentOf(path)))
    || (Impostor(s, path) && HasChild(s, s.schemas[Joined(path)].path))
  }

  /** The accepted calls that break the contents: such a create, or dropping a schema that others lie below. */
  ghost predicate Breaks(s: State, d: Ddl) {
    || (d.SchemaDrop? && Joined(d.path) in s.schemas && HasChild(s, s.schemas[Joined(d.path)].path))
    || (d.SchemaCreate? && Writes(s, d) && BreaksByCreating(s, d.path))
  }

  /** What a call does to the paths alone. */
  lemma PathsAfter(s: State, d: Ddl)
    requires Change(s, d).Ok?
    ensures var s', k := Change(s, d).value, Joined(d.path);
      && (d.SchemaDrop? ==> s'.schemas.Keys == s.schemas.Keys - {k})
      && (d.SchemaCreate? && Writes(s, d) ==>
           && s'.schemas.Keys == s.schemas.Keys + {k} && s'.schemas[k].path == d.path
           && (|d.path| > 1 ==> Joined(ParentOf(d.path)) in s.schemas))
      && (!d.SchemaDrop? && !(d.SchemaCreate? && Writes(s, d)) ==>
           s'.schemas.Keys == s.schemas.Keys && (k in s.schemas ==> s'.schemas[k].path == s.schemas[k].path))
      && forall j :: j != k && j in s.schemas && j in s'.schemas ==> s'.schemas[j] == s.schemas[j]
  {
  }

  /**
   Contents stay servable under an accepted call if and only if it does not drop a
   schema, CASCADE or not, that others lie below, nor create one below an impostor,
   nor replace an impostor that others lie below.
   */
  lemma ServableIff(s: State, d: Ddl)
    requires WellKeyed(s) && Servable(s) && Change(s, d).Ok?
    ensures Servable(Change(s, d).value) <==> !Breaks(s, d)
  {
    hide Change, PathKey, Folded, Joined, Servable, WellKeyed, BreaksByCreating, HasChild, ParentFiled;
    var s', k := Change(s, d).value, Joined(d.path);
    PathsAfter(s, d);
    ChangeKeepsKeys(s, d);
    ServableByKey(s);
    ServableByKey(s');
    if d.SchemaDrop? {
      AfterDrop(s, s', k);
    } else if d.SchemaCreate? && Writes(s, d) {
      AfterCreate(s, s', d.path);
    } else {
      SamePaths(s, s', k);
    }
  }

  lemma SamePaths(s: State, s': State, key: string)
    requires s'.schemas.Keys == s.schemas.Keys && forall k :: k in s.schemas ==> ParentFiled(s, k)
    requires key in s.schemas ==> s'.schemas[key].path == s.schemas[key].path
    requires forall k :: k != key && k in s.schemas && k in s'.schemas ==> s'.schemas[k] == s.schemas[k]
    ensures forall k :: k in s'.schemas ==> ParentFiled(s', k)
  {
    hide Folded, Joined;
    forall k | k in s'.schemas ensures ParentFiled(s', k) {
      assert ParentFiled(s, k) && s'.schemas[k].path == s.schemas[k].path;
    }
  }

  /** A schema lies below the one under `key` exactly when its parent's key is `key`. */
  lemma ChildByKey(s: State, k: string, key: string)
    requires WellKeyed(s) && k in s.schemas && key in s.schemas && ParentFiled(s, k)
    ensures ChildOf(s, k, s.schemas[key].path)
      <==> |s.schemas[k].path| > 1 && Joined(ParentOf(s.schemas[k].path)) == key
  {
    if ChildOf(s, k, s.schemas[key].path) { SameKey(ParentOf(s.schemas[k].path), s.schemas[key].path); }
  }

  /** No schema is filed under its own parent's key. */
  lemma ParentIsElsewhere(s: State, k: string)
    requires WellKeyed(s) && k in s.schemas && |s.schemas[k].path| > 1
    ensures Joined(ParentOf(s.schemas[k].path)) != k
  {
    ParentKeyIsShorter(s.schemas[k].path);
  }

  lemma AfterDrop(s: State, s': State, key: string)
    requires WellKeyed(s) && forall k :: k in s.schemas ==> ParentFiled(s, k)
    requires s'.schemas.Keys == s.schemas.Keys - {key}
    requires forall k :: k in s'.schemas ==> s'.schemas[k] == s.schemas[k]
    ensures (forall k :: k in s'.schemas ==> ParentFiled(s', k))
      <==> !(key in s.schemas && HasChild(s, s.schemas[key].path))
  {
    hide Folded, Joined;
    if key in s.schemas && HasChild(s, s.schemas[key].path) {
      var k :| k in s.schemas && ChildOf(s, k, s.schemas[key].path);
      assert ParentFiled(s, k);
      ChildByKey(s, k, key);
      ParentIsElsewhere(s, k);
      assert k in s'.schemas && !ParentFiled(s', k);
    } else {
      forall k | k in s'.schemas ensures ParentFiled(s', k) {
        assert ParentFiled(s, k);
        if key in s.schemas { ChildByKey(s, k, key); }
      }
    }
  }

  lemma AfterCreate(s: State, s': State, path: Path)
    requires WellKeyed(s) && WellKeyed(s') && forall k :: k in s.schemas ==> ParentFiled(s, k)
    requires s'.schemas.Keys == s.schemas.Keys + {Joined(path)} && s'.schemas[Joined(path)].path == path
    requires forall k :: k != Joined(path) && k in s.schemas ==> s'.schemas[k] == s.schemas[k]
    requires |path| > 1 ==> Joined(ParentOf(path)) in s.schemas
    ensures (forall k :: k in s'.schemas ==> ParentFiled(s', k)) <==> !BreaksByCreating(s, path)
  {
    var key := Joined(path);
    hide Folded, Joined, WellKeyed;
    if |path| > 1 {
      ParentIsElsewhere(s', key);
      assert Filed(s', ParentOf(path)) <==> Filed(s, ParentOf(path));
    }
    assert ParentFiled(s', key) <==> !(|path| > 1 && Impostor(s, ParentOf(path)));
    forall k | k in s.schemas && k != key
      ensures ParentFiled(s', k) <==> !(Impostor(s, path) && ChildOf(s, k, s.schemas[key].path))
    {
      OtherSchema(s, s', path, k);
    }
    if Impostor(s, path) && ChildOf(s, key, s.schemas[key].path) {
      ChildByKey(s, key, key);
      ParentIsElsewhere(s, key);
      assert false;
    }
  }

  /** A schema keeps its parent unless that was an impostor which the new schema replaces. */
  lemma OtherSchema(s: State, s': State, path: Path, k: string)
    requires WellKeyed(s) && k in s.schemas && k != Joined(path) && ParentFiled(s, k)
    requires s'.schemas.Keys == s.schemas.Keys + {Joined(path)} && s'.schemas[Joined(path)].path == path
    requires forall j :: j != Joined(path) && j in s.schemas ==> s'.schemas[j] == s.schemas[j]
    ensures ParentFiled(s', k) <==>
      !(Impostor(s, path) && ChildOf(s, k, s.schemas[Joined(path)].path))
  {
    var key := Joined(path);
    hide WellKeyed;
    if key in s.schemas { ChildByKey(s, k, key); }
    hide Folded, Joined;
    if |s.schemas[k].path| > 1 {
      var p := ParentOf(s.schemas[k].path);
      assert Filed(s, p);
      if Joined(p) == key {
        assert Folded(s.schemas[key].path) == Folded(p);
        assert Filed(s', p) <==> Folded(path) == Folded(p);
      } else {
        assert Filed(s', p);
      }
    }
  }

  // ---- paths without NULs ------------------------------------------------

  ghost predicate PlainPath(path: Path) { forall i :: 0 <= i < |path| ==> '\0' !in path[i] }

  /** No schema's path has a NUL in a component. */
  ghost predicate Plain(s: State) { forall k :: k in s.schemas ==> PlainPath(s.schemas[k].path) }

  lemma LowerKeepsNul(s: string)
    ensures '\0' in Lower(s) <==> '\0' in s
  {
    if '\0' in s {
      var i :| 0 <= i < |s| && s[i] == '\0';
      assert Lower(s)[i] == '\0';
    }
    if '\0' in Lower(s) {
      var i :| 0 <= i < |Lower(s)| && Lower(s)[i] == '\0';
      assert LowerChar(s[i]) == '\0';
    }
  }

  lemma KeyParts(a: Path)
    requires a != [] && PlainPath(a)
    ensures '\0' !in Lower(a[0]) && ('\0' in Joined(a) <==> |a| > 1)
    ensures |a| == 1 ==> Joined(a) == Lower(a[0])
    ensures |a| > 1 ==> Joined(a) == Lower(a[0]) + ['\0'] + Joined(a[1..]) && a[1..] != [] && PlainPath(a[1..])
  {
    LowerKeepsNul(a[0]);
    if |a| > 1 {
      assert Joined(a)[|Lower(a[0])|] == '\0';
      forall i | 0 <= i < |a[1..]| ensures '\0' !in a[1..][i] { assert a[1..][i] == a[i+1]; }
    }
  }

  lemma FirstNulDecides(p: string, rest: string, q: string, rest': string)
    requires '\0' !in p && '\0' !in q && p + ['\0'] + rest == q + ['\0'] + rest'
    ensures p == q && rest == rest'
  {
    var s, t := p + ['\0'] + rest, q + ['\0'] + rest';
    FirstNul(p, rest);
    FirstNul(q, rest');
    assert p == s[..|p|] && q == t[..|q|];
    assert rest == s[|p|+1..] && rest' == t[|q|+1..];
  }

  lemma FirstNul(p: string, rest: string)
    requires '\0' !in p
    ensures var s := p + ['\0'] + rest; s[|p|] == '\0' && forall i :: 0 <= i < |p| ==> s[i] != '\0'
  {
    var s := p + ['\0'] + rest;
    forall i | 0 <= i < |p| ensures s[i] != '\0' { assert s[i] == p[i] && p[i] in p; }
  }

  /** Without NULs in components, a key belongs to one path. */
  lemma {:induction false} PlainKeysAreExact(a: Path, b: Path)
    requires a != [] && b != [] && PlainPath(a) && PlainPath(b) && Joined(a) == Joined(b)
    ensures Folded(a) == Folded(b)
    decreases |a|
  {
    KeyParts(a);
    KeyParts(b);
    hide Joined, PlainPath;
    var p, q := Lower(a[0]), Lower(b[0]);
    assert Folded(a) == [p] + Folded(a[1..]) && Folded(b) == [q] + Folded(b[1..]);
    if |a| > 1 {
      FirstNulDecides(p, Joined(a[1..]), q, Joined(b[1..]));
      PlainKeysAreExact(a[1..], b[1..]);
    }
  }

  lemma NoImpostors(s: State, path: Path)
    requires WellKeyed(s) && Plain(s) && path != [] && PlainPath(path)
    ensures !Impostor(s, path)
  {
    if Joined(path) in s.schemas { PlainKeysAreExact(s.schemas[Joined(path)].path, path); }
  }

  /** Where no component holds a NUL, only dropping a schema that others lie below breaks the contents. */
  lemma PlainServableIff(s: State, d: Ddl)
    requires WellKeyed(s) && Servable(s) && Change(s, d).Ok? && Plain(s) && PlainPath(d.path)
    ensures Plain(Change(s, d).value)
    ensures Servable(Change(s, d).value)
      <==> !(d.SchemaDrop? && Joined(d.path) in s.schemas && HasChild(s, d.path))
  {
    hide Change, PathKey, Folded, Joined, Servable, WellKeyed, Breaks, HasChild, PlainPath;
    ServableIff(s, d);
    PathsAfter(s, d);
    HasPath(s, d);
    PlainBreaks(s, d);
  }

  lemma HasPath(s: State, d: Ddl)
    requires Change(s, d).Ok?
    ensures d.path != []
  {
    assert PathKey(d.path).Ok?;
  }

  lemma PlainBreaks(s: State, d: Ddl)
    requires WellKeyed(s) && Plain(s) && d.path != [] && PlainPath(d.path)
    ensures Breaks(s, d) <==> d.SchemaDrop? && Joined(d.path) in s.schemas && HasChild(s, d.path)
  {
    hide Folded, Joined, WellKeyed, PlainPath, Plain, HasChild;
    NoImpostors(s, d.path);
    if |d.path| > 1 {
      PlainParent(d.path);
      NoImpostors(s, ParentOf(d.path));
    }
    if Joined(d.path) in s.schemas { SameChildren(s, s.schemas[Joined(d.path)].path, d.path); }
  }

  lemma PlainParent(path: Path)
    requires |path| > 1 && PlainPath(path)
    ensures PlainPath(ParentOf(path))
  {
    forall i | 0 <= i < |ParentOf(path)| ensures '\0' !in ParentOf(path)[i] {
      assert ParentOf(path)[i] == path[i];
    }
  }

  lemma SameChildren(s: State, a: Path, b: Path)
    requires Folded(a) == Folded(b)
    ensures HasChild(s, a) <==> HasChild(s, b)
  {
    hide Folded;
    if HasChild(s, a) {
      var k :| k in s.schemas && ChildOf(s, k, a);
      assert ChildOf(s, k, b);
    }
    if HasChild(s, b) {
      var k :| k in s.schemas && ChildOf(s, k, b);
      assert ChildOf(s, k, a);
    }
  }

  // ---- over a run --------------------------------------------------------

  ghost predicate Sound(w: World) {
    forall k :: k in w ==> WellKeyed(w[k]) && Servable(w[k])
  }

  ghost predicate EventBreaks(w: World, e: Event) {
    e.Alter? && KeyOf(e.id) in w && Change(w[KeyOf(e.id)], e.ddl).Ok?
      && Breaks(w[KeyOf(e.id)], e.ddl)
  }

  /** One event keeps every attachment servable if and only if it is not such a call. */
  lemma SoundIff(w: World, e: Event)
    requires Sound(w)
    ensures Sound(React(w, e).0) <==> !EventBreaks(w, e)
  {
    hide Change, Breaks, Servable, WellKeyed, MainOnly;
    var k, w' := KeyOf(e.id), React(w, e).0;
    MainIsSound();
    if e.Alter? && k in w && Change(w[k], e.ddl).Ok? {
      ChangeKeepsKeys(w[k], e.ddl);
      ServableIff(w[k], e.ddl);
    }
    forall j | j in w' && j != k ensures WellKeyed(w'[j]) && Servable(w'[j]) { OthersUntouched(w, e, j); }
    if EventBreaks(w, e) { assert !Servable(w'[k]); }
  }

  lemma MainIsSound()
    ensures WellKeyed(MainOnly()) && Servable(MainOnly())
  {
    assert Lower("main") == "main";
    assert "" !in ["main"] by { assert |"main"| == 4; }
    ServableByKey(MainOnly());
  }

  ghost predicate NeverBreaks(w: World, events: seq<Event>)
    decreases |events|
  {
    events == [] || (!EventBreaks(w, events[0]) && NeverBreaks(React(w, events[0]).0, events[1..]))
  }

  /** Over any run without such a call, every attachment's contents can be served at the end. */
  lemma {:induction false} RunStaysServable(w: World, events: seq<Event>)
    requires Sound(w) && NeverBreaks(w, events)
    ensures Sound(Run(w, events))
    decreases |events|
  {
    if events != [] {
      SoundIff(w, events[0]);
      RunStaysServable(React(w, events[0]).0, events[1..]);
    }
  }

  // ---- the calls that break them, concretely -----------------------------

  lemma TwoParts(a: string, b: string)
    ensures Joined([a]) == Lower(a) && Joined([a, b]) == Lower(a) + "\0" + Lower(b)
    ensures ParentOf([a, b]) == [a] && Folded([a]) == [Lower(a)]
  {
    assert [a, b][1..] == [b];
  }

  /** A schema `a` with a schema `a.b` below it. */
  function Nested(a: string, b: string): State {
    State(3, map[Joined([a]) := Schema([a], None, map[], map[]), Joined([a, b]) := Schema([a, b], None, map[], map[])])
  }

  lemma NestedIsServable(a: string, b: string)
    requires a != "" && b != ""
    ensures WellKeyed(Nested(a, b)) && Servable(Nested(a, b))
    ensures PathKey([a]) == Ok(Joined([a])) && Joined([a]) in Nested(a, b).schemas && HasChild(Nested(a, b), [a])
    ensures Nested(a, b).schemas[Joined([a])] == Schema([a], None, map[], map[])
  {
    var s := Nested(a, b);
    TwoParts(a, b);
    assert "" !in [a] && "" !in [a, b];
    hide Joined, Folded;
    assert Joined([a]) != Joined([a, b]) by { assert |Joined([a])| < |Joined([a, b])|; }
    assert ParentFiled(s, Joined([a])) && ParentFiled(s, Joined([a, b])) && ChildOf(s, Joined([a, b]), [a]);
    ServableByKey(s);
  }

  /** `DROP SCHEMA a CASCADE` with a schema `a.b` in place. */
  lemma CascadeOrphans(a: string, b: string)
    requires a != "" && b != ""
    ensures WellKeyed(Nested(a, b)) && Servable(Nested(a, b))
    ensures Change(Nested(a, b), SchemaDrop([a], false, true)).Ok?
    ensures !Servable(Change(Nested(a, b), SchemaDrop([a], false, true)).value)
  {
    NestedIsServable(a, b);
    hide Nested, Joined, Folded, PathKey, WellKeyed, Servable, HasChild;
    ServableIff(Nested(a, b), SchemaDrop([a], false, true));
  }

  lemma NulPath(a: string, b: string, c: string)
    requires a != "" && b != "" && c != ""
    ensures PathKey([a + "\0" + b]) == Ok(Joined([a, b])) && PathKey([a, b, c]) == Ok(Joined([a, b, c]))
    ensures ParentOf([a, b, c]) == [a, b] && Joined([a, b]) != Joined([a, b, c])
    ensures Folded([a + "\0" + b]) != Folded([a, b])
  {
    var name := a + "\0" + b;
    TwoParts(a, b);
    assert Lower(name) == Lower(a) + "\0" + Lower(b);
    assert "" !in [name] by { assert |name| > 0; }
    assert "" !in [a, b, c];
    assert ParentOf([a, b, c]) == [a, b];
    ParentKeyIsShorter([a, b, c]);
    assert |Folded([name])| == 1 && |Folded([a, b])| == 2;
  }

  /** One schema whose name is `a` NUL `b` passes for the parent of `a.b.c`. */
  lemma NulPassesForParent(a: string, b: string, c: string) returns (s: State)
    requires a != "" && b != "" && c != ""
    ensures Change(MainOnly(), SchemaCreate([a + "\0" + b], None, Fail)) == Ok(s) && WellKeyed(s) && Servable(s)
    ensures Change(s, SchemaCreate([a, b, c], None, Fail)).Ok?
    ensures !Servable(Change(s, SchemaCreate([a, b, c], None, Fail)).value)
  {
    var name := a + "\0" + b;
    var first, second := SchemaCreate([name], None, Fail), SchemaCreate([a, b, c], None, Fail);
    NulPath(a, b, c);
    NulIsNotMain([a, b]);
    NulIsNotMain([a, b, c]);
    MainIsSound();
    hide Joined, Folded, PathKey, Servable, WellKeyed;
    FirstSchema(name, Joined([a, b]));
    s := Change(MainOnly(), first).value;
    BelowImpostor(s, [a, b, c], Joined([a, b, c]));
  }

  lemma FirstSchema(name: string, key: string)
    requires PathKey([name]) == Ok(key) && key !in MainOnly().schemas
    ensures var d := SchemaCreate([name], None, Fail);
      && Change(MainOnly(), d) == Ok(State(2, MainOnly().schemas[key := Schema([name], None, map[], map[])]))
      && WellKeyed(Change(MainOnly(), d).value) && Servable(Change(MainOnly(), d).value)
  {
    hide Joined, Folded, Servable, WellKeyed;
    var d := SchemaCreate([name], None, Fail);
    MainIsSound();
    ServableIff(MainOnly(), d);
    ChangeKeepsKeys(MainOnly(), d);
  }

  lemma BelowImpostor(s: State, path: Path, key: string)
    requires WellKeyed(s) && Servable(s) && PathKey(path) == Ok(key) && key !in s.schemas
    requires |path| > 1 && Impostor(s, ParentOf(path))
    ensures var d := SchemaCreate(path, None, Fail); Change(s, d).Ok? && !Servable(Change(s, d).value)
  {
    hide Joined, Folded, Servable, WellKeyed;
    ServableIff(s, SchemaCreate(path, None, Fail));
  }

  lemma NulIsNotMain(path: Path)
    requires |path| > 1
    ensures Joined(path) != "main" && Joined(path) !in MainOnly().schemas
  {
    assert Joined(path)[|Lower(path[0])|] == '\0';
    assert '\0' in Joined(path) && '\0' !in "main";
  }
}
