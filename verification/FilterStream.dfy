/**
 One scan's dynamic filters over many HTTP turns. Every turn opens the state token,
 rebuilds the filters from it, takes at most one delta document, and seals the
 history it leaves into the next token; a byte-stream connection keeps filters and
 history in memory instead.
 */
module FilterStream {
  import opened Seqs
  import opened Bytes
  import opened FilterHistory
  import HistoryToken
  import Utf8

  /** A delta document as it arrives and is carried: one serialized batch. */
  type Doc = seq<Byte>

  type Carried = HistoryToken.History

  const MAX_DELTA_IPC_BYTES: nat := 0x110_0000

  /** What the batch reader makes of a document, if it is one at all. */
  type Reader = Doc -> Option<Delta>

  function ReadDoc(parse: Reader, doc: Doc): Option<Delta> {
    if |doc| > MAX_DELTA_IPC_BYTES then None else parse(doc)
  }

  function Updates(parse: Reader, doc: Doc): Delta {
    match ReadDoc(parse, doc) case None => [] case Some(d) => d
  }

  function AllUpdates(parse: Reader, docs: seq<Doc>): seq<Delta> {
    if docs == [] then [] else [Updates(parse, docs[0])] + AllUpdates(parse, docs[1..])
  }

  /** The history as its documents' updates. */
  function Opened(parse: Reader, h: Carried): History { History(AllUpdates(parse, h.deltas), h.order) }

  predicate Accepts(parse: Reader, f: Filters, doc: Doc) {
    ReadDoc(parse, doc).Some? && Apply(f, Updates(parse, doc)).Ok?
  }

  // ---- recording ---------------------------------------------------------

  /** Keep the documents that are the first to carry a wanted (id, revision). */
  function CompactDocs(parse: Reader, docs: seq<Doc>, wanted: set<(Id, nat)>): seq<Doc>
    decreases |docs|
  {
    if docs == [] then []
    else
      var keys := KeysOf(Updates(parse, docs[0]));
      (if keys * wanted != {} then [docs[0]] else []) + CompactDocs(parse, docs[1..], wanted - keys)
  }

  function RecordDoc(parse: Reader, f: Filters, h: Carried, doc: Doc): (Filters, Carried)
    requires Accepts(parse, f, doc)
  {
    var f' := Apply(f, Updates(parse, doc)).value;
    (f', HistoryToken.History(CompactDocs(parse, h.deltas + [doc], Current(f')), f'.order))
  }

  method CompactDeltas(parse: Reader, docs: seq<Doc>, current: set<(Id, nat)>) returns (kept: seq<Doc>)
    ensures kept == CompactDocs(parse, docs, current)
  {
    kept := [];
    var wanted := current;
    for i := 0 to |docs|
      invariant kept + CompactDocs(parse, docs[i..], wanted) == CompactDocs(parse, docs, current)
    {
      var keys := KeysOf(Updates(parse, docs[i]));
      Assoc(kept, if keys * wanted != {} then [docs[i]] else [], CompactDocs(parse, docs[i+1..], wanted - keys));
      if keys * wanted != {} { kept := kept + [docs[i]]; }
      wanted := wanted - keys;
    }
  }

  /** Apply one tick's document; a refused one leaves filters and history as they were. */
  method RecordFilterDelta(parse: Reader, f: Filters, h: Carried, doc: Doc) returns (r: Result<(Filters, Carried)>)
    ensures r.Ok? <==> Accepts(parse, f, doc)
    ensures r.Ok? ==> r.value == RecordDoc(parse, f, h, doc)
  {
    if ReadDoc(parse, doc).None? { return Err("not a filter document"); }
    var applied := ApplyDelta(f, ReadDoc(parse, doc).value);
    if applied.Err? { return Err(applied.error); }
    var deltas := CompactDeltas(parse, h.deltas + [doc], Current(applied.value));
    r := Ok((applied.value, HistoryToken.History(deltas, applied.value.order)));
  }

  lemma {:induction false} AllUpdatesAppend(parse: Reader, a: seq<Doc>, b: seq<Doc>)
    ensures AllUpdates(parse, a + b) == AllUpdates(parse, a) + AllUpdates(parse, b)
  {
    if a == [] {
      assert a + b == b;
    } else {
      assert (a + b)[1..] == a[1..] + b;
      AllUpdatesAppend(parse, a[1..], b);
    }
  }

  lemma OneUpdate(parse: Reader, doc: Doc)
    ensures AllUpdates(parse, [doc]) == [Updates(parse, doc)]
  {
    var one: seq<Doc> := [doc];
    assert one[1..] == [];
  }

  lemma {:induction false} CompactDocsOpen(parse: Reader, docs: seq<Doc>, wanted: set<(Id, nat)>)
    ensures AllUpdates(parse, CompactDocs(parse, docs, wanted)) == Compact(AllUpdates(parse, docs), wanted)
    ensures forall i :: 0 <= i < |CompactDocs(parse, docs, wanted)| ==> CompactDocs(parse, docs, wanted)[i] in docs
    decreases |docs|
  {
    if docs != [] {
      var keys := KeysOf(Updates(parse, docs[0]));
      var kept := CompactDocs(parse, docs[1..], wanted - keys);
      CompactDocsOpen(parse, docs[1..], wanted - keys);
      assert AllUpdates(parse, docs)[1..] == AllUpdates(parse, docs[1..]);
      if keys * wanted != {} {
        assert ([docs[0]] + kept)[1..] == kept;
      } else {
        assert [] + kept == kept;
      }
    }
  }

  /** Recording documents is recording their updates. */
  lemma RecordOpens(parse: Reader, f: Filters, h: Carried, doc: Doc)
    requires Accepts(parse, f, doc)
    ensures var (f', h') := RecordDoc(parse, f, h, doc);
      Record(f, Opened(parse, h), Updates(parse, doc)) == (f', Opened(parse, h'))
  {
    var f' := Apply(f, Updates(parse, doc)).value;
    AllUpdatesAppend(parse, h.deltas, [doc]);
    OneUpdate(parse, doc);
    CompactDocsOpen(parse, h.deltas + [doc], Current(f'));
  }

  // ---- turns -------------------------------------------------------------

  /** A turn with its document, if any; one that is refused ends the turn with an error and changes nothing. */
  function Ticked(parse: Reader, f: Filters, h: Carried, tick: Option<Doc>): (Filters, Carried) {
    if tick.Some? && Accepts(parse, f, tick.value) then RecordDoc(parse, f, h, tick.value) else (f, h)
  }

  /** The stream that keeps filters and history in memory. */
  function Memory(parse: Reader, f0: Filters, ticks: seq<Option<Doc>>): (Filters, Carried) {
    if ticks == [] then (f0, HistoryToken.EMPTY)
    else
      var (f, h) := Memory(parse, f0, ticks[..|ticks|-1]);
      Ticked(parse, f, h, ticks[|ticks|-1])
  }

  /** The bytes that carry a history to the next turn: none when no delta is kept. */
  function TokenOf(h: Carried): seq<Byte> {
    if h.deltas == [] then [] else HistoryToken.Layout(h.deltas, HistoryToken.EncodeIds(h.order))
  }

  predicate Readable(parse: Reader, docs: seq<Doc>) {
    forall i :: 0 <= i < |docs| ==> ReadDoc(parse, docs[i]).Some?
  }

  /** What a turn starts from, given nothing but the first snapshot and the token. */
  function Rebuild(parse: Reader, f0: Filters, token: seq<Byte>): Result<(Filters, Carried)> {
    match HistoryToken.Decode(token)
    case Err(e) => Err(e)
    case Ok(h) =>
      if !Readable(parse, h.deltas) then Err("not a filter document")
      else
        match Replay(f0, Opened(parse, h))
        case Err(e) => Err(e)
        case Ok(f) => Ok((f, h))
  }

  function Turn(parse: Reader, f0: Filters, token: seq<Byte>, tick: Option<Doc>): Result<seq<Byte>> {
    match Rebuild(parse, f0, token)
    case Err(e) => Err(e)
    case Ok((f, h)) => Ok(TokenOf(Ticked(parse, f, h, tick).1))
  }

  /** The HTTP stream: the token after these turns, or the failure of one of them. */
  function Http(parse: Reader, f0: Filters, ticks: seq<Option<Doc>>): Result<seq<Byte>> {
    if ticks == [] then Ok([])
    else
      match Http(parse, f0, ticks[..|ticks|-1])
      case Err(e) => Err(e)
      case Ok(token) => Turn(parse, f0, token, ticks[|ticks|-1])
  }

  method ReadDocs(parse: Reader, docs: seq<Doc>) returns (r: Option<seq<Delta>>)
    ensures r.Some? <==> Readable(parse, docs)
    ensures r.Some? ==> r.value == AllUpdates(parse, docs)
  {
    var read := [];
    for i := 0 to |docs|
      invariant Readable(parse, docs[..i]) && read == AllUpdates(parse, docs[..i])
    {
      if ReadDoc(parse, docs[i]).None? { return None; }
      assert docs[..i+1] == docs[..i] + [docs[i]];
      AllUpdatesAppend(parse, docs[..i], [docs[i]]);
      OneUpdate(parse, docs[i]);
      read := read + [ReadDoc(parse, docs[i]).value];
    }
    assert docs[..|docs|] == docs;
    r := Some(read);
  }

  /** One turn as it is served: open the token, replay, take the delta, seal the next token. */
  method ServeTurn(parse: Reader, f0: Filters, token: seq<Byte>, tick: Option<Doc>) returns (r: Result<seq<Byte>>)
    ensures r.Ok? <==> Turn(parse, f0, token, tick).Ok?
    ensures r.Ok? ==> r == Turn(parse, f0, token, tick)
  {
    var carried := HistoryToken.DecodeFilterHistory(token);
    if carried.Err? { return Err(carried.error); }
    var deltas := ReadDocs(parse, carried.value.deltas);
    if deltas.None? { return Err("not a filter document"); }
    var filters := ReplayHistory(f0, History(deltas.value, carried.value.order));
    if filters.Err? { return Err(filters.error); }
    var h := carried.value;
    if tick.Some? {
      var recorded := RecordFilterDelta(parse, filters.value, h, tick.value);
      if recorded.Ok? { h := recorded.value.1; }
    }
    var bytes := HistoryToken.EncodeFilterHistory(h);
    r := Ok(if bytes.None? then [] else bytes.value[..]);
  }

  // ---- what holds at every moment ----------------------------------------

  ghost predicate Snapshot(f0: Filters) {
    && Valid(f0) && |f0.revisions.Keys| <= MAX_PREDICATE_IDS
    && forall id :: id in f0.revisions ==> ValidId(id)
  }

  lemma {:induction false} MemoryInv(parse: Reader, f0: Filters, ticks: seq<Option<Doc>>)
    requires Snapshot(f0)
    ensures var (f, h) := Memory(parse, f0, ticks); Inv(f0, f, Opened(parse, h))
  {
    if ticks != [] {
      var n := |ticks| - 1;
      var (f, h) := Memory(parse, f0, ticks[..n]);
      MemoryInv(parse, f0, ticks[..n]);
      hide Inv;
      if ticks[n].Some? && Accepts(parse, f, ticks[n].value) {
        RecordKeepsInv(f0, f, Opened(parse, h), Updates(parse, ticks[n].value));
        RecordOpens(parse, f, h, ticks[n].value);
      }
    }
  }

  /** The carried documents were all accepted, and every id was checked. */
  lemma {:induction false} MemoryIsChecked(parse: Reader, f0: Filters, ticks: seq<Option<Doc>>)
    requires Snapshot(f0)
    ensures var (f, h) := Memory(parse, f0, ticks);
      Readable(parse, h.deltas) && forall id :: id in f.revisions ==> ValidId(id)
  {
    if ticks != [] {
      var n := |ticks| - 1;
      var (f, h) := Memory(parse, f0, ticks[..n]);
      MemoryIsChecked(parse, f0, ticks[..n]);
      if ticks[n].Some? && Accepts(parse, f, ticks[n].value) {
        var doc := ticks[n].value;
        var d := Updates(parse, doc);
        CheckedIds(f, d);
        CompactDocsOpen(parse, h.deltas + [doc], Current(Apply(f, d).value));
      }
    }
  }

  lemma CheckedIds(f: Filters, d: Delta)
    requires Apply(f, d).Ok? && forall id :: id in f.revisions ==> ValidId(id)
    ensures forall id :: id in Apply(f, d).value.revisions ==> ValidId(id)
  {
    hide ValidId;
    InstallAllIds(f, Fresh(f, d));
    FreshIds(f, d);
    forall id | id in IdsOf(d) ensures ValidId(id) {
      var i :| 0 <= i < |d| && d[i].id == id;
      assert Admissible(f.required, d[i]);
    }
  }

  /** The token holds at most one document per predicate id ever seen. */
  lemma {:induction false} HistoryIsBounded(parse: Reader, f0: Filters, ticks: seq<Option<Doc>>)
    ensures var (f, h) := Memory(parse, f0, ticks); |h.deltas| <= |f.revisions|
  {
    if ticks != [] {
      var n := |ticks| - 1;
      var (f, h) := Memory(parse, f0, ticks[..n]);
      HistoryIsBounded(parse, f0, ticks[..n]);
      if ticks[n].Some? && Accepts(parse, f, ticks[n].value) {
        var (f', h') := RecordDoc(parse, f, h, ticks[n].value);
        RecordOpens(parse, f, h, ticks[n].value);
        CompactIsBounded(Opened(parse, h).deltas + [Updates(parse, ticks[n].value)], Current(f'));
        CurrentCount(f');
        SameCount(parse, h'.deltas);
      }
    }
  }

  lemma {:induction false} SameCount(parse: Reader, docs: seq<Doc>)
    ensures |AllUpdates(parse, docs)| == |docs|
  {
    if docs != [] { SameCount(parse, docs[1..]); }
  }

  /** Counts and lengths always fit the token's 32-bit fields: the limits on documents and ids see to it. */
  lemma TokenFits(parse: Reader, f0: Filters, ticks: seq<Option<Doc>>)
    requires Snapshot(f0)
    ensures var (f, h) := Memory(parse, f0, ticks);
      HistoryToken.Fits(h.deltas) && (h.deltas != [] ==> HistoryToken.Fits(HistoryToken.EncodeIds(h.order)))
  {
    var (f, h) := Memory(parse, f0, ticks);
    MemoryInv(parse, f0, ticks);
    MemoryIsChecked(parse, f0, ticks);
    HistoryIsBounded(parse, f0, ticks);
    assert |f.revisions| == |f.revisions.Keys|;
    SameCount(parse, h.deltas);
    if h.deltas != [] {
      assert Opened(parse, h).deltas != [];
      DistinctCount(h.order);
      FilterHistory.Fits((set id | id in h.order), f.revisions.Keys);
      forall i | 0 <= i < |h.order| ensures |Utf8.Encode(h.order[i])| < TWO_32 {
        assert h.order[i] in f.order && h.order[i] in f.live && ValidId(h.order[i]);
      }
    }
  }

  // ---- ids that do not survive the token ---------------------------------

  function TotalWeight(ids: seq<Id>): nat {
    if ids == [] then 0 else Utf8.Weight(ids[0]) + TotalWeight(ids[1..])
  }

  lemma {:induction false} WeightWithout(ids: seq<Id>, j: nat)
    requires j < |ids|
    ensures TotalWeight(ids) == Utf8.Weight(ids[j]) + TotalWeight(ids[..j] + ids[j+1..])
  {
    var rest := ids[..j] + ids[j+1..];
    if j == 0 {
      assert rest == ids[1..];
    } else {
      WeightWithout(ids[1..], j - 1);
      assert rest[0] == ids[0] && rest[1..] == ids[1..][..j-1] + ids[1..][j..];
    }
  }

  /** Distinct ids that all occur among `b` weigh no more than `b`. */
  lemma {:induction false} PartWeighsLess(a: seq<Id>, b: seq<Id>)
    requires NoRepeats(a) && forall x :: x in a ==> x in b
    ensures TotalWeight(a) <= TotalWeight(b)
  {
    if a != [] {
      assert a[0] in b;
      var j :| 0 <= j < |b| && b[j] == a[0];
      WeightWithout(b, j);
      forall x | x in a[1..] ensures x in b[..j] + b[j+1..] {
        var i :| 0 <= i < |a[1..]| && a[1..][i] == x;
        assert a[i+1] == x && x in a && x != a[0];
        var k :| 0 <= k < |b| && b[k] == x;
        assert (b[..j] + b[j+1..])[if k < j then k else k - 1] == x;
      }
      PartWeighsLess(a[1..], b[..j] + b[j+1..]);
    }
  }

  lemma {:induction false} CarryingWeighsLess(ids: seq<Id>)
    ensures TotalWeight(Map(ids, Utf8.Carried)) <= TotalWeight(ids)
    ensures (exists i :: 0 <= i < |ids| && !Utf8.Survives(ids[i]))
      ==> TotalWeight(Map(ids, Utf8.Carried)) < TotalWeight(ids)
  {
    if ids != [] {
      Utf8.CarryingLoses(ids[0]);
      CarryingWeighsLess(ids[1..]);
      assert Map(ids, Utf8.Carried)[1..] == Map(ids[1..], Utf8.Carried);
      if i :| 0 <= i < |ids| && !Utf8.Survives(ids[i]) && i > 0 { assert !Utf8.Survives(ids[1..][i-1]); }
    }
  }

  /** The order that comes back names the live ids only if each of them came back as it was. */
  lemma CarriedOrder(order: seq<Id>, live: map<Id, Predicate>)
    requires NoRepeats(order) && forall id :: id in order <==> id in live
    ensures SameIds(Map(order, Utf8.Carried), live) <==> forall id :: id in order ==> Utf8.Survives(id)
    ensures (forall id :: id in order ==> Utf8.Survives(id)) ==> Map(order, Utf8.Carried) == order
  {
    var back := Map(order, Utf8.Carried);
    if SameIds(back, live) {
      DistinctCount(back);
      SubsetOfSize((set x | x in back), live.Keys);
      PartWeighsLess(order, back);
      CarryingWeighsLess(order);
    }
    if forall id :: id in order ==> Utf8.Survives(id) {
      forall i | 0 <= i < |order| ensures back[i] == order[i] { Utf8.CarriedIff(order[i]); }
      assert back == order;
      OrderCounts(order, live);
    }
  }

  lemma SubsetOfSize<T>(a: set<T>, b: set<T>)
    requires a <= b && |a| == |b|
    ensures a == b
  {
    assert b == a + (b - a);
  }

  // ---- HTTP against memory -----------------------------------------------

  /**
   A turn can start from what these turns left: no delta is kept, or no update that
   does not parse wakes and every live id passes through the token unharmed.
   */
  ghost predicate Resumable(parse: Reader, f0: Filters, ticks: seq<Option<Doc>>) {
    var (f, h) := Memory(parse, f0, ticks);
    h.deltas != [] ==>
      !Wakes(f0, AllUpdates(parse, h.deltas)) && forall id :: id in f.order ==> Utf8.Survives(id)
  }

  /** Rebuilding from the token succeeds exactly then, and gives the filters that are in memory. */
  lemma RebuildIff(parse: Reader, f0: Filters, ticks: seq<Option<Doc>>)
    requires Snapshot(f0)
    ensures var (f, h) := Memory(parse, f0, ticks);
      && (Rebuild(parse, f0, TokenOf(h)).Ok? <==> Resumable(parse, f0, ticks))
      && (Resumable(parse, f0, ticks) ==>
           Rebuild(parse, f0, TokenOf(h)) == Ok((f, if h.deltas == [] then HistoryToken.EMPTY else h)))
  {
    var (f, h) := Memory(parse, f0, ticks);
    MemoryInv(parse, f0, ticks);
    MemoryIsChecked(parse, f0, ticks);
    SameCount(parse, h.deltas);
    if h.deltas == [] {
      ReplayRebuilds(f0, f, Opened(parse, h));
    } else {
      TokenFits(parse, f0, ticks);
      HistoryToken.EncodedDecodes(h);
      ReplayAllRebuilds(f0, f, Opened(parse, h));
      CarriedOrder(f.order, f.live);
      OrderDecides(f0, f, Opened(parse, h));
    }
  }

  lemma OrderDecides(f0: Filters, f: Filters, h: History)
    requires Valid(f) && h.deltas != [] && h.order == f.order
    requires ReplayAll(f0, h.deltas).Ok? ==>
      var g := ReplayAll(f0, h.deltas).value; Valid(g) && g.(order := f.order) == f
    ensures var back := Map(f.order, Utf8.Carried);
      && (Replay(f0, History(h.deltas, back)).Ok? <==> ReplayAll(f0, h.deltas).Ok? && SameIds(back, f.live))
      && (Replay(f0, History(h.deltas, f.order)).Ok? ==> Replay(f0, History(h.deltas, f.order)) == Ok(f))
  {
    hide ReplayAll, Valid, SameIds, WithOrder, Utf8.Carried;
    if ReplayAll(f0, h.deltas).Ok? {
      var g := ReplayAll(f0, h.deltas).value;
      Reordered(g, f, Map(f.order, Utf8.Carried));
      Reordered(g, f, f.order);
    }
  }

  /** An order is accepted exactly when it names the live ids; the right one gives the right filters. */
  lemma Reordered(g: Filters, f: Filters, order: seq<Id>)
    requires Valid(g) && g.(order := f.order) == f
    ensures WithOrder(g, order).Ok? <==> SameIds(order, f.live)
    ensures WithOrder(g, order).Ok? && order == f.order ==> WithOrder(g, order) == Ok(f)
  {
    OrderCounts(g.order, g.live);
  }

  /**
   While no turn fails, the token is the in-memory history's. The next turn then
   fails exactly when what is carried cannot be resumed from, and otherwise starts
   with the in-memory filters.
   */
  lemma {:induction false} HttpFollowsMemory(parse: Reader, f0: Filters, ticks: seq<Option<Doc>>)
    requires Snapshot(f0) && Http(parse, f0, ticks).Ok?
    ensures var (f, h) := Memory(parse, f0, ticks); var token := Http(parse, f0, ticks).value;
      && token == TokenOf(h)
      && (Rebuild(parse, f0, token).Ok? <==> Resumable(parse, f0, ticks))
      && (Rebuild(parse, f0, token).Ok? ==> Rebuild(parse, f0, token).value.0 == f)
  {
    if ticks != [] {
      HttpFollowsMemory(parse, f0, ticks[..|ticks|-1]);
      RebuildIff(parse, f0, ticks[..|ticks|-1]);
    }
    RebuildIff(parse, f0, ticks);
  }

  ghost predicate ResumableAfter(parse: Reader, f0: Filters, ticks: seq<Option<Doc>>, k: nat)
    requires k <= |ticks|
  {
    Resumable(parse, f0, ticks[..k])
  }

  lemma ShorterRun(parse: Reader, f0: Filters, ticks: seq<Option<Doc>>, n: nat, k: nat)
    requires k <= n <= |ticks|
    ensures ResumableAfter(parse, f0, ticks[..n], k) <==> ResumableAfter(parse, f0, ticks, k)
  {
    hide Resumable;
    assert ticks[..n][..k] == ticks[..k];
  }

  lemma ShorterRuns(parse: Reader, f0: Filters, ticks: seq<Option<Doc>>, n: nat)
    requires n <= |ticks|
    ensures (forall k :: 0 <= k < n ==> ResumableAfter(parse, f0, ticks[..n], k))
      <==> (forall k :: 0 <= k < n ==> ResumableAfter(parse, f0, ticks, k))
  {
    forall k | 0 <= k < n
      ensures ResumableAfter(parse, f0, ticks[..n], k) <==> ResumableAfter(parse, f0, ticks, k)
    {
      ShorterRun(parse, f0, ticks, n, k);
    }
    hide *;
  }

  lemma OneMoreTurn(parse: Reader, f0: Filters, ticks: seq<Option<Doc>>)
    requires Snapshot(f0) && ticks != []
    ensures var before := ticks[..|ticks|-1];
      Http(parse, f0, ticks).Ok? <==> Http(parse, f0, before).Ok? && ResumableAfter(parse, f0, ticks, |ticks| - 1)
  {
    var before := ticks[..|ticks|-1];
    if Http(parse, f0, before).Ok? { HttpFollowsMemory(parse, f0, before); }
    hide Snapshot, Memory, Rebuild, Resumable;
  }

  /** An HTTP stream gets through these turns exactly when each of them can start from what those before it left. */
  lemma {:induction false} HttpIff(parse: Reader, f0: Filters, ticks: seq<Option<Doc>>)
    requires Snapshot(f0)
    ensures Http(parse, f0, ticks).Ok? <==> forall k :: 0 <= k < |ticks| ==> ResumableAfter(parse, f0, ticks, k)
    decreases |ticks|
  {
    hide Snapshot, Resumable, ResumableAfter, Turn, Memory;
    if ticks != [] {
      var n := |ticks| - 1;
      HttpIff(parse, f0, ticks[..n]);
      OneMoreTurn(parse, f0, ticks);
      hide Http;
      ShorterRuns(parse, f0, ticks, n);
    }
  }

  /** Documents that parse whole, and whose upserts are of ids that survive the token. */
  ghost predicate WellBehaved(parse: Reader, ticks: seq<Option<Doc>>) {
    forall i :: 0 <= i < |ticks| && ticks[i].Some? ==> GoodDelta(Updates(parse, ticks[i].value))
  }

  ghost predicate GoodDelta(d: Delta) { Parses(d) && SafeIds(d) }

  ghost predicate SafeIds(d: Delta) { forall i :: 0 <= i < |d| && d[i].Upsert? ==> Utf8.Survives(d[i].id) }

  ghost predicate GoodState(parse: Reader, f: Filters, docs: seq<Doc>) {
    && (forall i :: 0 <= i < |docs| ==> Parses(Updates(parse, docs[i])))
    && forall id :: id in f.order ==> Utf8.Survives(id)
  }

  lemma LiveIdsSurvive(f: Filters, d: Delta)
    requires Valid(f) && Apply(f, d).Ok? && SafeIds(d)
    requires forall id :: id in f.order ==> Utf8.Survives(id)
    ensures forall id :: id in Apply(f, d).value.order ==> Utf8.Survives(id)
  {
    var f' := Apply(f, d).value;
    forall id | id in f'.order ensures Utf8.Survives(id) {
      ApplyTrack(f, d, id);
      FindId(d, id);
      assert TrackOf(f', id).live.Some?;
      if TrackOf(f, id).live.None? {
        var u := Find(d, id).value;
        var i :| 0 <= i < |d| && d[i] == u;
        assert d[i].Upsert?;
      }
    }
  }

  lemma {:induction false} MemoryIsGood(parse: Reader, f0: Filters, ticks: seq<Option<Doc>>)
    requires Snapshot(f0) && WellBehaved(parse, ticks) && forall id :: id in f0.order ==> Utf8.Survives(id)
    ensures var (f, h) := Memory(parse, f0, ticks); GoodState(parse, f, h.deltas)
  {
    if ticks != [] {
      var n := |ticks| - 1;
      var (f, h) := Memory(parse, f0, ticks[..n]);
      MemoryIsGood(parse, f0, ticks[..n]);
      if ticks[n].Some? && Accepts(parse, f, ticks[n].value) {
        var d := Updates(parse, ticks[n].value);
        MemoryInv(parse, f0, ticks[..n]);
        assert GoodDelta(d);
        LiveIdsSurvive(f, d);
        CompactDocsOpen(parse, h.deltas + [ticks[n].value], Current(Apply(f, d).value));
      }
    }
  }

  lemma GoodNeverWakes(parse: Reader, f0: Filters, docs: seq<Doc>)
    requires forall i :: 0 <= i < |docs| ==> Parses(Updates(parse, docs[i]))
    ensures !Wakes(f0, AllUpdates(parse, docs))
  {
    var ds := AllUpdates(parse, docs);
    forall k | 0 <= k < |ds| ensures Parses(Awake(f0, ds[..k], ds[k])) {
      UpdatesAt(parse, docs, k);
      AwakeParses(f0, ds[..k], ds[k]);
    }
  }

  lemma {:induction false} UpdatesAt(parse: Reader, docs: seq<Doc>, k: nat)
    requires k < |AllUpdates(parse, docs)|
    ensures k < |docs| && AllUpdates(parse, docs)[k] == Updates(parse, docs[k])
  {
    if k > 0 { UpdatesAt(parse, docs[1..], k - 1); }
  }

  lemma GoodIsResumable(parse: Reader, f0: Filters, ticks: seq<Option<Doc>>)
    requires Snapshot(f0) && WellBehaved(parse, ticks) && forall id :: id in f0.order ==> Utf8.Survives(id)
    ensures Resumable(parse, f0, ticks)
  {
    MemoryIsGood(parse, f0, ticks);
    GoodNeverWakes(parse, f0, Memory(parse, f0, ticks).1.deltas);
  }

  /**
   A client whose documents parse whole and whose ids survive the token never fails
   a turn: HTTP and memory agree after every sequence of turns.
   */
  lemma WellFormedStreamsAgree(parse: Reader, f0: Filters, ticks: seq<Option<Doc>>)
    requires Snapshot(f0) && WellBehaved(parse, ticks) && forall id :: id in f0.order ==> Utf8.Survives(id)
    ensures var (f, h) := Memory(parse, f0, ticks);
      && Http(parse, f0, ticks) == Ok(TokenOf(h))
      && Rebuild(parse, f0, TokenOf(h)).Ok? && Rebuild(parse, f0, TokenOf(h)).value.0 == f
  {
    forall k | 0 <= k <= |ticks| ensures ResumableAfter(parse, f0, ticks, k) {
      GoodIsResumable(parse, f0, ticks[..k]);
    }
    GoodIsResumable(parse, f0, ticks);
    HttpIff(parse, f0, ticks);
    HttpFollowsMemory(parse, f0, ticks);
    hide Resumable, Http, Memory, Rebuild;
  }
}
