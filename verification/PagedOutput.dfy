/**
 Continued output: one input batch answered by several replies, each resumed from
 a small saved position, against the one-shot fan-out it must add up to.
 */
module PagedOutput {
  import opened Seqs

  /** An output row and the input row it came from. */
  datatype Out = Out(value: int, parent: int)

  function ParentOf(o: Out): int { o.parent }

  /** Fan-out counts of an input column: null and negative count as zero. */
  function FanOutCounts(raw: seq<Option<int>>): seq<nat> {
    Map(raw, (r: Option<int>) => if r.None? || r.value < 0 then 0 else r.value)
  }

  method ReadCounts(raw: seq<Option<int>>) returns (counts: seq<nat>)
    ensures counts == FanOutCounts(raw)
    ensures forall i :: 0 <= i < |raw| ==> counts[i] == if raw[i].Some? && raw[i].value > 0 then raw[i].value else 0
  {
    counts := [];
    for row := 0 to |raw|
      invariant counts == FanOutCounts(raw)[..row]
    {
      counts := counts + [if raw[row].None? || raw[row].value < 0 then 0 else raw[row].value];
    }
  }

  // ---- the one-shot fan-out ----------------------------------------------

  /** The values `lo .. hi-1` of one input row. */
  function Part(row: nat, lo: nat, hi: nat): (r: seq<Out>)
    ensures |r| == (if lo <= hi then hi - lo else 0)
    decreases hi - lo
  {
    if lo >= hi then [] else [Out(lo, row)] + Part(row, lo + 1, hi)
  }

  lemma {:induction false} PartSplit(row: nat, lo: nat, mid: nat, hi: nat)
    requires lo <= mid <= hi
    ensures Part(row, lo, hi) == Part(row, lo, mid) + Part(row, mid, hi)
    decreases mid - lo
  {
    if lo < mid { PartSplit(row, lo + 1, mid, hi); }
  }

  lemma PartLast(row: nat, lo: nat, hi: nat)
    requires lo <= hi
    ensures Part(row, lo, hi + 1) == Part(row, lo, hi) + [Out(hi, row)]
  {
    PartSplit(row, lo, hi, hi + 1);
    assert Part(row, hi, hi + 1) == [Out(hi, row)] + Part(row, hi + 1, hi + 1);
  }

  function FanFrom(counts: seq<nat>, row: nat): seq<Out>
    decreases |counts| - row
  {
    if row >= |counts| then [] else Part(row, 0, counts[row]) + FanFrom(counts, row + 1)
  }

  method TakeRows(row: nat, offset: nat, take: nat) returns (rows: seq<Out>)
    ensures rows == Part(row, offset, offset + take)
  {
    rows := [];
    for k := 0 to take
      invariant rows == Part(row, offset, offset + k)
    {
      PartLast(row, offset, offset + k);
      rows := rows + [Out(offset + k, row)];
    }
  }

  /** `blended_explode`: the integers `0 .. n-1` for each input row, in order. */
  function Fan(counts: seq<nat>): seq<Out> { FanFrom(counts, 0) }

  /** Input row `o.parent` asks for the value `o.value`. */
  predicate Asked(raw: seq<Option<int>>, o: Out) {
    0 <= o.parent < |raw| && raw[o.parent].Some? && 0 <= o.value < raw[o.parent].value
  }

  predicate ByParent(a: Out, b: Out) { a.parent < b.parent || (a.parent == b.parent && a.value < b.value) }

  lemma {:induction false} PartInOrder(row: nat, lo: nat, hi: nat)
    ensures forall i :: 0 <= i < |Part(row, lo, hi)| ==> Part(row, lo, hi)[i] == Out(lo + i, row)
    decreases hi - lo
  {
    if lo < hi { PartInOrder(row, lo + 1, hi); }
  }

  lemma PartMembers(row: nat, hi: nat, o: Out)
    ensures o in Part(row, 0, hi) <==> o.parent == row && 0 <= o.value < hi
  {
    PartInOrder(row, 0, hi);
    if o.parent == row && 0 <= o.value < hi { assert Part(row, 0, hi)[o.value] == o; }
  }

  lemma {:induction false} FanMembers(counts: seq<nat>, row: nat, o: Out)
    ensures o in FanFrom(counts, row) <==> row <= o.parent < |counts| && 0 <= o.value < counts[o.parent]
    decreases |counts| - row
  {
    if row < |counts| {
      PartMembers(row, counts[row], o);
      FanMembers(counts, row + 1, o);
    }
  }

  lemma {:induction false} FanInOrder(counts: seq<nat>, row: nat)
    ensures forall i, j :: 0 <= i < j < |FanFrom(counts, row)| ==>
      ByParent(FanFrom(counts, row)[i], FanFrom(counts, row)[j])
    decreases |counts| - row
  {
    if row < |counts| {
      var head, tail := Part(row, 0, counts[row]), FanFrom(counts, row + 1);
      PartInOrder(row, 0, counts[row]);
      FanInOrder(counts, row + 1);
      forall j | 0 <= j < |tail| ensures tail[j].parent > row {
        assert tail[j] in tail;
        FanMembers(counts, row + 1, tail[j]);
      }
    }
  }

  /** The fan-out has exactly the rows that were asked for, each once, by input row and then by value. */
  lemma FanMeans(raw: seq<Option<int>>)
    ensures forall o :: o in Fan(FanOutCounts(raw)) <==> Asked(raw, o)
    ensures var out := Fan(FanOutCounts(raw)); forall i, j :: 0 <= i < j < |out| ==> ByParent(out[i], out[j])
  {
    forall o ensures o in Fan(FanOutCounts(raw)) <==> Asked(raw, o) { FanMembers(FanOutCounts(raw), 0, o); }
    FanInOrder(FanOutCounts(raw), 0);
  }

  method Explode(raw: seq<Option<int>>) returns (out: seq<Out>)
    ensures out == Fan(FanOutCounts(raw))
    ensures forall o :: o in out <==> Asked(raw, o)
    ensures forall i, j :: 0 <= i < j < |out| ==> ByParent(out[i], out[j])
  {
    FanMeans(raw);
    var counts := ReadCounts(raw);
    out := [];
    for row := 0 to |counts|
      invariant out + FanFrom(counts, row) == Fan(counts)
    {
      var rows := TakeRows(row, 0, counts[row]);
      Assoc(out, rows, FanFrom(counts, row + 1));
      out := out + rows;
    }
  }

  // ---- one page ----------------------------------------------------------

  predicate Position(counts: seq<nat>, row: nat, offset: nat) {
    row <= |counts| && (if row < |counts| then offset <= counts[row] else offset == 0)
  }

  /** The output after a position. */
  function Rest(counts: seq<nat>, row: nat, offset: nat): seq<Out>
    requires Position(counts, row, offset)
  {
    if row == |counts| then [] else Part(row, offset, counts[row]) + FanFrom(counts, row + 1)
  }

  datatype Page = Page(rows: seq<Out>, more: bool)

  function PageRows(p: Page): seq<Out> { p.rows }

  lemma RestAdvance(counts: seq<nat>, row: nat, offset: nat)
    requires Position(counts, row, offset) && row < |counts| && offset == counts[row]
    ensures Position(counts, row + 1, 0) && Rest(counts, row, offset) == Rest(counts, row + 1, 0)
  {
  }

  lemma RestTake(counts: seq<nat>, row: nat, offset: nat, take: nat)
    requires Position(counts, row, offset) && row < |counts| && offset + take <= counts[row]
    ensures Rest(counts, row, offset) == Part(row, offset, offset + take) + Rest(counts, row, offset + take)
  {
    PartSplit(row, offset, offset + take, counts[row]);
  }

  /** Where the position moves after taking rows of the current input row. */
  function Moved(counts: seq<nat>, row: nat, offset: nat): (nat, nat)
    requires row < |counts|
  {
    if offset == counts[row] then (row + 1, 0) else (row, offset)
  }

  lemma FillStep(counts: seq<nat>, row: nat, offset: nat, rows: seq<Out>, taken: seq<Out>, whole: seq<Out>)
    requires Position(counts, row, offset) && row < |counts| && offset + |taken| <= counts[row]
    requires taken == Part(row, offset, offset + |taken|)
    requires rows + Rest(counts, row, offset) == whole
    ensures var (r, o) := Moved(counts, row, offset + |taken|);
      Position(counts, r, o) && (rows + taken) + Rest(counts, r, o) == whole
  {
    hide Rest, Part;
    var o := offset + |taken|;
    var rest := Rest(counts, row, o);
    RestTake(counts, row, offset, |taken|);
    if o == counts[row] { RestAdvance(counts, row, o); }
  }

  // ---- the replies -------------------------------------------------------

  /** Cutting an output into replies of `size` rows; an empty output is still one reply. */
  function Pages(rows: seq<Out>, size: nat): seq<Page>
    requires size > 0
    decreases |rows|
  {
    if |rows| <= size then [Page(rows, false)]
    else [Page(rows[..size], true)] + Pages(rows[size..], size)
  }

  function ReplyCount(total: nat, size: nat): nat
    requires size > 0
  {
    if total == 0 then 1 else CeilDiv(total, size)
  }

  /**
   The replies add up to the output; every reply but the last is full and says
   more, the last says no more; and there are `max(1, ceil(total / size))` of them.
   */
  lemma {:induction false} PagesFacts(rows: seq<Out>, size: nat)
    requires size > 0
    ensures FlatMap(Pages(rows, size), PageRows) == rows
    ensures |Pages(rows, size)| == ReplyCount(|rows|, size)
    ensures var ps := Pages(rows, size);
      forall i :: 0 <= i < |ps| ==> ps[i].more == (i < |ps| - 1) && (ps[i].more ==> |ps[i].rows| == size)
    decreases |rows|
  {
    if |rows| > size {
      var tail := Pages(rows[size..], size);
      PagesFacts(rows[size..], size);
      assert ([Page(rows[..size], true)] + tail)[1..] == tail;
      assert rows == rows[..size] + rows[size..];
      CeilDivStep(|rows| - size, size);
    } else {
      assert Pages(rows, size)[1..] == [];
      if |rows| > 0 { DivUnique(|rows| + size - 1, size, 1, |rows| - 1); }
    }
  }

  // ---- a whole exchange --------------------------------------------------

  const MAX_SAFE_INTEGER: nat := 9007199254740991

  datatype Args = Args(pageSize: nat, failOnPage: int, revalidate: bool, notModifiedMore: bool, cacheTtl: int)

  /** What the first reply tells a caching client. */
  datatype CacheControl = CacheControl(ttl: int, etag: Option<string>, revalidatable: bool, notModified: bool)

  function Bump(o: Out, amount: int): Out { Out(o.value + amount, o.parent) }

  function BumpAll(rows: seq<Out>, amount: int): seq<Out> { Map(rows, (o: Out) => Bump(o, amount)) }

  /** The replies an input is owed, before any asked-for failure. */
  function Owed(args: Args, conditional: bool, counts: seq<nat>): seq<Page>
    requires args.pageSize > 0
  {
    if !args.revalidate then Pages(Fan(counts), args.pageSize)
    else if !conditional then Pages(Fan(counts), MAX_SAFE_INTEGER)
    else (if args.notModifiedMore then [Page([], true)] else []) + Pages(BumpAll(Fan(counts), 1000), args.pageSize)
  }

  /** What the client receives, and whether the exchange ended in the failure asked for. */
  function Exchange(args: Args, conditional: bool, counts: seq<nat>): (seq<Page>, bool)
    requires args.pageSize > 0
  {
    var owed := Owed(args, conditional, counts);
    if 1 <= args.failOnPage <= |owed| then (owed[..args.failOnPage - 1], true) else (owed, false)
  }

  /** Fill a page from a position on; it may span input rows. */
  method FillPage(counts: seq<nat>, row0: nat, offset0: nat, size: nat)
    returns (rows: seq<Out>, row: nat, offset: nat)
    requires Position(counts, row0, offset0) && size > 0
    ensures Position(counts, row, offset)
    ensures rows + Rest(counts, row, offset) == Rest(counts, row0, offset0) && |rows| <= size
    ensures row < |counts| ==> |rows| == size && (offset < counts[row] || offset == 0)
  {
    rows, row, offset := [], row0, offset0;
    ghost var whole := Rest(counts, row0, offset0);
    while row < |counts| && |rows| < size
      invariant Position(counts, row, offset)
      invariant rows + Rest(counts, row, offset) == whole && |rows| <= size
      invariant row < |counts| ==> offset < counts[row] || offset == 0 || |rows| < size
      decreases |counts| - row, size - |rows|
    {
      rows, row, offset := TakeFromRow(counts, row, offset, size, rows, whole);
    }
  }

  /** Take what the page still has room for from the current input row. */
  method TakeFromRow(counts: seq<nat>, row: nat, offset: nat, size: nat, rows: seq<Out>, ghost whole: seq<Out>)
    returns (rows': seq<Out>, row': nat, offset': nat)
    requires Position(counts, row, offset) && row < |counts| && |rows| < size
    requires rows + Rest(counts, row, offset) == whole
    ensures Position(counts, row', offset') && rows' + Rest(counts, row', offset') == whole
    ensures |rows| <= |rows'| <= size && row <= row'
    ensures row' == row ==> |rows'| > |rows|
    ensures row' < |counts| ==> offset' < counts[row'] || offset' == 0
  {
    var take := Min(counts[row] - offset, size - |rows|);
    var taken := TakeRows(row, offset, take);
    FillStep(counts, row, offset, rows, taken, whole);
    rows' := rows + taken;
    var (r, o) := Moved(counts, row, offset + take);
    row', offset' := r, o;
  }

  /** Move past input rows that yield nothing: what is left then starts with a row, or is empty. */
  method SkipEmpty(counts: seq<nat>, row0: nat, offset: nat) returns (row: nat)
    requires Position(counts, row0, offset) && (row0 < |counts| ==> offset < counts[row0] || offset == 0)
    ensures Position(counts, row, offset) && Rest(counts, row, offset) == Rest(counts, row0, offset)
    ensures row < |counts| ==> offset < counts[row]
  {
    row := row0;
    while row < |counts| && counts[row] == 0
      invariant Position(counts, row, offset) && Rest(counts, row, offset) == Rest(counts, row0, offset)
      invariant row < |counts| ==> offset < counts[row] || offset == 0
    {
      RestAdvance(counts, row, offset);
      row := row + 1;
    }
  }

  /** The saved position of `blended_paged` and `paged_explode`, updated in place. */
  class PagedState {
    var counts: seq<nat>
    var row: nat
    var offset: nat
    var page: nat
    var emptyFirst: bool
    var bump: int
    var callRows: nat

    ghost predicate Valid() reads this { Position(counts, row, offset) }

    ghost function Unsent(): seq<Out>
      requires Valid()
      reads this
    {
      Rest(counts, row, offset)
    }

    /** A fresh state may hold anything: nothing in it survives the next input. */
    constructor (counts0: seq<nat>, row0: nat, offset0: nat, page0: nat, emptyFirst0: bool, bump0: int)
      ensures counts == counts0 && row == row0 && offset == offset0
      ensures page == page0 && emptyFirst == emptyFirst0 && bump == bump0
    {
      counts, row, offset := counts0, row0, offset0;
      page, emptyFirst, bump := page0, emptyFirst0, bump0;
      callRows := 0;
    }

    /** Start a new input, whatever was pending before, and say what its first reply tells a cache. */
    method Begin(args: Args, conditional: bool, input: seq<nat>) returns (control: Option<CacheControl>)
      modifies this
      ensures Valid() && counts == input && Unsent() == Fan(input) && page == 0
      ensures emptyFirst == (args.revalidate && conditional && args.notModifiedMore)
      ensures bump == if !args.revalidate then 0 else if conditional then 1000 else -1
      ensures control.None? <==> !args.revalidate && args.cacheTtl <= 0
      ensures control.Some? ==>
        && (control.value.notModified <==> emptyFirst)
        && control.value.ttl == (if args.revalidate then 0 else args.cacheTtl)
        && control.value.etag
          == (if !args.revalidate then None else if bump == 1000 && !emptyFirst then Some("v2") else Some("v1"))
        && control.value.revalidatable == args.revalidate
    {
      counts := input;
      row := 0;
      offset := 0;
      page := 0;
      bump := 0;
      emptyFirst := false;
      if !args.revalidate {
        return if args.cacheTtl > 0 then Some(CacheControl(args.cacheTtl, None, false, false)) else None;
      }
      if !conditional {
        bump := -1;
        return Some(CacheControl(0, Some("v1"), true, false));
      }
      bump := 1000;
      if args.notModifiedMore {
        emptyFirst := true;
        return Some(CacheControl(0, Some("v1"), true, true));
      }
      control := Some(CacheControl(0, Some("v2"), true, false));
    }

    /** Take up to `size` rows off the unsent output and say whether it has more. */
    method NextPage(size: nat) returns (p: Page)
      requires Valid() && size > 0
      modifies this`row, this`offset
      ensures Valid()
      ensures p.rows == old(Unsent())[..Min(size, |old(Unsent())|)]
      ensures Unsent() == old(Unsent())[Min(size, |old(Unsent())|)..]
      ensures p.more <==> Unsent() != []
    {
      var rows, r, o := FillPage(counts, row, offset, size);
      row, offset := r, o;
      r := SkipEmpty(counts, row, offset);
      row := r;
      p := Page(rows, row < |counts|);
    }

    /** Count a reply and produce it, unless it is the one that should fail. */
    method Next(args: Args) returns (r: Result<Page>)
      requires Valid() && args.pageSize > 0
      modifies this`row, this`offset, this`page
      ensures Valid() && page == old(page) + 1
      ensures r.Err? <==> page == args.failOnPage
      ensures r.Ok? ==>
        if page == 1 && emptyFirst then r.value == Page([], true) && Unsent() == old(Unsent())
        else
          var size := if bump < 0 then MAX_SAFE_INTEGER else args.pageSize;
          var n := Min(size, |old(Unsent())|);
          && Unsent() == old(Unsent())[n..]
          && r.value == Page(BumpAll(old(Unsent())[..n], Max(bump, 0)), Unsent() != [])
    {
      page := page + 1;
      if page == args.failOnPage { return Err("failing on page as asked"); }
      if page == 1 && emptyFirst { return Ok(Page([], true)); }
      var p;
      if bump < 0 {
        p := NextPage(MAX_SAFE_INTEGER);
      } else {
        p := NextPage(args.pageSize);
      }
      var bumped := BumpAll(p.rows, Max(bump, 0));
      assert bump <= 0 ==> bumped == p.rows;
      r := Ok(Page(bumped, p.more));
    }
  }

  /** The replies still owed in the middle of an exchange. */
  ghost function Remaining(args: Args, unsent: seq<Out>, bump: int, emptyNext: bool): seq<Page>
    requires args.pageSize > 0
  {
    (if emptyNext then [Page([], true)] else [])
      + Pages(BumpAll(unsent, Max(bump, 0)), if bump < 0 then MAX_SAFE_INTEGER else args.pageSize)
  }

  lemma BumpSlice(rows: seq<Out>, amount: int, n: nat)
    requires n <= |rows|
    ensures BumpAll(rows, amount)[..n] == BumpAll(rows[..n], amount)
    ensures BumpAll(rows, amount)[n..] == BumpAll(rows[n..], amount)
  {
  }

  /**
   A client driving one input to its last reply. The state may be left over from an
   abandoned input: the replies depend only on this input and its arguments.
   */
  method Drive(state: PagedState, args: Args, conditional: bool, raw: seq<Option<int>>)
    returns (replies: seq<Page>, failed: bool)
    requires args.pageSize > 0
    modifies state
    ensures (replies, failed) == Exchange(args, conditional, FanOutCounts(raw))
  {
    var counts := ReadCounts(raw);
    var _ := state.Begin(args, conditional, counts);
    ghost var owed := Owed(args, conditional, counts);
    OwedAtStart(args, conditional, counts, state.bump, state.emptyFirst);
    replies, failed := [], false;
    var more := true;
    while more
      invariant state.Valid() && state.page == |replies|
      invariant InProgress(args, owed, replies, more, state.Unsent(), state.bump, state.emptyFirst && state.page == 0)
      invariant !(1 <= args.failOnPage <= |replies|)
      decreases |owed| - |replies|
    {
      ProgressStep(args, owed, replies, state.Unsent(), state.bump, state.emptyFirst && state.page == 0);
      var r := state.Next(args);
      if r.Err? { return replies, true; }
      replies := replies + [r.value];
      more := r.value.more;
    }
    assert replies + [] == replies;
  }

  ghost predicate InProgress(
      args: Args, owed: seq<Page>, replies: seq<Page>, more: bool, unsent: seq<Out>, bump: int, emptyNext: bool)
    requires args.pageSize > 0
  {
    owed == replies + if more then Remaining(args, unsent, bump, emptyNext) else []
  }

  lemma OwedAtStart(args: Args, conditional: bool, counts: seq<nat>, bump: int, emptyFirst: bool)
    requires args.pageSize > 0
    requires emptyFirst == (args.revalidate && conditional && args.notModifiedMore)
    requires bump == if !args.revalidate then 0 else if conditional then 1000 else -1
    ensures InProgress(args, Owed(args, conditional, counts), [], true, Fan(counts), bump, emptyFirst)
  {
    assert BumpAll(Fan(counts), 0) == Fan(counts);
  }

  /** The next reply when it carries rows, and what is unsent after it. */
  ghost function NextReply(args: Args, unsent: seq<Out>, bump: int): (Page, seq<Out>) {
    var n := Min(if bump < 0 then MAX_SAFE_INTEGER else args.pageSize, |unsent|);
    (Page(BumpAll(unsent[..n], Max(bump, 0)), unsent[n..] != []), unsent[n..])
  }

  /** Whichever reply comes next, it is the next one owed, and it says more exactly when another follows. */
  lemma ProgressStep(args: Args, owed: seq<Page>, replies: seq<Page>, unsent: seq<Out>, bump: int, emptyNext: bool)
    requires args.pageSize > 0 && InProgress(args, owed, replies, true, unsent, bump, emptyNext)
    ensures |owed| > |replies| && owed[..|replies|] == replies
    ensures emptyNext ==> InProgress(args, owed, replies + [Page([], true)], true, unsent, bump, false)
    ensures !emptyNext ==>
      var (p, rest) := NextReply(args, unsent, bump);
      InProgress(args, owed, replies + [p], p.more, rest, bump, false)
  {
    if emptyNext {
      EmptyFirst(args, unsent, bump);
      hide Remaining, NextReply;
      Peel(owed, replies, Page([], true), Remaining(args, unsent, bump, false));
    } else {
      hide Remaining, NextReply;
      ReplyTakesHead(args, unsent, bump);
      var (p, rest) := NextReply(args, unsent, bump);
      Peel(owed, replies, p, if p.more then Remaining(args, rest, bump, false) else []);
    }
  }

  lemma EmptyFirst(args: Args, unsent: seq<Out>, bump: int)
    requires args.pageSize > 0
    ensures Remaining(args, unsent, bump, true) == [Page([], true)] + Remaining(args, unsent, bump, false)
  {
    hide Pages, BumpAll;
  }

  /** Sending one reply takes the head off what is owed. */
  lemma ReplyTakesHead(args: Args, unsent: seq<Out>, bump: int)
    requires args.pageSize > 0
    ensures var (p, rest) := NextReply(args, unsent, bump);
      Remaining(args, unsent, bump, false) == [p] + (if p.more then Remaining(args, rest, bump, false) else [])
  {
    var size := if bump < 0 then MAX_SAFE_INTEGER else args.pageSize;
    var n := Min(size, |unsent|);
    BumpSlice(unsent, Max(bump, 0), n);
    if |unsent| <= size { assert unsent[..n] == unsent; }
  }

  lemma Peel<T>(owed: seq<T>, done: seq<T>, x: T, tail: seq<T>)
    requires owed == done + ([x] + tail)
    ensures |owed| > |done| && owed[..|done|] == done && owed == (done + [x]) + tail
  {
  }

  /** With the fault options off, paging is invisible: the replies add up to `blended_explode`'s output. */
  lemma PagedEqualsUnpaged(args: Args, conditional: bool, counts: seq<nat>)
    requires args.pageSize > 0 && args.failOnPage <= 0 && !args.revalidate
    ensures var (replies, failed) := Exchange(args, conditional, counts);
      && !failed
      && FlatMap(replies, PageRows) == Fan(counts)
      && |replies| == ReplyCount(|Fan(counts)|, args.pageSize)
      && (forall i :: 0 <= i < |replies| ==> replies[i].more == (i < |replies| - 1))
      && (forall i :: 0 <= i < |replies| - 1 ==> |replies[i].rows| == args.pageSize)
  {
    PagesFacts(Fan(counts), args.pageSize);
  }

  /** What the client is owed: a value as it is, or a thousand higher on a conditional request. */
  function Sent(args: Args, conditional: bool): Out -> Out {
    (o: Out) => Out(if args.revalidate && conditional then o.value + 1000 else o.value, o.parent)
  }

  lemma FirstEmpty(ps: seq<Page>)
    ensures FlatMap([Page([], true)] + ps, PageRows) == FlatMap(ps, PageRows)
  {
    FlatMapAppend([Page([], true)], ps, PageRows);
    assert FlatMap([Page([], true)], PageRows) == [] + FlatMap([], PageRows);
  }

  lemma OwedMeans(args: Args, conditional: bool, counts: seq<nat>)
    requires args.pageSize > 0
    ensures var owed := Owed(args, conditional, counts);
      && FlatMap(owed, PageRows) == Map(Fan(counts), Sent(args, conditional))
      && forall i :: 0 <= i < |owed| ==> owed[i].more == (i < |owed| - 1)
  {
    var rows := if args.revalidate && conditional then BumpAll(Fan(counts), 1000) else Fan(counts);
    assert rows == Map(Fan(counts), Sent(args, conditional));
    PagesFacts(rows, if args.revalidate && !conditional then MAX_SAFE_INTEGER else args.pageSize);
    hide Pages, Fan, FlatMap, Map, BumpAll;
    var ps := Pages(rows, args.pageSize);
    if args.revalidate && conditional {
      if args.notModifiedMore {
        FirstEmpty(ps);
        assert Owed(args, conditional, counts) == [Page([], true)] + ps;
      } else {
        assert Owed(args, conditional, counts) == ps;
      }
    }
  }

  /**
   The replies to a client: all of its rows, at once when a revalidating function is
   asked first, behind an empty reply when it is asked to say so; or, where a failure
   was asked for, those before the reply that fails.
   */
  lemma ExchangeMeans(args: Args, conditional: bool, counts: seq<nat>)
    requires args.pageSize > 0
    ensures var (replies, failed) := Exchange(args, conditional, counts);
      && (failed ==> |replies| == args.failOnPage - 1)
      && (!failed ==>
        && FlatMap(replies, PageRows) == Map(Fan(counts), Sent(args, conditional))
        && (args.failOnPage < 1 || |replies| < args.failOnPage)
        && (args.revalidate && !conditional && |Fan(counts)| <= 9007199254740991 ==> |replies| == 1)
        && (args.revalidate && conditional && args.notModifiedMore ==> replies[0] == Page([], true))
        && forall i :: 0 <= i < |replies| ==> replies[i].more == (i < |replies| - 1))
  {
    OwedMeans(args, conditional, counts);
    hide Fan, FlatMap;
  }

  // ---- the continuation protocol -----------------------------------------

  /** What a client sends: an input column, or a tick, which should have no rows. */
  datatype Input = Real(column: seq<Option<int>>) | Tick(numRows: nat)

  /**
   The framework's view of one turn: which inputs it refuses given what is unsent,
   and the reply otherwise. A function without `resume` may not say more.
   */
  function Turn(unsent: seq<Out>, input: Input, size: nat, resumable: bool): Result<(seq<Out>, Page)>
    requires size > 0
  {
    if input.Tick? && unsent == [] then Err("continuation tick received, but no output is pending")
    else if input.Tick? && input.numRows != 0 then Err("a continuation tick must have no rows")
    else if input.Real? && unsent != [] then Err("input received while output is pending")
    else
      var whole := if input.Tick? then unsent else Fan(FanOutCounts(input.column));
      var n := Min(size, |whole|);
      if whole[n..] != [] && !resumable then Err("emitted HAVE_MORE_OUTPUT but does not implement resume()")
      else Ok((whole[n..], Page(whole[..n], whole[n..] != [])))
  }

  /** The replies of a stream of inputs, or `None` once the framework refuses one. */
  function Stream(inputs: seq<Input>, size: nat, resumable: bool): Option<(seq<Out>, seq<Page>)>
    requires size > 0
  {
    if inputs == [] then Some(([], []))
    else
      match Stream(inputs[..|inputs|-1], size, resumable)
      case None => None
      case Some((unsent, pages)) =>
        match Turn(unsent, inputs[|inputs|-1], size, resumable)
        case Err(_) => None
        case Ok((unsent', page)) => Some((unsent', pages + [page]))
  }

  /** The paged function under the framework: all it remembers is whether output is pending. */
  class Continuation {
    const state: PagedState
    const args: Args
    const resumable: bool
    var morePending: bool

    ghost predicate Valid() reads this, state {
      && state.Valid() && (morePending <==> state.Unsent() != [])
      && args.pageSize > 0 && args.failOnPage == 0 && !args.revalidate
      && (morePending ==> state.bump == 0 && !state.emptyFirst)
    }

    constructor (size: nat, resumable: bool)
      requires size > 0
      ensures Valid() && fresh(state) && state.Unsent() == []
      ensures args.pageSize == size && this.resumable == resumable
    {
      state := new PagedState([], 0, 0, 0, false, 0);
      args := Args(size, 0, false, false, 0);
      this.resumable := resumable;
      morePending := false;
    }

    /** Classify the input, run `process` or `resume`, and record whether output is now pending. */
    method TurnCall(input: Input) returns (r: Result<Page>)
      requires Valid()
      modifies this`morePending, state
      ensures match Turn(old(state.Unsent()), input, args.pageSize, resumable)
        case Err(_) => r.Err?
        case Ok((unsent, page)) => r == Ok(page) && Valid() && state.Unsent() == unsent
    {
      if input.Tick? && !morePending { return Err("continuation tick received, but no output is pending"); }
      if input.Tick? && input.numRows != 0 { return Err("a continuation tick must have no rows"); }
      if input.Real? && morePending { return Err("input received while output is pending"); }
      if input.Real? {
        var counts := ReadCounts(input.column);
        var _ := state.Begin(args, false, counts);
      }
      ghost var whole := state.Unsent();
      r := state.Next(args);
      if r.Ok? {
        UnbumpedIsSame(whole[..Min(args.pageSize, |whole|)]);
        if r.value.more && !resumable { return Err("emitted HAVE_MORE_OUTPUT but does not implement resume()"); }
        morePending := r.value.more;
      }
    }
  }

  lemma UnbumpedIsSame(rows: seq<Out>)
    ensures BumpAll(rows, 0) == rows
  {
  }

  /** A whole stream of turns, until one is refused. */
  method RunStream(inputs: seq<Input>, size: nat, resumable: bool) returns (replies: Option<seq<Page>>)
    requires size > 0
    ensures match Stream(inputs, size, resumable)
      case None => replies.None?
      case Some((_, pages)) => replies == Some(pages)
  {
    hide Turn;
    var turns := new Continuation(size, resumable);
    var pages := [];
    for i := 0 to |inputs|
      invariant fresh(turns) && fresh(turns.state)
      invariant turns.Valid() && turns.args.pageSize == size && turns.resumable == resumable
      invariant Stream(inputs[..i], size, resumable) == Some((turns.state.Unsent(), pages))
    {
      assert inputs[..i+1][..i] == inputs[..i];
      var r := turns.TurnCall(inputs[i]);
      if r.Err? {
        RefusedStays(inputs, size, resumable, i + 1);
        return None;
      }
      pages := pages + [r.value];
    }
    assert inputs[..|inputs|] == inputs;
    replies := Some(pages);
  }

  lemma {:induction false} RefusedStays(inputs: seq<Input>, size: nat, resumable: bool, i: nat)
    requires size > 0 && i <= |inputs| && Stream(inputs[..i], size, resumable).None?
    ensures Stream(inputs, size, resumable).None?
    decreases |inputs| - i
  {
    if i < |inputs| {
      assert inputs[..i+1][..i] == inputs[..i];
      RefusedStays(inputs, size, resumable, i + 1);
    } else {
      assert inputs[..i] == inputs;
    }
  }

  function InputFan(i: Input): seq<Out> { if i.Tick? then [] else Fan(FanOutCounts(i.column)) }

  /**
   In every stream the framework accepts, what was sent followed by what is
   pending is the fan-out of the inputs in order: no output is lost or repeated.
   */
  lemma {:induction false} StreamConserves(inputs: seq<Input>, size: nat, resumable: bool)
    requires size > 0 && Stream(inputs, size, resumable).Some?
    ensures var (unsent, pages) := Stream(inputs, size, resumable).value;
      && FlatMap(pages, PageRows) + unsent == FlatMap(inputs, InputFan)
      && |pages| == |inputs|
      && (pages != [] ==> pages[|pages|-1].more == (unsent != []))
      && (!resumable ==> unsent == [])
  {
    hide Turn, InputFan, Fan;
    if inputs != [] {
      var n := |inputs| - 1;
      StreamConserves(inputs[..n], size, resumable);
      var (before, pages) := Stream(inputs[..n], size, resumable).value;
      var (after, page) := Turn(before, inputs[n], size, resumable).value;
      assert inputs == inputs[..n] + [inputs[n]];
      FlatMapSnoc(inputs[..n], inputs[n], InputFan);
      FlatMapSnoc(pages, page, PageRows);
      TurnSplits(before, inputs[n], size, resumable);
      Carry(FlatMap(pages, PageRows), before, page.rows, after, FlatMap(inputs[..n], InputFan), InputFan(inputs[n]));
    }
  }

  /**
   After an accepted stream the framework refuses exactly: a tick when the last reply
   did not say more, a tick with rows, an input when it did, and output beyond one
   page from a function that cannot resume.
   */
  lemma RefusedIff(inputs: seq<Input>, input: Input, size: nat, resumable: bool)
    requires size > 0 && Stream(inputs, size, resumable).Some?
    ensures var pages := Stream(inputs, size, resumable).value.1;
      var pending := pages != [] && pages[|pages|-1].more;
      Stream(inputs + [input], size, resumable).None? <==>
        match input
        case Tick(numRows) => !pending || numRows != 0
        case Real(column) => pending || (!resumable && |Fan(FanOutCounts(column))| > size)
  {
    var (unsent, pages) := Stream(inputs, size, resumable).value;
    StreamConserves(inputs, size, resumable);
    assert (inputs + [input])[..|inputs|] == inputs;
    hide Stream, Fan;
  }

  lemma TurnSplits(unsent: seq<Out>, input: Input, size: nat, resumable: bool)
    requires size > 0 && Turn(unsent, input, size, resumable).Ok?
    ensures var (unsent', page) := Turn(unsent, input, size, resumable).value;
      && page.rows + unsent' == unsent + InputFan(input) && page.more == (unsent' != [])
      && (!resumable ==> unsent' == [])
  {
    if input.Tick? {
      TakeDrop(unsent, Min(size, |unsent|));
      assert unsent + [] == unsent;
    } else {
      var whole := Fan(FanOutCounts(input.column));
      TakeDrop(whole, Min(size, |whole|));
      assert [] + whole == whole;
    }
  }

  lemma TakeDrop<T>(s: seq<T>, n: nat)
    requires n <= |s|
    ensures s[..n] + s[n..] == s
  {
  }

  lemma Carry<T>(sent: seq<T>, before: seq<T>, rows: seq<T>, after: seq<T>, owed: seq<T>, added: seq<T>)
    requires sent + before == owed && rows + after == before + added
    ensures (sent + rows) + after == owed + added
  {
    Assoc(sent, rows, after);
    Assoc(sent, before, added);
  }

  // ---- slicing the input -------------------------------------------------

  function ShiftParents(rows: seq<Out>, base: nat): seq<Out> {
    Map(rows, (o: Out) => Out(o.value, o.parent + base))
  }

  lemma ShiftAppend(a: seq<Out>, b: seq<Out>, base: nat)
    ensures ShiftParents(a + b, base) == ShiftParents(a, base) + ShiftParents(b, base)
  {
  }

  lemma {:induction false} ShiftPart(row: nat, lo: nat, hi: nat, base: nat)
    ensures ShiftParents(Part(row, lo, hi), base) == Part(row + base, lo, hi)
    decreases hi - lo
  {
    if lo < hi {
      ShiftPart(row, lo + 1, hi, base);
      ShiftAppend([Out(lo, row)], Part(row, lo + 1, hi), base);
      assert ShiftParents([Out(lo, row)], base) == [Out(lo, row + base)];
    }
  }

  /** The fan-out of the later rows is their own fan-out with parents offset. */
  lemma {:induction false} FanTail(a: seq<nat>, b: seq<nat>, row: nat)
    requires row <= |b|
    ensures FanFrom(a + b, |a| + row) == ShiftParents(FanFrom(b, row), |a|)
    decreases |b| - row
  {
    if row < |b| {
      FanTail(a, b, row + 1);
      ShiftPart(row, 0, b[row], |a|);
      ShiftAppend(Part(row, 0, b[row]), FanFrom(b, row + 1), |a|);
    }
  }

  lemma {:induction false} FanHead(a: seq<nat>, b: seq<nat>, row: nat)
    requires row <= |a|
    ensures FanFrom(a + b, row) == FanFrom(a, row) + FanFrom(a + b, |a|)
    decreases |a| - row
  {
    if row < |a| {
      FanHead(a, b, row + 1);
      Assoc(Part(row, 0, a[row]), FanFrom(a, row + 1), FanFrom(a + b, |a|));
    }
  }

  /** Each call's output with its parents offset by where its slice starts. */
  function Joined(slices: seq<seq<Option<int>>>): seq<Out> {
    if slices == [] then [] else
      var n := |slices| - 1;
      Joined(slices[..n]) + ShiftParents(Fan(FanOutCounts(slices[n])), |Flatten(slices[..n])|)
  }

  /** However an input is cut into calls, the joined output is the fan-out of the whole. */
  lemma {:induction false} SlicesJoin(slices: seq<seq<Option<int>>>)
    ensures Joined(slices) == Fan(FanOutCounts(Flatten(slices)))
  {
    if slices != [] {
      var n := |slices| - 1;
      SlicesJoin(slices[..n]);
      assert slices == slices[..n] + [slices[n]];
      FlattenAppend(slices[..n], [slices[n]]);
      assert Flatten([slices[n]]) == slices[n] + Flatten([]) == slices[n];
      var a, b := FanOutCounts(Flatten(slices[..n])), FanOutCounts(slices[n]);
      assert FanOutCounts(Flatten(slices)) == a + b;
      FanHead(a, b, 0);
      FanTail(a, b, 0);
    }
  }

  const INPUT_ROWS_PER_CALL: nat := 3

  /** A reply of `blended_sliced`: each row also reports how many input rows its call had. */
  datatype SlicedPage = SlicedPage(page: Page, callRows: seq<nat>)

  function Report(callRows: nat): Page -> SlicedPage {
    (p: Page) => SlicedPage(p, seq(|p.rows|, i => callRows))
  }

  function SlicedRows(p: SlicedPage): seq<Out> { p.page.rows }

  /** One call's replies, refused when the slice is too long. */
  function Sliced(slice: seq<Option<int>>, size: nat): Result<seq<SlicedPage>>
    requires size > 0
  {
    if |slice| > INPUT_ROWS_PER_CALL then Err("inputRowsPerCall exceeded")
    else Ok(Map(Pages(Fan(FanOutCounts(slice)), size), Report(|slice|)))
  }

  lemma PagesHead(unsent: seq<Out>, size: nat)
    requires size > 0
    ensures var n := Min(size, |unsent|);
      Pages(unsent, size) == [Page(unsent[..n], unsent[n..] != [])]
        + if unsent[n..] != [] then Pages(unsent[n..], size) else []
  {
    assert |unsent| <= size ==> unsent[..|unsent|] == unsent && unsent[|unsent|..] == [];
  }

  /** One reply of a call in progress. */
  method EmitSliced(state: PagedState, size: nat) returns (reply: SlicedPage)
    requires state.Valid() && size > 0
    modifies state`row, state`offset
    ensures state.Valid()
    ensures var n := Min(size, |old(state.Unsent())|);
      && state.Unsent() == old(state.Unsent())[n..]
      && reply == Report(state.callRows)(Page(old(state.Unsent())[..n], state.Unsent() != []))
  {
    var page := state.NextPage(size);
    var callRows := state.callRows;
    reply := SlicedPage(page, seq(|page.rows|, i => callRows));
  }

  /** Sending one reply takes the head off what the call still owes. */
  lemma SlicedHead(sent: seq<SlicedPage>, unsent: seq<Out>, size: nat, callRows: nat)
    requires size > 0
    ensures var n := Min(size, |unsent|);
      var reply := Report(callRows)(Page(unsent[..n], unsent[n..] != []));
      sent + Map(Pages(unsent, size), Report(callRows))
        == (sent + [reply]) + Map(if unsent[n..] != [] then Pages(unsent[n..], size) else [], Report(callRows))
  {
    var n := Min(size, |unsent|);
    var page, rest := Page(unsent[..n], unsent[n..] != []), if unsent[n..] != [] then Pages(unsent[n..], size) else [];
    PagesHead(unsent, size);
    assert Map([page] + rest, Report(callRows)) == [Report(callRows)(page)] + Map(rest, Report(callRows));
    Assoc(sent, [Report(callRows)(page)], Map(rest, Report(callRows)));
  }

  /** `process` and every `resume` of one call, on whatever position was left over. */
  method SlicedCall(state: PagedState, slice: seq<Option<int>>, size: nat) returns (r: Result<seq<SlicedPage>>)
    requires size > 0
    modifies state
    ensures r == Sliced(slice, size)
    ensures r.Err? <==> |slice| > 3
    ensures r.Ok? ==> forall i, j :: 0 <= i < |r.value| && 0 <= j < |r.value[i].callRows| ==>
      |r.value[i].callRows| == |r.value[i].page.rows| && r.value[i].callRows[j] == |slice|
  {
    if |slice| > INPUT_ROWS_PER_CALL { return Err("inputRowsPerCall exceeded"); }
    var counts := ReadCounts(slice);
    state.counts, state.row, state.offset := counts, 0, 0;
    state.callRows := |slice|;
    AtStart(counts);
    var replies := CallReplies(state, size);
    r := Ok(replies);
  }

  method CallReplies(state: PagedState, size: nat) returns (replies: seq<SlicedPage>)
    requires state.Valid() && size > 0
    modifies state`row, state`offset
    ensures replies == Map(Pages(old(state.Unsent()), size), Report(state.callRows))
  {
    hide Pages, Rest, Report, Map;
    ghost var owed := Map(Pages(state.Unsent(), size), Report(state.callRows));
    replies := [];
    var more := true;
    NoneSent(owed);
    while more
      invariant state.Valid() && (more || state.Unsent() == [])
      invariant owed == replies + Map(if more then Pages(state.Unsent(), size) else [], Report(state.callRows))
      decreases more, |state.Unsent()|
    {
      SlicedHead(replies, state.Unsent(), size, state.callRows);
      ghost var before := state.Unsent();
      var reply := EmitSliced(state, size);
      replies := replies + [reply];
      ReportKeepsMore(reply, state.callRows, Page(before[..Min(size, |before|)], state.Unsent() != []));
      more := reply.page.more;
    }
    NothingLeft(replies, state.callRows);
  }

  lemma NoneSent<T>(owed: seq<T>)
    ensures [] + owed == owed
  {
  }

  lemma ReportKeepsMore(reply: SlicedPage, callRows: nat, page: Page)
    requires reply == Report(callRows)(page)
    ensures reply.page == page
  {
  }

  lemma NothingLeft(replies: seq<SlicedPage>, callRows: nat)
    ensures replies + Map([], Report(callRows)) == replies
  {
  }

  lemma AtStart(counts: seq<nat>)
    ensures Position(counts, 0, 0) && Rest(counts, 0, 0) == Fan(counts)
  {
  }

  /** All calls' rows, parents offset by where each slice starts; `None` if a call is refused. */
  method RunSlices(slices: seq<seq<Option<int>>>, size: nat) returns (rows: Option<seq<Out>>)
    requires size > 0
    ensures rows.None? <==> exists i :: 0 <= i < |slices| && |slices[i]| > 3
    ensures rows.Some? ==> rows.value == Fan(FanOutCounts(Flatten(slices)))
  {
    var state := new PagedState([], 0, 0, 0, false, 0);
    var joined, base := [], 0;
    for i := 0 to |slices|
      invariant forall k :: 0 <= k < i ==> |slices[k]| <= INPUT_ROWS_PER_CALL
      invariant base == |Flatten(slices[..i])| && joined == Joined(slices[..i])
    {
      var call := SlicedCall(state, slices[i], size);
      if call.Err? { return None; }
      SlicedFans(slices[i], size);
      assert slices[..i+1][..i] == slices[..i];
      NextStart(slices, i);
      joined := joined + ShiftParents(FlatMap(call.value, SlicedRows), base);
      base := base + |slices[i]|;
    }
    assert slices[..|slices|] == slices;
    SlicesJoin(slices);
    rows := Some(joined);
  }

  lemma NextStart<T>(slices: seq<seq<T>>, i: nat)
    requires i < |slices|
    ensures |Flatten(slices[..i+1])| == |Flatten(slices[..i])| + |slices[i]|
  {
    assert slices[..i+1] == slices[..i] + [slices[i]];
    FlattenAppend(slices[..i], [slices[i]]);
    assert Flatten([slices[i]]) == slices[i] + Flatten([]);
  }

  /** A call's replies add up to the fan-out of its slice. */
  lemma SlicedFans(slice: seq<Option<int>>, size: nat)
    requires size > 0 && |slice| <= INPUT_ROWS_PER_CALL
    ensures FlatMap(Sliced(slice, size).value, SlicedRows) == Fan(FanOutCounts(slice))
  {
    PagesFacts(Fan(FanOutCounts(slice)), size);
    SlicedPageRows(Pages(Fan(FanOutCounts(slice)), size), |slice|);
  }

  lemma {:induction false} SlicedPageRows(pages: seq<Page>, callRows: nat)
    ensures FlatMap(Map(pages, Report(callRows)), SlicedRows) == FlatMap(pages, PageRows)
  {
    if pages != [] {
      SlicedPageRows(pages[1..], callRows);
      assert Map(pages, Report(callRows))[1..] == Map(pages[1..], Report(callRows));
    }
  }

  // ---- interleaving ------------------------------------------------------

  /** Round `k`: value `k` for every input row from `row` on that has one. */
  function Round(counts: seq<nat>, k: nat, row: nat): seq<Out>
    decreases |counts| - row
  {
    if row >= |counts| then [] else (if counts[row] > k then [Out(k, row)] else []) + Round(counts, k, row + 1)
  }

  function Rounds(counts: seq<nat>, k: nat, rounds: nat): seq<Out>
    decreases rounds - k
  {
    if k >= rounds then [] else Round(counts, k, 0) + Rounds(counts, k + 1, rounds)
  }

  function MaxCount(counts: seq<nat>): (m: nat)
    ensures forall i :: 0 <= i < |counts| ==> counts[i] <= m
  {
    if counts == [] then 0
    else
      var rest := MaxCount(counts[1..]);
      assert forall i :: 1 <= i < |counts| ==> counts[i] == counts[1..][i-1];
      if counts[0] > rest then counts[0] else rest
  }

  /** `cached_explode`: the same rows, interleaved round-robin over the input rows. */
  function Interleaved(counts: seq<nat>): seq<Out> { Rounds(counts, 0, MaxCount(counts)) }

  predicate ByValue(a: Out, b: Out) { a.value < b.value || (a.value == b.value && a.parent < b.parent) }

  lemma {:induction false} RoundInOrder(counts: seq<nat>, k: nat, row: nat)
    ensures forall i :: 0 <= i < |Round(counts, k, row)| ==>
      Round(counts, k, row)[i].value == k && row <= Round(counts, k, row)[i].parent
    ensures forall i, j :: 0 <= i < j < |Round(counts, k, row)| ==>
      ByValue(Round(counts, k, row)[i], Round(counts, k, row)[j])
    decreases |counts| - row
  {
    if row < |counts| { RoundInOrder(counts, k, row + 1); }
  }

  lemma {:induction false} RoundsInOrder(counts: seq<nat>, k: nat, rounds: nat)
    ensures forall i :: 0 <= i < |Rounds(counts, k, rounds)| ==> k <= Rounds(counts, k, rounds)[i].value
    ensures forall i, j :: 0 <= i < j < |Rounds(counts, k, rounds)| ==>
      ByValue(Rounds(counts, k, rounds)[i], Rounds(counts, k, rounds)[j])
    decreases rounds - k
  {
    if k < rounds {
      RoundInOrder(counts, k, 0);
      RoundsInOrder(counts, k + 1, rounds);
      hide Round, Rounds;
    }
  }

  /** Round by round: the same rows as the one-shot fan-out, by value and then by input row. */
  lemma InterleavedMeans(raw: seq<Option<int>>)
    ensures forall o :: o in Interleaved(FanOutCounts(raw)) <==> Asked(raw, o)
    ensures var out := Interleaved(FanOutCounts(raw)); forall i, j :: 0 <= i < j < |out| ==> ByValue(out[i], out[j])
  {
    var counts := FanOutCounts(raw);
    RoundsInOrder(counts, 0, MaxCount(counts));
    InterleavingPreservesMeaning(counts, 0);
    FanMeans(raw);
    forall o ensures o in Interleaved(counts) <==> o in Fan(counts) {
      assert o in multiset(Interleaved(counts)) <==> o in multiset(Fan(counts));
    }
  }

  method Interleave(raw: seq<Option<int>>) returns (out: seq<Out>)
    ensures out == Interleaved(FanOutCounts(raw))
    ensures forall o :: o in out <==> Asked(raw, o)
    ensures forall i, j :: 0 <= i < j < |out| ==> ByValue(out[i], out[j])
  {
    InterleavedMeans(raw);
    var counts := ReadCounts(raw);
    out := EmitRounds(counts);
  }

  method EmitRounds(counts: seq<nat>) returns (out: seq<Out>)
    ensures out == Interleaved(counts)
  {
    out := [];
    var rounds := MaxCount(counts);
    for k := 0 to rounds
      invariant out + Rounds(counts, k, rounds) == Interleaved(counts)
    {
      var round := EmitRound(counts, k);
      Assoc(out, round, Rounds(counts, k + 1, rounds));
      out := out + round;
    }
  }

  method EmitRound(counts: seq<nat>, k: nat) returns (out: seq<Out>)
    ensures out == Round(counts, k, 0)
  {
    out := [];
    for row := 0 to |counts|
      invariant out + Round(counts, k, row) == Round(counts, k, 0)
    {
      if counts[row] > k {
        Assoc(out, [Out(k, row)], Round(counts, k, row + 1));
        out := out + [Out(k, row)];
      }
    }
  }

  lemma {:induction false} RoundOf(counts: seq<nat>, k: nat, row: nat, p: int)
    ensures WithKey(Round(counts, k, row), ParentOf, p)
      == if row <= p < |counts| && counts[p] > k then [Out(k, p)] else []
    decreases |counts| - row
  {
    if row < |counts| {
      var head := if counts[row] > k then [Out(k, row)] else [];
      RoundOf(counts, k, row + 1, p);
      WithKeyAppend(head, Round(counts, k, row + 1), ParentOf, p);
    }
  }

  lemma {:induction false} RoundsOf(counts: seq<nat>, k: nat, rounds: nat, p: int)
    requires forall i :: 0 <= i < |counts| ==> counts[i] <= rounds
    ensures WithKey(Rounds(counts, k, rounds), ParentOf, p)
      == if 0 <= p < |counts| then Part(p, k, counts[p]) else []
    decreases rounds - k
  {
    if k < rounds {
      RoundOf(counts, k, 0, p);
      RoundsOf(counts, k + 1, rounds, p);
      WithKeyAppend(Round(counts, k, 0), Rounds(counts, k + 1, rounds), ParentOf, p);
    }
  }

  lemma {:induction false} PartParents(row: nat, lo: nat, hi: nat)
    ensures forall i :: 0 <= i < |Part(row, lo, hi)| ==> Part(row, lo, hi)[i].parent == row
    decreases hi - lo
  {
    if lo < hi { PartParents(row, lo + 1, hi); }
  }

  lemma {:induction false} FanOf(counts: seq<nat>, row: nat, p: int)
    ensures WithKey(FanFrom(counts, row), ParentOf, p)
      == if row <= p < |counts| then Part(p, 0, counts[p]) else []
    decreases |counts| - row
  {
    if row < |counts| {
      var head, tail := Part(row, 0, counts[row]), FanFrom(counts, row + 1);
      FanOf(counts, row + 1, p);
      PartParents(row, 0, counts[row]);
      WithKeyAppend(head, tail, ParentOf, p);
      if p == row { WithKeyAll(head, ParentOf, p); } else { WithKeyNone(head, ParentOf, p); }
    }
  }

  lemma {:induction false} FanSorted(counts: seq<nat>, row: nat)
    ensures SortedBy(FanFrom(counts, row), ParentOf)
    ensures forall i :: 0 <= i < |FanFrom(counts, row)| ==> row <= FanFrom(counts, row)[i].parent
    decreases |counts| - row
  {
    if row < |counts| {
      FanSorted(counts, row + 1);
      PartParents(row, 0, counts[row]);
      SortedJoin(Part(row, 0, counts[row]), FanFrom(counts, row + 1), row);
    }
  }

  lemma SortedJoin(head: seq<Out>, tail: seq<Out>, row: int)
    requires forall i :: 0 <= i < |head| ==> head[i].parent == row
    requires SortedBy(tail, ParentOf) && forall i :: 0 <= i < |tail| ==> row <= tail[i].parent
    ensures SortedBy(head + tail, ParentOf)
  {
  }

  /**
   Interleaving preserves meaning: it is a permutation of the one-shot output that
   keeps each parent's values in order, so sorting it by parent restores that output.
   */
  lemma InterleavingPreservesMeaning(counts: seq<nat>, p: int)
    ensures WithKey(Interleaved(counts), ParentOf, p) == WithKey(Fan(counts), ParentOf, p)
    ensures WithKey(Fan(counts), ParentOf, p) == if 0 <= p < |counts| then Part(p, 0, counts[p]) else []
    ensures StableSort(Interleaved(counts), ParentOf) == Fan(counts)
    ensures multiset(Interleaved(counts)) == multiset(Fan(counts))
  {
    var sorted := StableSort(Interleaved(counts), ParentOf);
    StableSortFacts(Interleaved(counts), ParentOf);
    forall k ensures WithKey(sorted, ParentOf, k) == WithKey(Fan(counts), ParentOf, k) {
      RoundsOf(counts, 0, MaxCount(counts), k);
      FanOf(counts, 0, k);
    }
    FanOf(counts, 0, p);
    FanSorted(counts, 0);
    SortedStableUnique(sorted, Fan(counts), ParentOf);
    RoundsOf(counts, 0, MaxCount(counts), p);
  }
}
