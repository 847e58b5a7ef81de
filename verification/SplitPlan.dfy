/**
 The planning half of a split scan: dividing `[0, n)` into ranges, naming each
 range by a token, and handing the plan out page by page.
 */
module SplitPlan {
  import opened Seqs
  import opened Bytes

  /** The rows of one split: from `lo` on, up to but not including `hi`. */
  datatype Range = Range(lo: int, hi: int)

  type Token = seq<Byte>

  /** `rs` are ordered, disjoint and adjacent, and cover exactly `[lo, hi)`. */
  predicate Tiles(rs: seq<Range>, lo: int, hi: int) {
    if rs == [] then lo == hi
    else rs[0].lo == lo && lo <= rs[0].hi && Tiles(rs[1..], rs[0].hi, hi)
  }

  function RangeRows(r: Range): seq<int> { Interval(r.lo, r.hi) }

  lemma {:induction false} TilesRows(rs: seq<Range>, lo: int, hi: int)
    requires Tiles(rs, lo, hi)
    ensures lo <= hi
    ensures FlatMap(rs, RangeRows) == Interval(lo, hi)
  {
    if rs != [] {
      TilesRows(rs[1..], rs[0].hi, hi);
      IntervalSplit(lo, rs[0].hi, hi);
    }
  }

  lemma {:induction false} TilesAppend(a: seq<Range>, b: seq<Range>, lo: int, mid: int, hi: int)
    requires Tiles(a, lo, mid) && Tiles(b, mid, hi)
    ensures Tiles(a + b, lo, hi)
  {
    if a == [] {
      assert a + b == b;
    } else {
      assert (a + b)[1..] == a[1..] + b;
      TilesAppend(a[1..], b, a[0].hi, mid, hi);
    }
  }

  // ---- dividing ----------------------------------------------------------

  /** Where range `i` of an even division of `total` rows into `k` starts. */
  function Cut(total: nat, k: nat, i: nat): (c: nat)
    requires k > 0
  {
    if i == 0 then 0 else Cut(total, k, i - 1) + total / k + (if i - 1 < total % k then 1 else 0)
  }

  function Even(n: int, k: int): seq<Range> {
    if k <= 0 then [] else
      seq(k, i requires 0 <= i < k => Range(Cut(Max(0, n), k, i), Cut(Max(0, n), k, i + 1)))
  }

  lemma {:induction false} CutClosed(total: nat, k: nat, i: nat)
    requires i <= k && k > 0
    ensures Cut(total, k, i) == i * (total / k) + Min(i, total % k)
  {
    if i > 0 {
      CutClosed(total, k, i - 1);
      assert (i - 1) * (total / k) == i * (total / k) - total / k;
    }
  }

  /** Cut the rows into `k` adjacent ranges; the first `n % k` of them get one row more. */
  method EvenRanges(n: int, k: int) returns (out: seq<Range>)
    ensures out == Even(n, k)
  {
    if k <= 0 { return []; }
    var total := Max(0, n);
    var base := total / k;
    var extra := total % k;
    out := [];
    var lo := 0;
    for i := 0 to k
      invariant lo == Cut(total, k, i)
      invariant |out| == i
      invariant forall j :: 0 <= j < i ==> out[j] == Even(n, k)[j]
    {
      var hi := lo + base + (if i < extra then 1 else 0);
      out := out + [Range(lo, hi)];
      lo := hi;
    }
  }

  /** An even division covers `[0, n)` exactly, in `k` ranges whose sizes differ by at most one. */
  lemma EvenCovers(n: int, k: int)
    ensures |Even(n, k)| == Max(0, k)
    ensures Tiles(Even(n, k), 0, Max(0, n)) <==> k > 0 || n <= 0
    ensures forall i :: 0 <= i < k ==>
      var size := Even(n, k)[i].hi - Even(n, k)[i].lo;
      size == Max(0, n) / k + (if i < Max(0, n) % k then 1 else 0)
  {
    if k > 0 {
      EvenSuffix(n, k, 0);
      assert Even(n, k)[0..] == Even(n, k);
    }
  }

  lemma CutRises(total: nat, k: nat, i: nat)
    requires k > 0
    ensures Cut(total, k, i) <= Cut(total, k, i + 1)
  {
  }

  lemma {:induction false} EvenSuffix(n: int, k: nat, i: nat)
    requires 0 <= i <= k && k > 0
    ensures Tiles(Even(n, k)[i..], Cut(Max(0, n), k, i), Max(0, n))
    decreases k - i
  {
    var rest := Even(n, k)[i..];
    CutEnd(Max(0, n), k);
    CutRises(Max(0, n), k, i);
    hide Cut;
    if i < k {
      EvenSuffix(n, k, i + 1);
      assert rest[0] == Range(Cut(Max(0, n), k, i), Cut(Max(0, n), k, i + 1));
      assert rest[1..] == Even(n, k)[i+1..];
    }
  }

  lemma CutEnd(total: nat, k: nat)
    requires k > 0
    ensures Cut(total, k, k) == total
  {
    CutClosed(total, k, k);
    assert k * (total / k) + total % k == total;
  }

  /** `split_empty_ranges`: an empty range before every real one. */
  function WithEmpties(rs: seq<Range>): seq<Range> {
    FlatMap(rs, (r: Range) => [Range(r.lo, r.lo), r])
  }

  lemma {:induction false} WithEmptiesAlternates(rs: seq<Range>)
    ensures |WithEmpties(rs)| == 2 * |rs|
    ensures forall i :: 0 <= i < |rs| ==>
      WithEmpties(rs)[2 * i] == Range(rs[i].lo, rs[i].lo) && WithEmpties(rs)[2 * i + 1] == rs[i]
  {
    if rs != [] {
      WithEmptiesAlternates(rs[1..]);
      var rest := WithEmpties(rs[1..]);
      assert WithEmpties(rs) == [Range(rs[0].lo, rs[0].lo), rs[0]] + rest;
      forall i | 0 < i < |rs|
        ensures WithEmpties(rs)[2 * i] == Range(rs[i].lo, rs[i].lo) && WithEmpties(rs)[2 * i + 1] == rs[i]
      {
        assert rs[1..][i-1] == rs[i];
        assert rest[2 * (i - 1)] == Range(rs[i].lo, rs[i].lo) && rest[2 * (i - 1) + 1] == rs[i];
      }
    }
  }

  lemma {:induction false} WithEmptiesCovers(rs: seq<Range>, lo: int, hi: int)
    requires Tiles(rs, lo, hi)
    ensures Tiles(WithEmpties(rs), lo, hi)
    ensures |WithEmpties(rs)| == 2 * |rs|
  {
    WithEmptiesAlternates(rs);
    if rs != [] {
      WithEmptiesCovers(rs[1..], rs[0].hi, hi);
      assert WithEmpties(rs) == [Range(rs[0].lo, rs[0].lo), rs[0]] + WithEmpties(rs[1..]);
      assert Tiles([Range(rs[0].lo, rs[0].lo), rs[0]], lo, rs[0].hi) by {
        assert [Range(rs[0].lo, rs[0].lo), rs[0]][1..] == [rs[0]];
        assert [rs[0]][1..] == [];
      }
      TilesAppend([Range(rs[0].lo, rs[0].lo), rs[0]], WithEmpties(rs[1..]), lo, rs[0].hi, hi);
    }
  }

  function Shift(rs: seq<Range>, off: int): seq<Range> {
    Map(rs, (r: Range) => Range(off + r.lo, off + r.hi))
  }

  /** `split_skewed`: one range with about 99% of the rows, the rest divided evenly. */
  function Skewed(n: int, splits: int): seq<Range> {
    if n <= 0 || splits <= 0 then [] else
      var head := (n * 99) / 100;
      [Range(0, head)] + Shift(Even(n - head, splits - 1), head)
  }

  lemma {:induction false} ShiftCovers(rs: seq<Range>, off: int, lo: int, hi: int)
    ensures Tiles(Shift(rs, off), off + lo, off + hi) <==> Tiles(rs, lo, hi)
  {
    if rs != [] {
      ShiftCovers(rs[1..], off, rs[0].hi, hi);
      assert Shift(rs, off)[1..] == Shift(rs[1..], off);
    }
  }

  /**
   The skewed plan loses rows for one split: it covers `[0, n)` exactly when
   there is nothing to cover or at least two splits were asked for.
   */
  lemma SkewedCoversIff(n: int, splits: int)
    ensures Tiles(Skewed(n, splits), 0, Max(0, n)) <==> n <= 0 || splits >= 2
  {
    hide Even, Shift;
    if n > 0 && splits > 0 {
      var head := (n * 99) / 100;
      HeadCovers(head, Even(n - head, splits - 1), n);
      EvenCovers(n - head, splits - 1);
    }
  }

  /** The first range has 99% of the rows, rounded down; the others share what is left as evenly as can be. */
  lemma SkewedSizes(n: int, splits: int)
    requires n > 0 && splits > 0
    ensures |Skewed(n, splits)| == splits
    ensures var head := Skewed(n, splits)[0];
      && head.lo == 0 && 100 * head.hi <= 99 * n < 100 * (head.hi + 1)
      && forall i :: 1 <= i < splits ==>
        var size, rest := Skewed(n, splits)[i].hi - Skewed(n, splits)[i].lo, n - head.hi;
        size == rest / (splits - 1) + (if i - 1 < rest % (splits - 1) then 1 else 0)
  {
    hide Even;
    var head := (n * 99) / 100;
    var tail := Even(n - head, splits - 1);
    EvenCovers(n - head, splits - 1);
    forall i | 1 <= i < splits
      ensures Skewed(n, splits)[i].hi - Skewed(n, splits)[i].lo == tail[i-1].hi - tail[i-1].lo
    {
      assert Skewed(n, splits)[i] == Shift(tail, head)[i-1];
    }
  }

  lemma HeadCovers(head: nat, tail: seq<Range>, n: int)
    ensures Tiles([Range(0, head)] + Shift(tail, head), 0, n) <==> Tiles(tail, 0, n - head)
  {
    ShiftCovers(tail, head, 0, n - head);
    assert ([Range(0, head)] + Shift(tail, head))[1..] == Shift(tail, head);
  }

  /** `split_many`: a non-positive split count means a thousand. */
  function Many(n: int, splits: int): seq<Range> {
    Even(n, if splits <= 0 then 1000 else splits)
  }

  lemma ManyCovers(n: int, splits: int)
    ensures Tiles(Many(n, splits), 0, Max(0, n))
    ensures |Many(n, splits)| == if splits <= 0 then 1000 else splits
  {
    EvenCovers(n, if splits <= 0 then 1000 else splits);
  }

  // ---- naming ------------------------------------------------------------

  /** What a token names: a range and its position in the plan. */
  datatype Claim = Claim(ordinal: int, range: Range)

  function Encode(r: Range): (t: Token)
    ensures |t| == 16
  {
    Put64(r.lo) + Put64(r.hi)
  }

  function EncodeOrdinal(c: Claim): (t: Token)
    ensures |t| == 24
  {
    Put64(c.ordinal) + Put64(c.range.lo) + Put64(c.range.hi)
  }

  /** Read a token back: 16 bytes without ordinals (the ordinal is then unused), 24 with. */
  function Decode(t: Token, withOrdinals: bool): Result<Claim> {
    if withOrdinals then
      if |t| != 24 then Err("batch-index split payload must be 24 bytes")
      else Ok(Claim(GetI64(t[0..8]), Range(GetI64(t[8..16]), GetI64(t[16..24]))))
    else
      if |t| != 16 then Err("split payload must be 16 bytes")
      else Ok(Claim(0, Range(GetI64(t[0..8]), GetI64(t[8..16]))))
  }

  function Mint(c: Claim, withOrdinals: bool): Token {
    if withOrdinals then EncodeOrdinal(c) else Encode(c.range)
  }

  predicate Representable(c: Claim) {
    FitsI64(c.ordinal) && FitsI64(c.range.lo) && FitsI64(c.range.hi)
  }

  /** A redeemed token names exactly the work it was minted for. */
  lemma DecodeMint(c: Claim, withOrdinals: bool)
    requires Representable(c)
    ensures Decode(Mint(c, withOrdinals), withOrdinals)
         == Ok(Claim(if withOrdinals then c.ordinal else 0, c.range))
  {
    I64RoundTrip(c.ordinal);
    I64RoundTrip(c.range.lo);
    I64RoundTrip(c.range.hi);
    var t := Mint(c, withOrdinals);
    if withOrdinals {
      assert t[0..8] == Put64(c.ordinal);
      assert t[8..16] == Put64(c.range.lo);
      assert t[16..24] == Put64(c.range.hi);
    } else {
      assert t[0..8] == Put64(c.range.lo);
      assert t[8..16] == Put64(c.range.hi);
    }
  }

  /** The tokens of `ranges`, numbered from `base`. */
  function PlanOf(ranges: seq<Range>, withOrdinals: bool, base: int): seq<Token> {
    seq(|ranges|, i requires 0 <= i < |ranges| => Mint(Claim(base + i, ranges[i]), withOrdinals))
  }

  /** Token `i` of the plan names range `i`, and position `i` where positions are carried. */
  lemma PlanTokenNames(ranges: seq<Range>, withOrdinals: bool, i: nat)
    requires i < |ranges| && Representable(Claim(i, ranges[i]))
    ensures |PlanOf(ranges, withOrdinals, 0)| == |ranges|
    ensures Decode(PlanOf(ranges, withOrdinals, 0)[i], withOrdinals)
      == Ok(Claim(if withOrdinals then i else 0, ranges[i]))
  {
    DecodeMint(Claim(i, ranges[i]), withOrdinals);
  }

  // ---- paging the plan ---------------------------------------------------

  datatype PlanPage = PlanPage(tokens: seq<Token>, next: Option<seq<Byte>>)

  /** One window of the plan; the cursor is the page number, anything malformed means page 0. */
  function Plan(all: seq<Range>, withOrdinals: bool, perPage: nat, cursor: Option<seq<Byte>>): PlanPage {
    PlanAt(all, withOrdinals, perPage, if cursor.Some? && |cursor.value| == 8 then GetU64(cursor.value) else 0)
  }

  function PlanAt(all: seq<Range>, withOrdinals: bool, perPage: nat, page: nat): PlanPage {
    var lo := page * perPage;
    var from := Min(lo, |all|);
    var to := Min(lo + perPage, |all|);
    PlanPage(
      PlanOf(all[from..to], withOrdinals, lo),
      if lo + perPage >= |all| then None else Some(Put64(page + 1)))
  }

  /** How many pages a plan of `k` splits takes. */
  function PageCount(k: nat, perPage: nat): nat
    requires perPage > 0
  {
    if k == 0 then 1 else CeilDiv(k, perPage)
  }

  /**
   Following the cursor to exhaustion yields the unpaged plan, ordinals
   included, in exactly `PageCount` calls.
   */
  method FollowCursor(all: seq<Range>, withOrdinals: bool, perPage: nat)
    returns (tokens: seq<Token>, pages: nat)
    requires perPage > 0 && |all| < TWO_64
    ensures tokens == PlanOf(all, withOrdinals, 0)
    ensures pages == PageCount(|all|, perPage)
  {
    var page := Plan(all, withOrdinals, perPage, None);
    tokens := page.tokens;
    pages := 1;
    while page.next.Some?
      invariant pages >= 1
      invariant (pages - 1) * perPage <= |all|
      invariant page.next == if pages * perPage >= |all| then None else Some(Put64(pages))
      invariant tokens == PlanOf(all, withOrdinals, 0)[..Min(pages * perPage, |all|)]
      invariant pages == 1 || (pages - 1) * perPage < |all|
      decreases |all| - (pages - 1) * perPage
    {
      PageCursor(all, withOrdinals, perPage, pages);
      page := Plan(all, withOrdinals, perPage, page.next);
      assert page.tokens == PlanOf(all, withOrdinals, 0)[pages * perPage..Min((pages + 1) * perPage, |all|)];
      tokens := tokens + page.tokens;
      pages := pages + 1;
    }
    PagesNeeded(|all|, perPage, pages);
  }

  lemma PageCursor(all: seq<Range>, withOrdinals: bool, perPage: nat, page: nat)
    requires perPage > 0 && |all| < TWO_64 && page * perPage < |all|
    ensures Plan(all, withOrdinals, perPage, Some(Put64(page))) ==
      PlanPage(PlanOf(all, withOrdinals, 0)[page * perPage..Min((page + 1) * perPage, |all|)],
               if (page + 1) * perPage >= |all| then None else Some(Put64(page + 1)))
  {
    hide Put64, GetU64, PlanOf;
    assert page <= page * perPage;
    U64RoundTrip(page);
    assert Plan(all, withOrdinals, perPage, Some(Put64(page))) == PlanAt(all, withOrdinals, perPage, page);
    assert (page + 1) * perPage == page * perPage + perPage;
    PlanWindow(all, withOrdinals, page * perPage, Min((page + 1) * perPage, |all|));
  }

  /** Without a cursor, or with one that is not eight bytes long, the plan starts over. */
  lemma FirstPage(all: seq<Range>, withOrdinals: bool, perPage: nat, cursor: Option<seq<Byte>>)
    requires cursor.None? || |cursor.value| != 8
    ensures Plan(all, withOrdinals, perPage, cursor) ==
      PlanPage(PlanOf(all, withOrdinals, 0)[..Min(perPage, |all|)], if perPage >= |all| then None else Some(Put64(1)))
  {
    hide Put64;
    PlanWindow(all, withOrdinals, 0, Min(perPage, |all|));
  }

  lemma PlanWindow(all: seq<Range>, withOrdinals: bool, lo: nat, hi: nat)
    requires lo <= hi <= |all|
    ensures PlanOf(all[lo..hi], withOrdinals, lo) == PlanOf(all, withOrdinals, 0)[lo..hi]
  {
  }

  lemma PagesNeeded(k: nat, perPage: nat, pages: nat)
    requires perPage > 0 && pages >= 1 && pages * perPage >= k
    requires pages == 1 || (pages - 1) * perPage < k
    ensures pages == PageCount(k, perPage)
  {
    if k > 0 {
      assert pages == 1 ==> (pages - 1) * perPage < k;
      var r := pages * perPage - k;
      assert 0 <= r < perPage by { assert (pages - 1) * perPage == pages * perPage - perPage; }
      assert k + perPage - 1 == pages * perPage + (perPage - 1 - r);
      DivUnique(k + perPage - 1, perPage, pages, perPage - 1 - r);
    }
  }
}
