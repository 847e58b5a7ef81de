/**
 The bytes that carry a filter history inside the state token: a version, the
 deltas, then the predicate ids, each list counted and each item length-prefixed.
 */
module HistoryToken {
  import opened Seqs
  import opened Bytes
  import Utf8

  datatype History = History(deltas: seq<seq<Byte>>, order: seq<Utf8.Text>)

  const EMPTY := History([], [])

  const FORMAT_VERSION: Byte := 1

  // ---- the layout --------------------------------------------------------

  function LayItems(items: seq<seq<Byte>>): seq<Byte> {
    if items == [] then [] else (PutU32(|items[0]|) + items[0]) + LayItems(items[1..])
  }

  function LayList(items: seq<seq<Byte>>): seq<Byte> { PutU32(|items|) + LayItems(items) }

  function Layout(deltas: seq<seq<Byte>>, ids: seq<seq<Byte>>): seq<Byte> {
    [FORMAT_VERSION] + LayList(deltas) + LayList(ids)
  }

  /** Counts and lengths fit their 32-bit fields. */
  ghost predicate Fits(items: seq<seq<Byte>>) {
    |items| < TWO_32 && forall i :: 0 <= i < |items| ==> |items[i]| < TWO_32
  }

  lemma {:induction false} LayAppend(a: seq<seq<Byte>>, b: seq<seq<Byte>>)
    ensures LayItems(a + b) == LayItems(a) + LayItems(b)
  {
    if a == [] {
      assert a + b == b;
    } else {
      assert (a + b)[1..] == a[1..] + b;
      LayAppend(a[1..], b);
      Assoc(PutU32(|a[0]|) + a[0], LayItems(a[1..]), LayItems(b));
    }
  }

  lemma LayNext(items: seq<seq<Byte>>, i: nat)
    requires i < |items|
    ensures LayItems(items[..i+1]) == LayItems(items[..i]) + (PutU32(|items[i]|) + items[i])
    ensures |LayItems(items[..i+1])| <= |LayItems(items)|
  {
    assert items[..i+1] == items[..i] + [items[i]];
    LayAppend(items[..i], [items[i]]);
    assert LayItems([items[i]]) == (PutU32(|items[i]|) + items[i]) + LayItems([]);
    assert items == items[..i+1] + items[i+1..];
    LayAppend(items[..i+1], items[i+1..]);
  }

  // ---- writing -----------------------------------------------------------

  function EncodeIds(order: seq<Utf8.Text>): seq<seq<Byte>> { Map(order, Utf8.Encode) }

  method SizeOf(items: seq<seq<Byte>>) returns (size: nat)
    ensures size == |LayItems(items)|
  {
    size := 0;
    for i := 0 to |items|
      invariant size == |LayItems(items[..i])|
    {
      LayNext(items, i);
      size := size + 4 + |items[i]|;
    }
    assert items[..|items|] == items;
  }

  /** Write a list at an offset that advances past it. */
  method PutList(out: array<Byte>, offset: nat, items: seq<seq<Byte>>) returns (end: nat)
    requires offset + |LayList(items)| <= out.Length
    modifies out
    ensures end == offset + |LayList(items)|
    ensures out[..end] == old(out[..offset]) + LayList(items)
  {
    Blit(out, offset, PutU32(|items|));
    ghost var head := out[..offset + 4];
    assert head == out[..offset] + out[offset..offset + 4];
    end := offset + 4;
    for i := 0 to |items|
      invariant end == offset + 4 + |LayItems(items[..i])| <= out.Length
      invariant out[..end] == head + LayItems(items[..i])
    {
      LayNext(items, i);
      ghost var before := out[..end];
      var item := PutU32(|items[i]|) + items[i];
      Blit(out, end, item);
      assert out[..end + |item|] == before + item;
      Assoc(head, LayItems(items[..i]), item);
      end := end + |item|;
    }
    assert items[..|items|] == items;
    Assoc(old(out[..offset]), PutU32(|items|), LayItems(items));
  }

  /** Nothing to carry when no delta was applied; otherwise the sized buffer, filled in order. */
  method EncodeFilterHistory(h: History) returns (bytes: Option<array<Byte>>)
    ensures bytes.None? <==> h.deltas == []
    ensures bytes.Some? ==> fresh(bytes.value) && bytes.value[..] == Layout(h.deltas, EncodeIds(h.order))
  {
    if h.deltas == [] { return None; }
    var ids := EncodeIds(h.order);
    var deltaSize := SizeOf(h.deltas);
    var idSize := SizeOf(ids);
    var out := new Byte[1 + 4 + 4 + deltaSize + idSize](_ => 0);
    out[0] := FORMAT_VERSION;
    var offset := PutList(out, 1, h.deltas);
    offset := PutList(out, offset, ids);
    assert out[..offset] == out[..];
    bytes := Some(out);
  }

  // ---- reading -----------------------------------------------------------

  /** `count` items from `off` on, and where they end. */
  function TakeItems(buf: seq<Byte>, off: nat, count: nat): (r: Result<(seq<seq<Byte>>, nat)>)
    requires off <= |buf|
    ensures r.Ok? ==> off <= r.value.1 <= |buf|
    decreases count
  {
    if count == 0 then Ok(([], off))
    else if off + 4 > |buf| then Err(TRUNCATED)
    else
      var len := GetU32(buf[off..off + 4]);
      if off + 4 + len > |buf| then Err(TRUNCATED)
      else
        match TakeItems(buf, off + 4 + len, count - 1)
        case Err(e) => Err(e)
        case Ok((items, end)) => Ok(([buf[off + 4..off + 4 + len]] + items, end))
  }

  const TRUNCATED := "dynamic filter history in the state token is truncated"

  function TakeList(buf: seq<Byte>, off: nat): (r: Result<(seq<seq<Byte>>, nat)>)
    requires off <= |buf|
    ensures r.Ok? ==> off <= r.value.1 <= |buf|
  {
    if off + 4 > |buf| then Err(TRUNCATED) else TakeItems(buf, off + 4, GetU32(buf[off..off + 4]))
  }

  function DecodeIds(ids: seq<seq<Byte>>): Option<seq<Utf8.Text>> {
    if ids == [] then Some([])
    else
      match (Utf8.Decode(ids[0]), DecodeIds(ids[1..]))
      case (Some(id), Some(rest)) => Some([id] + rest)
      case _ => None
  }

  function Decode(buf: seq<Byte>): Result<History> {
    if buf == [] then Ok(EMPTY)
    else if buf[0] != FORMAT_VERSION then Err("dynamic filter history in the state token has an unknown format")
    else
      match TakeList(buf, 1)
      case Err(e) => Err(e)
      case Ok((deltas, mid)) =>
        match TakeList(buf, mid)
        case Err(e) => Err(e)
        case Ok((ids, end)) =>
          match DecodeIds(ids)
          case None => Err("invalid UTF-8")
          case Some(order) =>
            if end != |buf| then Err("dynamic filter history in the state token has trailing bytes")
            else Ok(History(deltas, order))
  }

  /** The reader's loop: a count, then length-prefixed chunks, each checked before it is read. */
  method ReadList(buf: seq<Byte>, off: nat) returns (r: Result<(seq<seq<Byte>>, nat)>)
    requires off <= |buf|
    ensures r == TakeList(buf, off)
  {
    if off + 4 > |buf| { return Err(TRUNCATED); }
    var count := GetU32(buf[off..off + 4]);
    var offset: nat := off + 4;
    var chunks := [];
    Onto(TakeItems(buf, offset, count));
    for i := 0 to count
      invariant offset <= |buf|
      invariant TakeList(buf, off) ==
        match TakeItems(buf, offset, count - i)
        case Err(e) => Err(e)
        case Ok((items, end)) => Ok((chunks + items, end))
    {
      if offset + 4 > |buf| { return Err(TRUNCATED); }
      var length := GetU32(buf[offset..offset + 4]);
      if offset + 4 + length > |buf| { return Err(TRUNCATED); }
      var chunk := buf[offset + 4..offset + 4 + length];
      ghost var rest := TakeItems(buf, offset + 4 + length, count - i - 1);
      if rest.Ok? { Assoc(chunks, [chunk], rest.value.0); }
      chunks := chunks + [chunk];
      offset := offset + 4 + length;
    }
    assert chunks + [] == chunks;
    r := Ok((chunks, offset));
  }

  lemma Onto(r: Result<(seq<seq<Byte>>, nat)>)
    ensures r == match r case Err(e) => Err(e) case Ok((items, end)) => Ok(([] + items, end))
  {
    if r.Ok? { assert [] + r.value.0 == r.value.0; }
  }

  method ReadIds(ids: seq<seq<Byte>>) returns (order: Option<seq<Utf8.Text>>)
    ensures order == DecodeIds(ids)
  {
    var read := [];
    assert ids[0..] == ids;
    if DecodeIds(ids).Some? { assert [] + DecodeIds(ids).value == DecodeIds(ids).value; }
    for i := 0 to |ids|
      invariant DecodeIds(ids) ==
        match DecodeIds(ids[i..]) case None => None case Some(rest) => Some(read + rest)
    {
      assert ids[i..][1..] == ids[i+1..];
      var id := Utf8.Decode(ids[i]);
      if id.None? { return None; }
      ghost var rest := DecodeIds(ids[i+1..]);
      if rest.Some? { Assoc(read, [id.value], rest.value); }
      read := read + [id.value];
    }
    assert read + [] == read;
    order := Some(read);
  }

  method DecodeFilterHistory(buf: seq<Byte>) returns (r: Result<History>)
    ensures r == Decode(buf)
  {
    if buf == [] { return Ok(EMPTY); }
    if buf[0] != FORMAT_VERSION { return Err("dynamic filter history in the state token has an unknown format"); }
    var deltas := ReadList(buf, 1);
    if deltas.Err? { return Err(deltas.error); }
    var ids := ReadList(buf, deltas.value.1);
    if ids.Err? { return Err(ids.error); }
    var order := ReadIds(ids.value.0);
    if order.None? { return Err("invalid UTF-8"); }
    if ids.value.1 != |buf| { return Err("dynamic filter history in the state token has trailing bytes"); }
    r := Ok(History(deltas.value.0, order.value));
  }

  // ---- what the reader accepts -------------------------------------------

  /** Reading `count` items succeeds exactly on a stretch that lays out that many. */
  lemma {:induction false} TakeItemsIff(buf: seq<Byte>, off: nat, count: nat, items: seq<seq<Byte>>, end: nat)
    requires off <= |buf|
    ensures TakeItems(buf, off, count) == Ok((items, end)) <==>
      && |items| == count && (forall i :: 0 <= i < count ==> |items[i]| < TWO_32)
      && off <= end <= |buf| && buf[off..end] == LayItems(items)
    decreases count
  {
    if TakeItems(buf, off, count) == Ok((items, end)) {
      TakenIsLaid(buf, off, count, items, end);
    }
    if |items| == count && (forall i :: 0 <= i < count ==> |items[i]| < TWO_32)
      && off <= end <= |buf| && buf[off..end] == LayItems(items)
    {
      LaidIsTaken(buf, off, items, end);
    }
  }

  lemma {:induction false} TakenIsLaid(buf: seq<Byte>, off: nat, count: nat, items: seq<seq<Byte>>, end: nat)
    requires off <= |buf| && TakeItems(buf, off, count) == Ok((items, end))
    ensures |items| == count && (forall i :: 0 <= i < count ==> |items[i]| < TWO_32)
    ensures buf[off..end] == LayItems(items)
    decreases count
  {
    if count > 0 {
      var len := GetU32(buf[off..off + 4]);
      U32FieldRoundTrip(buf[off..off + 4]);
      var next := off + 4 + len;
      var rest := TakeItems(buf, next, count - 1).value.0;
      TakenIsLaid(buf, next, count - 1, rest, end);
      assert items == [buf[off + 4..next]] + rest && items[1..] == rest;
      assert buf[off..end] == (buf[off..off + 4] + buf[off + 4..next]) + buf[next..end];
    }
  }

  lemma {:induction false} LaidIsTaken(buf: seq<Byte>, off: nat, items: seq<seq<Byte>>, end: nat)
    requires off <= end <= |buf| && buf[off..end] == LayItems(items)
    requires forall i :: 0 <= i < |items| ==> |items[i]| < TWO_32
    ensures TakeItems(buf, off, |items|) == Ok((items, end))
    decreases |items|
  {
    if items != [] {
      FirstItem(buf, off, end, items[0], LayItems(items[1..]));
      LaidIsTaken(buf, off + 4 + |items[0]|, items[1..], end);
      assert items == [items[0]] + items[1..];
    }
  }

  lemma FirstItem(buf: seq<Byte>, off: nat, end: nat, item: seq<Byte>, rest: seq<Byte>)
    requires off <= end <= |buf| && |item| < TWO_32 && buf[off..end] == (PutU32(|item|) + item) + rest
    ensures off + 4 + |item| <= end && GetU32(buf[off..off + 4]) == |item|
    ensures buf[off + 4..off + 4 + |item|] == item && buf[off + 4 + |item|..end] == rest
  {
    hide PutU32, GetU32;
    var n := |item|;
    U32RoundTrip(n);
    ItemSlices(PutU32(n), item, rest);
    SliceSlice(buf, off, end, 0, 4);
    SliceSlice(buf, off, end, 4, 4 + n);
    SliceSlice(buf, off, end, 4 + n, end - off);
  }

  lemma ItemSlices(head: seq<Byte>, item: seq<Byte>, rest: seq<Byte>)
    ensures var s := (head + item) + rest;
      && s[0..|head|] == head && s[|head|..|head| + |item|] == item && s[|head| + |item|..|s|] == rest
  {
  }

  lemma SliceSlice(buf: seq<Byte>, off: nat, end: nat, a: nat, b: nat)
    requires off <= end <= |buf| && a <= b <= end - off
    ensures buf[off..end][a..b] == buf[off + a..off + b]
  {
    forall k | 0 <= k < b - a ensures buf[off..end][a..b][k] == buf[off + a..off + b][k] {}
  }

  lemma TakeListIff(buf: seq<Byte>, off: nat, items: seq<seq<Byte>>, end: nat)
    requires off <= |buf|
    ensures TakeList(buf, off) == Ok((items, end)) <==>
      Fits(items) && off <= end <= |buf| && buf[off..end] == LayList(items)
  {
    if off + 4 <= |buf| {
      var count := GetU32(buf[off..off + 4]);
      U32FieldRoundTrip(buf[off..off + 4]);
      TakeItemsIff(buf, off + 4, count, items, end);
      if TakeList(buf, off) == Ok((items, end)) {
        assert buf[off..end] == buf[off..off + 4] + buf[off + 4..end];
      }
      if Fits(items) && off <= end <= |buf| && buf[off..end] == LayList(items) {
        U32RoundTrip(|items|);
        assert buf[off..off + 4] == buf[off..end][..4] == PutU32(|items|);
        assert buf[off + 4..end] == buf[off..end][4..] == LayItems(items);
      }
    }
  }

  /** The decoder accepts exactly the empty token and the layouts of what it returns, whose ids are valid text. */
  lemma DecodeIff(buf: seq<Byte>, h: History)
    ensures Decode(buf) == Ok(h) <==>
      (buf == [] && h == EMPTY)
      || exists ids ::
        Fits(h.deltas) && Fits(ids) && buf == Layout(h.deltas, ids) && DecodeIds(ids) == Some(h.order)
  {
    if buf != [] && Decode(buf) == Ok(h) {
      var mid := TakeList(buf, 1).value.1;
      var ids := TakeList(buf, mid).value.0;
      TakeListIff(buf, 1, h.deltas, mid);
      TakeListIff(buf, mid, ids, |buf|);
      assert buf == [buf[0]] + buf[1..mid] + buf[mid..|buf|];
      assert Fits(ids) && buf == Layout(h.deltas, ids);
    }
    if ids :| Fits(h.deltas) && Fits(ids) && buf == Layout(h.deltas, ids) && DecodeIds(ids) == Some(h.order) {
      LayoutDecodes(h, ids);
    }
  }

  lemma LayoutDecodes(h: History, ids: seq<seq<Byte>>)
    requires Fits(h.deltas) && Fits(ids)
    ensures Decode(Layout(h.deltas, ids)) ==
      match DecodeIds(ids) case None => Err("invalid UTF-8") case Some(order) => Ok(History(h.deltas, order))
  {
    var buf, mid := Layout(h.deltas, ids), 1 + |LayList(h.deltas)|;
    TakeListIff(buf, 1, h.deltas, mid);
    TakeListIff(buf, mid, ids, |buf|);
  }

  lemma {:induction false} IdsCarried(order: seq<Utf8.Text>)
    ensures DecodeIds(EncodeIds(order)) == Some(Map(order, Utf8.Carried))
  {
    if order != [] {
      IdsCarried(order[1..]);
      Utf8.DecodeEncode(order[0]);
      assert EncodeIds(order)[1..] == EncodeIds(order[1..]);
      assert Map(order, Utf8.Carried) == [Utf8.Carried(order[0])] + Map(order[1..], Utf8.Carried);
    }
  }

  /** What the token brings back: the deltas as they were, each id as the text codec leaves it. */
  lemma EncodedDecodes(h: History)
    requires Fits(h.deltas) && Fits(EncodeIds(h.order))
    ensures Decode(Layout(h.deltas, EncodeIds(h.order))) == Ok(History(h.deltas, Map(h.order, Utf8.Carried)))
  {
    LayoutDecodes(h, EncodeIds(h.order));
    IdsCarried(h.order);
  }

  /** The round trip: the history comes back if and only if no id holds a lone surrogate or starts with U+FEFF. */
  lemma HistoryRoundTrip(h: History)
    requires Fits(h.deltas) && Fits(EncodeIds(h.order))
    ensures Decode(Layout(h.deltas, EncodeIds(h.order))) == Ok(h)
      <==> forall i :: 0 <= i < |h.order| ==> Utf8.Survives(h.order[i])
  {
    EncodedDecodes(h);
    var carried := Map(h.order, Utf8.Carried);
    forall i | 0 <= i < |h.order| ensures carried[i] == h.order[i] <==> Utf8.Survives(h.order[i]) {
      Utf8.CarriedIff(h.order[i]);
    }
    assert carried == h.order <==> forall i :: 0 <= i < |h.order| ==> carried[i] == h.order[i];
  }

  /** The one-id history of U+FEFF `a` comes back as that of `a`. */
  lemma MarkedIdIsLost(delta: seq<Byte>)
    requires |delta| < TWO_32
    ensures Decode(Layout([delta], EncodeIds([[Utf8.MARK, 97]]))) == Ok(History([delta], [[97]]))
  {
    Utf8.LossyTexts();
    var h := History([delta], [[Utf8.MARK, 97]]);
    EncodedDecodes(h);
    assert Map(h.order, Utf8.Carried) == [[97]];
  }

  /** Lists are self-delimiting: what follows one does not change how it reads. */
  lemma TakeListExtends(a: seq<Byte>, b: seq<Byte>, off: nat)
    requires off <= |a| && TakeList(a, off).Ok?
    ensures TakeList(a + b, off) == TakeList(a, off)
  {
    var (items, end) := TakeList(a, off).value;
    TakeListIff(a, off, items, end);
    assert (a + b)[off..end] == a[off..end];
    TakeListIff(a + b, off, items, end);
  }

  /** No token is a proper prefix of another: truncated tokens and trailing bytes are refused. */
  lemma TokensArePrefixFree(a: seq<Byte>, b: seq<Byte>)
    requires a != [] && b != [] && Decode(a).Ok?
    ensures Decode(a + b).Err?
  {
    TakeListExtends(a, b, 1);
    TakeListExtends(a, b, TakeList(a, 1).value.1);
  }
}
