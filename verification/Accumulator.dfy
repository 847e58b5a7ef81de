/**
 Rows accumulated under a name. What one call stores becomes a segment, stamped
 with the time of the call; a collection is the bytes of all its segments, one after
 the other. Seen through its decoder, it is a flat list of stamped rows.
 */
module Accumulator {
  import opened Seqs
  import opened Bytes
  import Utf8

  datatype Stamped = Stamped(row: int, ts: int)

  /** The batch codec, known only to be invertible. */
  datatype Codec = Codec(ser: seq<Stamped> -> seq<Byte>, de: seq<Byte> -> seq<Stamped>) {
    ghost predicate Inverse() { forall b :: de(ser(b)) == b }
  }

  /** Every run of consecutive rows of the batch serializes within a 32-bit length. */
  ghost predicate Small(c: Codec, b: seq<Stamped>) {
    forall i, j :: 0 <= i <= j <= |b| ==> |c.ser(b[i..j])| < TWO_32
  }

  datatype Segment = Segment(ts: int, bytes: seq<Byte>)

  // ---- the segment list --------------------------------------------------

  function EncodeOne(s: Segment): seq<Byte> { Put64(s.ts) + PutU32(|s.bytes|) + s.bytes }

  function EncodeAll(segs: seq<Segment>): seq<Byte> { FlatMap(segs, EncodeOne) }

  /** The segment whose header starts at `off`; a payload cut short by the end is kept as it is. */
  function SegmentAt(buf: seq<Byte>, off: nat): Segment
    requires off + 12 <= |buf|
  {
    var end := Min(off + 12 + LengthAt(buf, off), |buf|);
    Segment(GetI64(buf[off..off + 8]), buf[off + 12..end])
  }

  function LengthAt(buf: seq<Byte>, off: nat): nat
    requires off + 12 <= |buf|
  {
    GetU32(buf[off + 8..off + 12])
  }

  /** Reads segments until fewer than twelve bytes are left. */
  function DecodeFrom(buf: seq<Byte>, off: nat): seq<Segment>
    decreases |buf| - off
  {
    if off + 12 > |buf| then [] else [SegmentAt(buf, off)] + DecodeFrom(buf, off + 12 + LengthAt(buf, off))
  }

  function DecodeAll(buf: seq<Byte>): seq<Segment> { DecodeFrom(buf, 0) }

  ghost predicate Encodable(s: Segment) { FitsI64(s.ts) && |s.bytes| < TWO_32 }

  lemma HeaderAt(pre: seq<Byte>, s: Segment, rest: seq<Byte>)
    requires Encodable(s)
    ensures var buf := pre + EncodeOne(s) + rest;
      SegmentAt(buf, |pre|) == s && LengthAt(buf, |pre|) == |s.bytes|
  {
    var buf, off := pre + EncodeOne(s) + rest, |pre|;
    I64RoundTrip(s.ts);
    U32RoundTrip(|s.bytes|);
    var e := EncodeOne(s);
    assert e[0..8] == Put64(s.ts) && e[8..12] == PutU32(|s.bytes|) && e[12..|e|] == s.bytes;
    Window(pre, e, rest, 0, 8);
    Window(pre, e, rest, 8, 12);
    Window(pre, e, rest, 12, |e|);
  }

  lemma Window<T>(pre: seq<T>, mid: seq<T>, rest: seq<T>, a: nat, b: nat)
    requires a <= b <= |mid|
    ensures (pre + mid + rest)[|pre| + a..|pre| + b] == mid[a..b]
  {
  }

  lemma {:induction false} DecodeSuffix(pre: seq<Byte>, segs: seq<Segment>)
    requires forall i :: 0 <= i < |segs| ==> Encodable(segs[i])
    ensures DecodeFrom(pre + EncodeAll(segs), |pre|) == segs
    decreases |segs|
  {
    if segs != [] {
      var buf := pre + EncodeAll(segs);
      HeaderAt(pre, segs[0], EncodeAll(segs[1..]));
      assert buf == pre + EncodeOne(segs[0]) + EncodeAll(segs[1..]);
      DecodeSuffix(pre + EncodeOne(segs[0]), segs[1..]);
    }
  }

  /** The stored bytes give back exactly the segments they were made from. */
  lemma DecodeEncode(segs: seq<Segment>)
    requires forall i :: 0 <= i < |segs| ==> Encodable(segs[i])
    ensures DecodeAll(EncodeAll(segs)) == segs
  {
    DecodeSuffix([], segs);
    assert [] + EncodeAll(segs) == EncodeAll(segs);
  }

  lemma {:induction false} EncodedLength(segs: seq<Segment>, i: nat)
    requires i < |segs|
    ensures EncodeAll(segs[..i+1]) == EncodeAll(segs[..i]) + EncodeOne(segs[i])
  {
    assert segs[..i+1] == segs[..i] + [segs[i]];
    FlatMapAppend(segs[..i], [segs[i]], EncodeOne);
    assert FlatMap([segs[i]], EncodeOne) == EncodeOne(segs[i]) + FlatMap([], EncodeOne);
  }

  lemma EncodedPrefix(segs: seq<Segment>, i: nat)
    requires i <= |segs|
    ensures |EncodeAll(segs[..i])| <= |EncodeAll(segs)|
  {
    assert segs == segs[..i] + segs[i..];
    FlatMapAppend(segs[..i], segs[i..], EncodeOne);
  }

  /** Size the buffer, then write every segment at an advancing offset. */
  method EncodeSegments(segs: seq<Segment>) returns (out: array<Byte>)
    ensures fresh(out) && out[..] == EncodeAll(segs)
  {
    var total := 0;
    for i := 0 to |segs|
      invariant total == |EncodeAll(segs[..i])|
    {
      EncodedLength(segs, i);
      total := total + 12 + |segs[i].bytes|;
    }
    assert segs[..|segs|] == segs;
    out := new Byte[total](_ => 0);
    var off := 0;
    for i := 0 to |segs|
      invariant off == |EncodeAll(segs[..i])| <= out.Length == |EncodeAll(segs)|
      invariant out[..off] == EncodeAll(segs[..i])
    {
      EncodedLength(segs, i);
      EncodedPrefix(segs, i + 1);
      Blit(out, off, EncodeOne(segs[i]));
      assert out[..off + |EncodeOne(segs[i])|] == out[..off] + out[off..off + |EncodeOne(segs[i])|];
      off := off + |EncodeOne(segs[i])|;
    }
  }

  method DecodeSegments(buf: seq<Byte>) returns (segs: seq<Segment>)
    ensures segs == DecodeAll(buf)
  {
    segs := [];
    var off := 0;
    while off + 12 <= |buf|
      invariant segs + DecodeFrom(buf, off) == DecodeAll(buf)
    {
      var seg, len := SegmentAt(buf, off), LengthAt(buf, off);
      Assoc(segs, [seg], DecodeFrom(buf, off + 12 + len));
      segs := segs + [seg];
      off := off + 12 + len;
    }
  }

  // ---- rows --------------------------------------------------------------

  function RowsIn(c: Codec): Segment -> seq<Stamped> { (s: Segment) => c.de(s.bytes) }

  /** All the rows of a collection, oldest first. */
  function Rows(c: Codec, segs: seq<Segment>): seq<Stamped> { FlatMap(segs, RowsIn(c)) }

  /** A stored segment: not empty, of one timestamp, and small enough to encode however it is cut. */
  ghost predicate Stored(c: Codec, s: Segment) {
    && FitsI64(s.ts) && |s.bytes| < TWO_32
    && c.de(s.bytes) != []
    && (forall i :: 0 <= i < |c.de(s.bytes)| ==> c.de(s.bytes)[i].ts == s.ts)
    && Small(c, c.de(s.bytes))
  }

  ghost predicate AllStored(c: Codec, segs: seq<Segment>) {
    forall i :: 0 <= i < |segs| ==> Stored(c, segs[i])
  }

  function Stamp(rows: seq<int>, ts: int): (stamped: seq<Stamped>)
    ensures |stamped| == |rows| && forall i :: 0 <= i < |rows| ==> stamped[i].row == rows[i] && stamped[i].ts == ts
  {
    Map(rows, (r: int) => Stamped(r, ts))
  }

  /** Keep rows `[from, to)` of a segment, rebuilding the timestamp column from the segment's own. */
  function Slice(c: Codec, s: Segment, from: nat, to: nat): Segment
    requires from <= to <= |c.de(s.bytes)|
  {
    Segment(s.ts, c.ser(Map(c.de(s.bytes)[from..to], (r: Stamped) => Stamped(r.row, s.ts))))
  }

  lemma SliceRows(c: Codec, s: Segment, from: nat, to: nat)
    requires c.Inverse() && Stored(c, s) && from < to <= |c.de(s.bytes)|
    ensures Stored(c, Slice(c, s, from, to))
    ensures c.de(Slice(c, s, from, to).bytes) == c.de(s.bytes)[from..to]
  {
    var all := c.de(s.bytes);
    var kept := all[from..to];
    assert Map(kept, (r: Stamped) => Stamped(r.row, s.ts)) == kept;
    forall i, j | 0 <= i <= j <= |kept| ensures |c.ser(kept[i..j])| < TWO_32 {
      assert kept[i..j] == all[from + i..from + j];
    }
    assert kept == kept[0..|kept|];
  }

  // ---- eviction ----------------------------------------------------------

  /** Drop whole segments older than the cutoff; a cutoff that is not positive drops nothing. */
  function EvictTtl(segs: seq<Segment>, cutoff: int): seq<Segment> {
    if cutoff <= 0 then segs else SinceSegs(segs, cutoff)
  }

  function SinceSegs(segs: seq<Segment>, cutoff: int): seq<Segment> {
    if segs == [] then [] else (if segs[0].ts >= cutoff then [segs[0]] else []) + SinceSegs(segs[1..], cutoff)
  }

  function Since(rows: seq<Stamped>, cutoff: int): seq<Stamped> {
    if rows == [] then [] else (if rows[0].ts >= cutoff then [rows[0]] else []) + Since(rows[1..], cutoff)
  }

  function KeepSince(rows: seq<Stamped>, cutoff: int): seq<Stamped> {
    if cutoff <= 0 then rows else Since(rows, cutoff)
  }

  lemma {:induction false} SinceUniform(rows: seq<Stamped>, ts: int, cutoff: int, rest: seq<Stamped>)
    requires forall i :: 0 <= i < |rows| ==> rows[i].ts == ts
    ensures Since(rows + rest, cutoff) == (if ts >= cutoff then rows else []) + Since(rest, cutoff)
  {
    if rows == [] {
      assert rows + rest == rest;
    } else {
      assert (rows + rest)[1..] == rows[1..] + rest;
      SinceUniform(rows[1..], ts, cutoff, rest);
    }
  }

  /** Evicting segments by age evicts exactly the rows of that age. */
  lemma {:induction false} EvictTtlRows(c: Codec, segs: seq<Segment>, cutoff: int)
    requires AllStored(c, segs)
    ensures AllStored(c, SinceSegs(segs, cutoff))
    ensures Rows(c, SinceSegs(segs, cutoff)) == Since(Rows(c, segs), cutoff)
  {
    if segs != [] {
      EvictTtlRows(c, segs[1..], cutoff);
      assert Stored(c, segs[0]);
      SinceUniform(c.de(segs[0].bytes), segs[0].ts, cutoff, Rows(c, segs[1..]));
      if segs[0].ts >= cutoff {
        assert SinceSegs(segs, cutoff)[1..] == SinceSegs(segs[1..], cutoff);
      } else {
        assert SinceSegs(segs, cutoff) == SinceSegs(segs[1..], cutoff);
      }
    }
  }

  function KeepLast(rows: seq<Stamped>, max: nat): seq<Stamped> {
    if |rows| <= max then rows else rows[|rows| - max..]
  }

  /** Drop the first `k` rows: whole segments while they last, then part of one. */
  function DropRows(c: Codec, segs: seq<Segment>, k: nat): seq<Segment>
    decreases |segs|
  {
    if segs == [] || k == 0 then segs else
      var n := |c.de(segs[0].bytes)|;
      if k >= n then DropRows(c, segs[1..], k - n)
      else [Slice(c, segs[0], k, n)] + segs[1..]
  }

  lemma {:induction false} DropRowsFacts(c: Codec, segs: seq<Segment>, k: nat)
    requires c.Inverse() && AllStored(c, segs) && k <= |Rows(c, segs)|
    ensures AllStored(c, DropRows(c, segs, k))
    ensures Rows(c, DropRows(c, segs, k)) == Rows(c, segs)[k..]
    decreases |segs|
  {
    if segs != [] && k > 0 {
      assert Stored(c, segs[0]);
      var head, rest := c.de(segs[0].bytes), Rows(c, segs[1..]);
      assert Rows(c, segs) == head + rest;
      var n := |head|;
      if k >= n {
        DropRowsFacts(c, segs[1..], k - n);
        assert (head + rest)[k..] == rest[k - n..];
      } else {
        SliceRows(c, segs[0], k, n);
        assert (head + rest)[k..] == head[k..n] + rest;
        var out := [Slice(c, segs[0], k, n)] + segs[1..];
        assert out[1..] == segs[1..];
      }
    }
  }

  method TotalRows(c: Codec, segs: seq<Segment>) returns (n: nat)
    ensures n == |Rows(c, segs)|
  {
    n := 0;
    for i := 0 to |segs|
      invariant n == |Rows(c, segs[..i])|
    {
      assert segs[..i+1] == segs[..i] + [segs[i]];
      FlatMapAppend(segs[..i], [segs[i]], RowsIn(c));
      assert FlatMap([segs[i]], RowsIn(c)) == RowsIn(c)(segs[i]) + FlatMap([], RowsIn(c));
      n := n + |c.de(segs[i].bytes)|;
    }
    assert segs[..|segs|] == segs;
  }

  /** Keep the newest `max` rows: skip the oldest segments, trim the one at the boundary. */
  method EvictMaxRows(c: Codec, segs: seq<Segment>, max: nat) returns (kept: seq<Segment>)
    ensures kept == if |Rows(c, segs)| <= max then segs else DropRows(c, segs, |Rows(c, segs)| - max)
  {
    var total := TotalRows(c, segs);
    if total <= max { return segs; }
    var overflow: nat := total - max;
    kept := [];
    var dropping := true;
    for i := 0 to |segs|
      invariant dropping ==> kept == [] && DropRows(c, segs[i..], overflow) == DropRows(c, segs, total - max)
      invariant !dropping ==> kept + segs[i..] == DropRows(c, segs, total - max)
      invariant dropping ==> overflow > 0
    {
      assert segs[i..][1..] == segs[i+1..] && segs[i..][0] == segs[i];
      if !dropping {
        assert kept + ([segs[i]] + segs[i+1..]) == kept + [segs[i]] + segs[i+1..];
        kept := kept + [segs[i]];
        continue;
      }
      var n := |c.de(segs[i].bytes)|;
      if overflow >= n {
        overflow := overflow - n;
        if overflow == 0 { dropping := false; }
      } else {
        kept := kept + [Slice(c, segs[i], overflow, n)];
        overflow := 0;
        dropping := false;
      }
    }
    assert segs[|segs|..] == [];
  }

  // ---- one call ----------------------------------------------------------

  datatype ResultMode = ResultAll | ResultNew | ResultNone

  /** An interval argument in the shapes a worker may be handed it; `Quad` has the nanoseconds as two signed halves. */
  datatype Interval =
    | Quad(months: int, days: int, low: int, high: int)
    | Fields(months: int, days: int, nanos: int)
    | Microseconds(micros: int)

  /** Division as on big integers, towards zero. */
  function TruncDiv(a: int, d: nat): int
    requires d > 0
  {
    if a < 0 then -((-a) / d) else a / d
  }

  function NanosOf(i: Interval): int
    requires !i.Microseconds?
  {
    match i case Quad(_, _, low, high) => high * TWO_32 + low % TWO_32 case Fields(_, _, nanos) => nanos
  }

  function Micros(i: Interval): int {
    match i
    case Microseconds(micros) => micros
    case Quad(months, days, _, _) => (months * 30 + days) * 86_400_000_000 + TruncDiv(NanosOf(i), 1000)
    case Fields(months, days, _) => (months * 30 + days) * 86_400_000_000 + TruncDiv(NanosOf(i), 1000)
  }

  /** The two signed halves of a 64-bit number. */
  function Halves(nanos: int): (h: (int, int))
    requires FitsI64(nanos)
  {
    var low := nanos % TWO_32;
    (if low < TWO_32 / 2 then low else low - TWO_32, nanos / TWO_32)
  }

  /** Reading the halves back gives the nanoseconds, negative ones included, so both shapes mean the same interval. */
  lemma QuadMeansFields(months: int, days: int, nanos: int)
    requires FitsI64(nanos)
    ensures var (low, high) := Halves(nanos);
      && -TWO_32 / 2 <= low < TWO_32 / 2 && -TWO_32 / 2 <= high < TWO_32 / 2
      && Micros(Quad(months, days, low, high)) == Micros(Fields(months, days, nanos))
  {
    var (low, high) := Halves(nanos);
    assert low % TWO_32 == nanos % TWO_32;
    assert high * TWO_32 + nanos % TWO_32 == nanos;
    hide TruncDiv;
  }

  /** What one accumulate call asks for; `maxRows <= 0` means no cap. */
  datatype Request = Request(rows: seq<int>, now: int, ttl: Option<Interval>, maxRows: int, mode: ResultMode)

  function Ttl(q: Request): Option<int> { if q.ttl.Some? then Some(Micros(q.ttl.value)) else None }

  function NewSegment(c: Codec, q: Request): Segment { Segment(q.now, c.ser(Stamp(q.rows, q.now))) }

  function Appended(c: Codec, segs: seq<Segment>, q: Request): seq<Segment> {
    if q.rows != [] then segs + [NewSegment(c, q)] else segs
  }

  function Aged(segs: seq<Segment>, q: Request): seq<Segment> {
    if Ttl(q).Some? then EvictTtl(segs, q.now - Ttl(q).value) else segs
  }

  function Capped(c: Codec, segs: seq<Segment>, q: Request): seq<Segment> {
    if q.maxRows > 0 && |Rows(c, segs)| > q.maxRows then DropRows(c, segs, |Rows(c, segs)| - q.maxRows) else segs
  }

  /** Append this call's segment if it has rows, then evict by age, then by count. */
  function CombineSegs(c: Codec, segs: seq<Segment>, q: Request): seq<Segment> {
    Capped(c, Aged(Appended(c, segs, q), q), q)
  }

  method CombineSegments(c: Codec, stored: seq<Segment>, q: Request) returns (segs: seq<Segment>)
    ensures segs == CombineSegs(c, stored, q)
  {
    segs := stored;
    if q.rows != [] { segs := segs + [NewSegment(c, q)]; }
    if Ttl(q).Some? { segs := EvictTtl(segs, q.now - Ttl(q).value); }
    if q.maxRows > 0 { segs := EvictMaxRows(c, segs, q.maxRows); }
  }

  /** The flat reference: the rows a collection should hold after the call. */
  function CombineRows(rows: seq<Stamped>, q: Request): seq<Stamped> {
    var appended := rows + Stamp(q.rows, q.now);
    var aged := if Ttl(q).Some? then KeepSince(appended, q.now - Ttl(q).value) else appended;
    if q.maxRows > 0 then KeepLast(aged, q.maxRows) else aged
  }

  ghost predicate Storable(c: Codec, q: Request) {
    FitsI64(q.now) && Small(c, Stamp(q.rows, q.now))
  }

  lemma AppendRows(c: Codec, segs: seq<Segment>, q: Request)
    requires c.Inverse() && AllStored(c, segs) && Storable(c, q)
    ensures AllStored(c, Appended(c, segs, q))
    ensures Rows(c, Appended(c, segs, q)) == Rows(c, segs) + Stamp(q.rows, q.now)
  {
    var stamped := Stamp(q.rows, q.now);
    if q.rows != [] {
      var seg := NewSegment(c, q);
      assert stamped == stamped[0..|stamped|];
      FlatMapAppend(segs, [seg], RowsIn(c));
      assert FlatMap([seg], RowsIn(c)) == RowsIn(c)(seg) + FlatMap([], RowsIn(c));
    }
  }

  /** On stored segments, combining refines the flat reference and stores no empty segment. */
  lemma CombineRefines(c: Codec, segs: seq<Segment>, q: Request)
    requires c.Inverse() && AllStored(c, segs) && Storable(c, q)
    ensures AllStored(c, CombineSegs(c, segs, q))
    ensures Rows(c, CombineSegs(c, segs, q)) == CombineRows(Rows(c, segs), q)
  {
    hide Rows, Appended, Stamp, KeepSince, KeepLast, AllStored, Aged, Capped;
    AppendRows(c, segs, q);
    AgeRows(c, Appended(c, segs, q), q);
    CapRows(c, Aged(Appended(c, segs, q), q), q);
  }

  lemma AgeRows(c: Codec, segs: seq<Segment>, q: Request)
    requires AllStored(c, segs)
    ensures AllStored(c, Aged(segs, q))
    ensures Rows(c, Aged(segs, q))
      == if Ttl(q).Some? then KeepSince(Rows(c, segs), q.now - Ttl(q).value) else Rows(c, segs)
  {
    if Ttl(q).Some? { EvictTtlRows(c, segs, q.now - Ttl(q).value); }
  }

  lemma CapRows(c: Codec, segs: seq<Segment>, q: Request)
    requires c.Inverse() && AllStored(c, segs)
    ensures AllStored(c, Capped(c, segs, q))
    ensures Rows(c, Capped(c, segs, q)) == if q.maxRows > 0 then KeepLast(Rows(c, segs), q.maxRows) else Rows(c, segs)
  {
    if q.maxRows > 0 && |Rows(c, segs)| > q.maxRows { DropRowsFacts(c, segs, |Rows(c, segs)| - q.maxRows); }
  }

  // ---- the store ---------------------------------------------------------

  /** Collections are scoped by attachment and named within it; an empty attach id means the default scope. */
  datatype Key = Key(scope: string, name: string)

  function KeyFor(attach: string, name: string): Key {
    Key(if |attach| > 0 then attach else "default", name)
  }

  const MAX_NAME_BYTES: nat := 255

  /** What `trim` removes: white space and line terminators. */
  predicate Blank(c: char) {
    var u := c as int;
    || 0x9 <= u <= 0xD || u == 0x20 || u == 0xA0 || u == 0x1680 || 0x2000 <= u <= 0x200A
    || u == 0x2028 || u == 0x2029 || u == 0x202F || u == 0x205F || u == 0x3000 || u == 0xFEFF
  }

  function Scalars(name: string): seq<Utf8.Scalar> { Map(name, (c: char) => c as int) }

  /** A name has something other than blanks, and at most 255 bytes. */
  predicate ValidName(name: string) {
    (exists i :: 0 <= i < |name| && !Blank(name[i])) && |Utf8.Written(Scalars(name))| <= MAX_NAME_BYTES
  }

  /** Column names and type signatures of an input. */
  type Schema = seq<(string, string)>

  /** The persistent key/value store: encoded segments, and pinned schemas with `None` for a tombstone. */
  datatype Disk = Disk(data: map<Key, seq<Byte>>, meta: map<Key, Option<Schema>>)

  function SegsAt(d: Disk, k: Key): seq<Segment> {
    if k in d.data then DecodeAll(d.data[k]) else []
  }

  function SchemaAt(d: Disk, k: Key): Option<Schema> {
    if k in d.meta then d.meta[k] else None
  }

  datatype Call =
    | Accumulate(attach: string, name: string, schema: Schema, request: Request)
    | Read(attach: string, name: string)
    | Clear(attach: string, name: string)

  function CallKey(call: Call): Key { KeyFor(call.attach, call.name) }

  /** An attachment that carries no id shares the scope of the id "default", and nobody else's. */
  predicate SameScope(a: string, b: string) {
    a == b || (a == "" && b == "default") || (a == "default" && b == "")
  }

  predicate Concerns(call: Call, attach: string, name: string) {
    call.name == name && SameScope(call.attach, attach)
  }

  lemma OwnKey(call: Call, attach: string, name: string)
    ensures CallKey(call) == KeyFor(attach, name) <==> Concerns(call, attach, name)
  {
  }

  /** Batches are streamed back one per tick. */
  datatype Reply = Batches(batches: seq<seq<Stamped>>) | Cleared(rows: nat) | Refused(reason: string)

  predicate HasTimestamp(s: Schema) { exists i :: 0 <= i < |s| && s[i].0 == "_timestamp" }

  function StagedBatches(c: Codec, segs: seq<Segment>): seq<seq<Stamped>> {
    Map(segs, (s: Segment) => c.de(s.bytes))
  }

  /** The result a call asked for; the new rows are staged even if eviction already dropped them. */
  function Staged(c: Codec, segs: seq<Segment>, q: Request): seq<seq<Stamped>> {
    match q.mode
    case ResultNone => []
    case ResultNew => if q.rows != [] then StagedBatches(c, [NewSegment(c, q)]) else []
    case ResultAll => StagedBatches(c, segs)
  }

  function Execute(c: Codec, d: Disk, call: Call): (Disk, Reply) {
    var k := CallKey(call);
    if !ValidName(call.name) then (d, Refused("bad collection name")) else
    match call
    case Accumulate(_, _, schema, q) =>
      if HasTimestamp(schema) then (d, Refused("reserved column"))
      else if SchemaAt(d, k).Some? && SchemaAt(d, k).value != schema then (d, Refused("schema mismatch"))
      else
        var segs := CombineSegs(c, SegsAt(d, k), q);
        (Disk(d.data[k := EncodeAll(segs)], d.meta[k := Some(schema)]),
         Batches(Staged(c, segs, q)))
    case Read(_, _) =>
      if SchemaAt(d, k).None? then (d, Refused("no such accumulation"))
      else (d, Batches(StagedBatches(c, SegsAt(d, k))))
    case Clear(_, _) =>
      (Disk(d.data[k := []], d.meta[k := None]), Cleared(|Rows(c, SegsAt(d, k))|))
  }

  // ---- the flat reference over whole runs --------------------------------

  datatype Flat = Flat(rows: map<Key, seq<Stamped>>, schemas: map<Key, Schema>)

  function RowsAt(f: Flat, k: Key): seq<Stamped> { if k in f.rows then f.rows[k] else [] }

  datatype FlatReply = FlatRows(rows: seq<Stamped>) | FlatCleared(count: nat) | FlatRefused

  /** The same calls over flat lists of stamped rows. */
  function FlatExecute(f: Flat, call: Call): (Flat, FlatReply) {
    var k := CallKey(call);
    if !ValidName(call.name) then (f, FlatRefused) else
    match call
    case Accumulate(_, _, schema, q) =>
      if HasTimestamp(schema) || (k in f.schemas && f.schemas[k] != schema) then (f, FlatRefused)
      else
        var rows := CombineRows(RowsAt(f, k), q);
        (Flat(f.rows[k := rows], f.schemas[k := schema]),
         FlatRows(match q.mode case ResultNone => [] case ResultNew => Stamp(q.rows, q.now) case ResultAll => rows))
    case Read(_, _) =>
      if k !in f.schemas then (f, FlatRefused) else (f, FlatRows(RowsAt(f, k)))
    case Clear(_, _) =>
      (Flat(f.rows - {k}, f.schemas - {k}), FlatCleared(|RowsAt(f, k)|))
  }

  ghost predicate Agrees(c: Codec, d: Disk, f: Flat, k: Key) {
    && AllStored(c, SegsAt(d, k))
    && Rows(c, SegsAt(d, k)) == RowsAt(f, k)
    && SchemaAt(d, k) == (if k in f.schemas then Some(f.schemas[k]) else None)
  }

  ghost predicate Refines(c: Codec, d: Disk, f: Flat) {
    forall k :: Agrees(c, d, f, k)
  }

  /** Replies agree: same rows in the same order with no empty batch, same count, same refusal. */
  ghost predicate SameReply(r: Reply, e: FlatReply) {
    match r
    case Batches(bs) => e == FlatRows(Flatten(bs)) && forall i :: 0 <= i < |bs| ==> bs[i] != []
    case Cleared(n) => e == FlatCleared(n)
    case Refused(_) => e == FlatRefused
  }

  lemma {:induction false} StagedFlatten(c: Codec, segs: seq<Segment>)
    ensures Flatten(StagedBatches(c, segs)) == Rows(c, segs)
  {
    if segs != [] {
      StagedFlatten(c, segs[1..]);
      assert StagedBatches(c, segs)[1..] == StagedBatches(c, segs[1..]);
    }
  }

  lemma EmptyDecodes()
    ensures DecodeAll([]) == []
  {
  }

  lemma StoredEncodes(c: Codec, segs: seq<Segment>)
    requires AllStored(c, segs)
    ensures DecodeAll(EncodeAll(segs)) == segs
  {
    forall i | 0 <= i < |segs| ensures Encodable(segs[i]) { assert Stored(c, segs[i]); }
    DecodeEncode(segs);
  }

  ghost predicate StorableCall(c: Codec, call: Call) { call.Accumulate? ==> Storable(c, call.request) }

  lemma StagedReply(c: Codec, segs: seq<Segment>, rows: seq<Stamped>, q: Request)
    requires c.Inverse() && Storable(c, q) && AllStored(c, segs) && Rows(c, segs) == rows
    ensures SameReply(Batches(Staged(c, segs, q)),
      FlatRows(match q.mode case ResultNone => [] case ResultNew => Stamp(q.rows, q.now) case ResultAll => rows))
  {
    match q.mode
    case ResultNone =>
    case ResultAll =>
      StagedFlatten(c, segs);
      forall i | 0 <= i < |segs| ensures c.de(segs[i].bytes) != [] { assert Stored(c, segs[i]); }
    case ResultNew =>
      if q.rows == [] {
        assert Stamp(q.rows, q.now) == [];
      } else {
        var seg := NewSegment(c, q);
        assert c.de(seg.bytes) == Stamp(q.rows, q.now);
        assert StagedBatches(c, [seg]) == [c.de(seg.bytes)];
        assert Flatten([c.de(seg.bytes)]) == c.de(seg.bytes) + Flatten([]);
      }
  }

  lemma ExecuteReply(c: Codec, d: Disk, f: Flat, call: Call)
    requires c.Inverse() && StorableCall(c, call) && Agrees(c, d, f, CallKey(call))
    ensures SameReply(Execute(c, d, call).1, FlatExecute(f, call).1)
  {
    var segs := SegsAt(d, CallKey(call));
    match call
    case Accumulate(_, _, schema, q) =>
      CombineRefines(c, segs, q);
      StagedReply(c, CombineSegs(c, segs, q), CombineRows(Rows(c, segs), q), q);
    case Read(_, _) =>
      StagedFlatten(c, segs);
      forall i | 0 <= i < |segs| ensures c.de(segs[i].bytes) != [] { assert Stored(c, segs[i]); }
    case Clear(_, _) =>
  }

  lemma ExecuteOwnKey(c: Codec, d: Disk, f: Flat, call: Call)
    requires c.Inverse() && StorableCall(c, call) && Agrees(c, d, f, CallKey(call))
    ensures Agrees(c, Execute(c, d, call).0, FlatExecute(f, call).0, CallKey(call))
  {
    var k := CallKey(call);
    if call.Accumulate? {
      CombineRefines(c, SegsAt(d, k), call.request);
      StoredEncodes(c, CombineSegs(c, SegsAt(d, k), call.request));
    } else if call.Clear? {
      EmptyDecodes();
    }
  }

  /** A call leaves every other collection alone. */
  lemma ExecuteOtherKeys(c: Codec, d: Disk, f: Flat, call: Call, k: Key)
    requires k != CallKey(call)
    ensures SegsAt(Execute(c, d, call).0, k) == SegsAt(d, k) && SchemaAt(Execute(c, d, call).0, k) == SchemaAt(d, k)
    ensures Agrees(c, d, f, k) ==> Agrees(c, Execute(c, d, call).0, FlatExecute(f, call).0, k)
  {
  }

  function RunDisk(c: Codec, d: Disk, calls: seq<Call>): (r: (Disk, seq<Reply>))
    ensures |r.1| == |calls|
  {
    if calls == [] then (d, [])
    else
      var (d', rs) := RunDisk(c, d, calls[..|calls|-1]);
      var (d'', r) := Execute(c, d', calls[|calls|-1]);
      (d'', rs + [r])
  }

  function RunFlat(f: Flat, calls: seq<Call>): (Flat, seq<FlatReply>) {
    if calls == [] then (f, [])
    else
      var (f', rs) := RunFlat(f, calls[..|calls|-1]);
      var (f'', r) := FlatExecute(f', calls[|calls|-1]);
      (f'', rs + [r])
  }

  const EMPTY_DISK := Disk(map[], map[])
  const EMPTY_FLAT := Flat(map[], map[])

  /**
   The byte store refines flat lists over every run: whatever calls were made on
   whatever names, every reply and every collection is what the flat lists give.
   */
  lemma {:induction false} StoreRefinesFlatLists(c: Codec, calls: seq<Call>)
    requires c.Inverse() && forall i :: 0 <= i < |calls| ==> StorableCall(c, calls[i])
    ensures Refines(c, RunDisk(c, EMPTY_DISK, calls).0, RunFlat(EMPTY_FLAT, calls).0)
    ensures |RunDisk(c, EMPTY_DISK, calls).1| == |RunFlat(EMPTY_FLAT, calls).1| == |calls|
    ensures forall i :: 0 <= i < |calls| ==>
      SameReply(RunDisk(c, EMPTY_DISK, calls).1[i], RunFlat(EMPTY_FLAT, calls).1[i])
  {
    if calls != [] {
      var n := |calls| - 1;
      StoreRefinesFlatLists(c, calls[..n]);
      var d, f, call := RunDisk(c, EMPTY_DISK, calls[..n]).0, RunFlat(EMPTY_FLAT, calls[..n]).0, calls[n];
      assert Agrees(c, d, f, CallKey(call));
      ExecuteReply(c, d, f, call);
      forall k ensures Agrees(c, Execute(c, d, call).0, FlatExecute(f, call).0, k) {
        assert Agrees(c, d, f, k);
        if k == CallKey(call) { ExecuteOwnKey(c, d, f, call); } else { ExecuteOtherKeys(c, d, f, call, k); }
      }
    }
  }

  // ---- the object that runs the calls ------------------------------------

  /** The worker's view of the store, overwriting one key per call. */
  class Store {
    var data: map<Key, seq<Byte>>
    var meta: map<Key, Option<Schema>>

    ghost function State(): Disk reads this { Disk(data, meta) }

    constructor ()
      ensures State() == EMPTY_DISK
    {
      data, meta := map[], map[];
    }

    method GetSegments(k: Key) returns (segs: seq<Segment>)
      ensures segs == SegsAt(State(), k)
    {
      if k in data { segs := DecodeSegments(data[k]); } else { segs := []; }
    }

    method PutSegments(k: Key, segs: seq<Segment>)
      modifies this
      ensures State() == old(State()).(data := old(data)[k := EncodeAll(segs)])
    {
      var out := EncodeSegments(segs);
      data := data[k := out[..]];
    }

    /** Drop a collection, leaving empty blobs behind, and say how many rows went. */
    method ClearName(c: Codec, k: Key) returns (rows: nat)
      modifies this
      ensures rows == |Rows(c, old(SegsAt(State(), k)))|
      ensures State() == Disk(old(data)[k := []], old(meta)[k := None])
    {
      var segs := GetSegments(k);
      rows := TotalRows(c, segs);
      data := data[k := []];
      meta := meta[k := None];
    }

    /** Bind, combine and stage one accumulate call. */
    method AccumulateCall(c: Codec, attach: string, name: string, schema: Schema, q: Request) returns (reply: Reply)
      modifies this
      ensures (State(), reply) == Execute(c, old(State()), Accumulate(attach, name, schema, q))
      ensures forall a, n :: !(n == name && SameScope(a, attach)) ==>
        && SegsAt(State(), KeyFor(a, n)) == SegsAt(old(State()), KeyFor(a, n))
        && SchemaAt(State(), KeyFor(a, n)) == SchemaAt(old(State()), KeyFor(a, n))
    {
      var k := KeyFor(attach, name);
      if !ValidName(name) { return Refused("bad collection name"); }
      if HasTimestamp(schema) { return Refused("reserved column"); }
      var existing := if k in meta then meta[k] else None;
      if existing.Some? && existing.value != schema { return Refused("schema mismatch"); }
      meta := meta[k := Some(schema)];
      var stored := GetSegments(k);
      var segs := CombineSegments(c, stored, q);
      PutSegments(k, segs);
      reply := Batches(Staged(c, segs, q));
    }
  }
}
