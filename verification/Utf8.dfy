/**
 Text as JavaScript holds it, sequences of UTF-16 code units, and the codec that
 `TextEncoder` and a fatal `TextDecoder` implement (section 8.1 of the Encoding
 Standard). The encoder replaces lone surrogates; the decoder refuses malformed
 bytes and drops one leading byte order mark.
 */
module Utf8 {
  import opened Seqs
  import opened Bytes

  type Unit = x: int | 0 <= x < 0x1_0000

  type Text = seq<Unit>

  type Scalar = x: int | 0 <= x < 0x11_0000 && !(0xD800 <= x < 0xE000)

  const MARK: Unit := 0xFEFF

  const REPLACEMENT: Unit := 0xFFFD

  predicate High(u: Unit) { 0xD800 <= u < 0xDC00 }

  predicate Low(u: Unit) { 0xDC00 <= u < 0xE000 }

  // ---- code units and scalar values --------------------------------------

  /** A text starts with a surrogate pair. */
  predicate PairFirst(t: Text) { |t| > 1 && High(t[0]) && Low(t[1]) }

  function Scalars(t: Text): seq<Scalar> {
    if t == [] then []
    else if PairFirst(t) then [0x1_0000 + (t[0] - 0xD800) * 1024 + (t[1] - 0xDC00)] + Scalars(t[2..])
    else [if High(t[0]) || Low(t[0]) then REPLACEMENT else t[0]] + Scalars(t[1..])
  }

  function UnitsOf(c: Scalar): Text {
    if c < 0x1_0000 then [c] else [0xD800 + (c - 0x1_0000) / 1024, 0xDC00 + (c - 0x1_0000) % 1024]
  }

  function Units(cs: seq<Scalar>): Text { FlatMap(cs, UnitsOf) }

  predicate PairedAt(t: Text, i: nat)
    requires i < |t|
  {
    && (High(t[i]) ==> i + 1 < |t| && Low(t[i+1]))
    && (Low(t[i]) ==> i > 0 && High(t[i-1]))
  }

  /** No surrogate stands alone. */
  predicate Paired(t: Text) { forall i :: 0 <= i < |t| ==> PairedAt(t, i) }

  /** Each lone surrogate is replaced. */
  function Repair(t: Text): Text {
    if t == [] then []
    else if PairFirst(t) then t[..2] + Repair(t[2..])
    else [if High(t[0]) || Low(t[0]) then REPLACEMENT else t[0]] + Repair(t[1..])
  }

  lemma {:induction false} UnitsOfScalars(t: Text)
    ensures Units(Scalars(t)) == Repair(t)
    decreases |t|
  {
    if t != [] {
      var head, rest := Scalars(t)[0], if PairFirst(t) then t[2..] else t[1..];
      UnitsOfScalars(rest);
      assert Scalars(t)[1..] == Scalars(rest);
      if PairFirst(t) { assert UnitsOf(head) == t[..2]; }
    }
  }

  lemma PairedCons(head: Text, rest: Text)
    requires Paired(rest)
    requires (PairFirst(head) && |head| == 2) || (|head| == 1 && !High(head[0]) && !Low(head[0]))
    ensures Paired(head + rest)
  {
    var t := head + rest;
    if rest != [] { assert PairedAt(rest, 0); }
    forall i | 0 <= i < |t| ensures PairedAt(t, i) {
      if i >= |head| { assert PairedAt(rest, i - |head|); }
    }
  }

  lemma PairedTail(t: Text, k: nat)
    requires k <= |t| && Paired(t) && (k < |t| ==> !Low(t[k]))
    ensures Paired(t[k..])
  {
    forall i | 0 <= i < |t[k..]| ensures PairedAt(t[k..], i) {
      assert PairedAt(t, k + i);
    }
  }

  /** Repairing leaves no lone surrogate, keeps the length, and changes nothing exactly when there was none. */
  lemma {:induction false} RepairFacts(t: Text)
    ensures Paired(Repair(t)) && |Repair(t)| == |t|
    ensures Repair(t) == t <==> Paired(t)
    ensures t != [] ==> (Repair(t)[0] == MARK <==> t[0] == MARK)
    decreases |t|
  {
    if t != [] {
      var k := if PairFirst(t) then 2 else 1;
      var head, rest := if PairFirst(t) then t[..2] else Repair(t)[..1], t[k..];
      RepairFacts(rest);
      assert Repair(t) == head + Repair(rest);
      PairedCons(head, Repair(rest));
      assert t == t[..k] + rest;
      if Repair(t) == t {
        assert Repair(t)[k..] == Repair(rest) && t[k..] == rest;
      }
      if Paired(t) {
        assert PairedAt(t, 0) && (k < |t| ==> PairedAt(t, k));
        PairedTail(t, k);
      }
    }
  }

  lemma {:induction false} ScalarsOfUnits(cs: seq<Scalar>)
    ensures Scalars(Units(cs)) == cs && Paired(Units(cs))
  {
    if cs != [] {
      var c, rest := cs[0], Units(cs[1..]);
      ScalarsOfUnits(cs[1..]);
      var t := UnitsOf(c) + rest;
      PairedCons(UnitsOf(c), rest);
      assert t[|UnitsOf(c)|..] == rest;
      assert Scalars(t) == [c] + Scalars(rest);
      assert cs == [c] + cs[1..];
    }
  }

  // ---- one scalar value in bytes -----------------------------------------

  function Put(c: Scalar): (b: seq<Byte>)
    ensures b != []
  {
    if c < 0x80 then [c]
    else if c < 0x800 then [0xC0 + c / 64, 0x80 + c % 64]
    else if c < 0x1_0000 then [0xE0 + c / 64 / 64, 0x80 + c / 64 % 64, 0x80 + c % 64]
    else [0xF0 + c / 64 / 64 / 64, 0x80 + c / 64 / 64 % 64, 0x80 + c / 64 % 64, 0x80 + c % 64]
  }

  /** The shortest of the four forms, with the number's bits in order (section 3 of RFC 3629). */
  lemma PutMeans(c: Scalar)
    ensures var b: seq<int> := Put(c);
      && |b| == (if c <= 0x7F then 1 else if c <= 0x7FF then 2 else if c <= 0xFFFF then 3 else 4)
      && (forall i :: 1 <= i < |b| ==> 0x80 <= b[i] <= 0xBF)
      && (|b| == 1 ==> c == b[0])
      && (|b| == 2 ==> 0xC0 <= b[0] <= 0xDF && c == (b[0] - 0xC0) * 0x40 + (b[1] - 0x80))
      && (|b| == 3 ==>
        0xE0 <= b[0] <= 0xEF && c == (b[0] - 0xE0) * 0x1000 + (b[1] - 0x80) * 0x40 + (b[2] - 0x80))
      && (|b| == 4 ==>
        && 0xF0 <= b[0] <= 0xF7
        && c == (b[0] - 0xF0) * 0x4_0000 + (b[1] - 0x80) * 0x1000 + (b[2] - 0x80) * 0x40 + (b[3] - 0x80))
  {
  }

  predicate Tail(b: Byte) { 0x80 <= b < 0xC0 }

  /** Six more bits. */
  function More(high: nat, tail: Byte): nat
    requires Tail(tail)
  {
    64 * high + (tail - 0x80) as int
  }

  /** The first scalar value of `b` and its length: no overlong form, no surrogate, nothing above U+10FFFF. */
  function Take(b: seq<Byte>): (r: Option<(Scalar, nat)>)
    requires b != []
    ensures r.Some? ==> 0 < r.value.1 <= |b|
  {
    var lead: int := b[0];
    if lead < 0x80 then Some((lead, 1))
    else if |b| < 2 || !Tail(b[1]) then None
    else if 0xC2 <= lead < 0xE0 then Some((More(lead - 0xC0, b[1]), 2))
    else if |b| < 3 || !Tail(b[2]) then None
    else if 0xE0 <= lead < 0xF0 then
      if (lead == 0xE0 && b[1] < 0xA0) || (lead == 0xED && b[1] >= 0xA0) then None
      else Some((More(More(lead - 0xE0, b[1]), b[2]), 3))
    else if |b| < 4 || !Tail(b[3]) then None
    else if 0xF0 <= lead < 0xF5 then
      if (lead == 0xF0 && b[1] < 0x90) || (lead == 0xF4 && b[1] >= 0x90) then None
      else Some((More(More(More(lead - 0xF0, b[1]), b[2]), b[3]), 4))
    else None
  }

  lemma MoreOf(c: nat)
    ensures More(c / 64, 0x80 + c % 64) == c
  {
  }

  lemma OfMore(high: nat, tail: Byte)
    requires Tail(tail)
    ensures More(high, tail) / 64 == high && 0x80 + More(high, tail) % 64 == tail
  {
  }

  lemma TakePut(c: Scalar, rest: seq<Byte>)
    ensures Take(Put(c) + rest) == Some((c, |Put(c)|))
  {
    hide More;
    var s := Put(c) + rest;
    MoreOf(c);
    MoreOf(c / 64);
    MoreOf(c / 64 / 64);
  }

  lemma PutTake(b: seq<Byte>)
    requires b != [] && Take(b).Some?
    ensures b[..Take(b).value.1] == Put(Take(b).value.0)
  {
    var (c, n) := Take(b).value;
    if n == 2 {
      OfMore(b[0] - 0xC0, b[1]);
    } else if n == 3 {
      OfMore(b[0] - 0xE0, b[1]);
      OfMore(More(b[0] - 0xE0, b[1]), b[2]);
    } else if n == 4 {
      OfMore(b[0] - 0xF0, b[1]);
      OfMore(More(b[0] - 0xF0, b[1]), b[2]);
      OfMore(More(More(b[0] - 0xF0, b[1]), b[2]), b[3]);
    }
  }

  // ---- the codec ---------------------------------------------------------

  function Written(cs: seq<Scalar>): seq<Byte> { FlatMap(cs, Put) }

  function Read(b: seq<Byte>): Option<seq<Scalar>> {
    if b == [] then Some([])
    else
      match Take(b)
      case None => None
      case Some((c, n)) => match Read(b[n..]) case None => None case Some(cs) => Some([c] + cs)
  }

  function Encode(t: Text): seq<Byte> { Written(Scalars(t)) }

  function Decode(b: seq<Byte>): Option<Text> {
    match Read(b)
    case None => None
    case Some(cs) => Some(Units(if cs != [] && cs[0] == MARK then cs[1..] else cs))
  }

  lemma {:induction false} ReadWritten(cs: seq<Scalar>)
    ensures Read(Written(cs)) == Some(cs)
  {
    hide Put, Take;
    if cs != [] {
      var rest := Written(cs[1..]);
      TakePut(cs[0], rest);
      assert (Put(cs[0]) + rest)[|Put(cs[0])|..] == rest;
      ReadWritten(cs[1..]);
      assert cs == [cs[0]] + cs[1..];
    }
  }

  lemma {:induction false} WrittenRead(b: seq<Byte>)
    requires Read(b).Some?
    ensures Written(Read(b).value) == b
    decreases |b|
  {
    hide Put, Take;
    if b != [] {
      var (c, n) := Take(b).value;
      PutTake(b);
      WrittenRead(b[n..]);
      assert b == b[..n] + b[n..];
      assert ([c] + Read(b[n..]).value)[1..] == Read(b[n..]).value;
    }
  }

  /** What is well-formed UTF-8, and what it stands for. */
  lemma ReadIff(b: seq<Byte>, cs: seq<Scalar>)
    ensures Read(b) == Some(cs) <==> b == Written(cs)
  {
    ReadWritten(cs);
    if Read(b).Some? { WrittenRead(b); }
  }

  function Unmarked(t: Text): Text { if t != [] && t[0] == MARK then t[1..] else t }

  /** What comes back of a text that is encoded and decoded. */
  function Carried(t: Text): Text { Unmarked(Repair(t)) }

  /** Encoding never fails to decode; it repairs the text and takes one byte order mark off it. */
  lemma DecodeEncode(t: Text)
    ensures Decode(Encode(t)) == Some(Carried(t))
  {
    var cs := Scalars(t);
    ReadIff(Encode(t), cs);
    UnitsOfScalars(t);
    if t != [] {
      RepairFacts(t);
      assert cs[0] == MARK <==> t[0] == MARK;
      if cs[0] == MARK { assert Units(cs) == [MARK] + Units(cs[1..]); }
    }
  }

  /** No lone surrogate, and no byte order mark in front. */
  predicate Survives(t: Text) { Paired(t) && (t == [] || t[0] != MARK) }

  /** A text comes back as it was if and only if it has no lone surrogate and does not start with U+FEFF. */
  lemma CarriedIff(t: Text)
    ensures Carried(t) == t <==> Survives(t)
    ensures Decode(Encode(t)) == Some(t) <==> Survives(t)
  {
    RepairFacts(t);
    DecodeEncode(t);
  }

  /** The decoder accepts exactly the encodings of texts without lone surrogates, marked or not. */
  lemma DecodeIff(b: seq<Byte>, t: Text)
    ensures Decode(b) == Some(t) <==> Paired(t) && (b == Encode([MARK] + t) || (b == Encode(t) && Survives(t)))
  {
    if Decode(b) == Some(t) {
      var cs := Read(b).value;
      ReadIff(b, cs);
      ScalarsOfUnits(cs);
      if cs != [] && cs[0] == MARK {
        ScalarsOfUnits(cs[1..]);
        assert Units(cs) == [MARK] + t;
      } else {
        assert cs != [] ==> Units(cs)[0] != MARK;
      }
    }
    if Paired(t) && b == Encode([MARK] + t) {
      PairedCons([MARK], t);
      RepairFacts([MARK] + t);
      DecodeEncode([MARK] + t);
    }
    if b == Encode(t) && Survives(t) { CarriedIff(t); }
  }

  /** Encoding and decoding shortens a text or heals it; what it does to a text can therefore never be made up for. */
  function Weight(t: Text): nat { |t| + if Paired(t) then 0 else 1 }

  lemma CarryingLoses(t: Text)
    ensures Weight(Carried(t)) <= Weight(t)
    ensures !Survives(t) ==> Weight(Carried(t)) < Weight(t)
  {
    RepairFacts(t);
    var r := Repair(t);
    if r != [] && r[0] == MARK {
      assert |r| > 1 ==> PairedAt(r, 1);
      PairedTail(r, 1);
    }
  }

  /** For example U+FEFF before an `a`, and half of a pair. */
  lemma LossyTexts()
    ensures Encode([MARK, 97]) == [0xEF, 0xBB, 0xBF, 97] && Carried([MARK, 97]) == [97]
    ensures Encode([0xD83D]) == [0xEF, 0xBF, 0xBD] && Carried([0xD83D]) == [REPLACEMENT]
  {
    assert [MARK, 97][1..] == [97] && [97][1..] == [] && [0xD83D][1..] == [];
    assert Scalars([97]) == [97] && Scalars([MARK, 97]) == [MARK, 97] && Scalars([0xD83D]) == [REPLACEMENT];
    assert Repair([97]) == [97] && Repair([MARK, 97]) == [MARK, 97];
    assert Written([97]) == [97] && Written([MARK, 97]) == Put(MARK) + Written([97]);
    assert [REPLACEMENT][1..] == [] && Written([REPLACEMENT]) == Put(REPLACEMENT);
  }
}
