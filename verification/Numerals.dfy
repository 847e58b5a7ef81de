/** Decimal numerals: how integers are written, and a strict reader that undoes it. */
module Numerals {
  import opened Seqs

  function Digits(n: nat): string {
    (if n < 10 then "" else Digits(n / 10)) + [DigitChar(n % 10)]
  }

  function DigitChar(d: nat): char
    requires d < 10
  {
    ('0' as int + d) as char
  }

  function IntText(v: int): string { if v < 0 then "-" + Digits(-v) else Digits(v) }

  /** The number a string of digits without a leading zero stands for. */
  function ReadNat(s: string): (r: Option<int>)
    ensures r.Some? ==> r.value >= 0
  {
    if s == "" || !('0' <= s[|s|-1] <= '9') then None
    else
      var last := s[|s|-1] as int - '0' as int;
      if |s| == 1 then Some(last)
      else
        match ReadNat(s[..|s|-1])
        case None => None
        case Some(n) => if n == 0 then None else Some(10 * n + last)
  }

  /** The same with a sign before a number other than zero. */
  function ReadInt(s: string): Option<int> {
    if s == "" || s[0] != '-' then ReadNat(s)
    else if ReadNat(s[1..]) == None || ReadNat(s[1..]) == Some(0) then None
    else Some(-ReadNat(s[1..]).value)
  }

  /** One more digit behind a number. */
  lemma ReadNext(s: string, n: nat, d: nat)
    requires d < 10 && ((s == "" && n == 0) || (n > 0 && ReadNat(s) == Some(n)))
    ensures ReadNat(s + [DigitChar(d)]) == Some(10 * n + d)
  {
    var t := s + [DigitChar(d)];
    assert t[|t|-1] == DigitChar(d) && t[..|t|-1] == s;
  }

  lemma {:induction false} ReadDigits(n: nat)
    ensures ReadNat(Digits(n)) == Some(n)
  {
    hide ReadNat, DigitChar;
    if n >= 10 { ReadDigits(n / 10); }
    ReadNext(if n < 10 then "" else Digits(n / 10), n / 10, n % 10);
  }

  lemma {:induction false} DigitsStart(n: nat)
    ensures Digits(n) != "" && Digits(n)[0] != '-'
  {
    if n >= 10 { DigitsStart(n / 10); }
  }

  lemma ReadIntText(v: int)
    ensures ReadInt(IntText(v)) == Some(v)
  {
    var n: nat := if v < 0 then -v else v;
    ReadDigits(n);
    DigitsStart(n);
    assert ("-" + Digits(n))[1..] == Digits(n);
  }

  /** What is read of a numeral's last digit and of those before it. */
  lemma ReadLast(s: string) returns (d: int)
    requires ReadNat(s).Some?
    ensures s != "" && 0 <= d < 10 && s[|s|-1] as int == '0' as int + d
    ensures if |s| == 1 then ReadNat(s) == Some(d)
      else
        var before := ReadNat(s[..|s|-1]);
        before.Some? && before.value > 0 && ReadNat(s) == Some(10 * before.value + d)
  {
    d := s[|s|-1] as int - '0' as int;
  }

  lemma {:induction false} ReadNatUnique(s: string, t: string)
    requires ReadNat(s).Some? && ReadNat(s) == ReadNat(t)
    ensures s == t
  {
    var d := ReadLast(s);
    var e := ReadLast(t);
    hide ReadNat;
    if |s| > 1 && |t| > 1 { ReadNatUnique(s[..|s|-1], t[..|t|-1]); }
    assert |s| == |t| && s[|s|-1] == t[|t|-1];
    assert s == s[..|s|-1] + [s[|s|-1]] && t == t[..|t|-1] + [t[|t|-1]];
  }

  /** A number has one numeral. */
  lemma ReadIntUnique(s: string, t: string)
    requires ReadInt(s).Some? && ReadInt(s) == ReadInt(t)
    ensures s == t
  {
    if s[0] == '-' {
      ReadNatUnique(s[1..], t[1..]);
      assert s == ['-'] + s[1..] && t == ['-'] + t[1..];
    } else {
      ReadNatUnique(s, t);
    }
  }
}
