/**
 The decimal branch of `add_values`: rescale both unscaled integers to the output
 scale and add, under a declared type capped at 38 digits.
 */
module DecimalAdd {
  import opened Seqs

  datatype Decimal = Decimal(scale: nat, precision: nat)

  function Pow10(n: nat): (p: nat)
    ensures p > 0
  {
    if n == 0 then 1 else 10 * Pow10(n - 1)
  }

  lemma {:induction false} Pow10Add(a: nat, b: nat)
    ensures Pow10(a + b) == Pow10(a) * Pow10(b)
  {
    if a > 0 {
      Pow10Add(a - 1, b);
      assert Pow10(a + b) == 10 * (Pow10(a - 1) * Pow10(b));
    }
  }

  lemma {:induction false} Pow10Mono(a: nat, b: nat)
    requires a <= b
    ensures Pow10(a) <= Pow10(b)
  {
    if a < b { Pow10Mono(a, b - 1); }
  }

  /** A well-formed decimal type: at least one digit, and the scale is part of the precision. */
  predicate IsType(t: Decimal) { t.scale <= t.precision && t.precision > 0 }

  /** The integers a decimal type holds, unscaled. */
  predicate Fits(u: int, t: Decimal) { 0 - Pow10(t.precision) < u < Pow10(t.precision) }

  function UncappedPrecision(a: Decimal, b: Decimal): int {
    Max(a.precision - a.scale, b.precision - b.scale) + Max(a.scale, b.scale) + 1
  }

  function OutputType(a: Decimal, b: Decimal): Decimal
    requires IsType(a) && IsType(b)
  {
    Decimal(Max(a.scale, b.scale), Min(UncappedPrecision(a, b), 38))
  }

  function Rescale(u: int, from: nat, scale: nat): int
    requires from <= scale
  {
    u * Pow10(scale - from)
  }

  /** Null if either cell is null. */
  function Add(a: Decimal, b: Decimal, u: Option<int>, v: Option<int>): Option<int>
    requires IsType(a) && IsType(b)
  {
    if u.None? || v.None? then None
    else
      var s := Max(a.scale, b.scale);
      Some(Rescale(u.value, a.scale, s) + Rescale(v.value, b.scale, s))
  }

  /** `x / 10^s == u / 10^p + v / 10^q`, over a common denominator. */
  ghost predicate IsSum(x: int, s: nat, u: int, p: nat, v: int, q: nat) {
    x * (Pow10(p) * Pow10(q)) == (u * Pow10(q) + v * Pow10(p)) * Pow10(s)
  }

  lemma RescaleKeepsValue(u: int, from: nat, scale: nat)
    requires from <= scale
    ensures Rescale(u, from, scale) * Pow10(from) == u * Pow10(scale)
  {
    Pow10Add(scale - from, from);
    MulAssoc(u, Pow10(scale - from), Pow10(from));
  }

  lemma MulAssoc(a: int, b: int, c: int)
    ensures (a * b) * c == a * (b * c)
  {
  }

  lemma Combine(x: int, y: int, u: int, v: int, p: int, q: int, s: int)
    requires x * p == u * s && y * q == v * s
    ensures (x + y) * (p * q) == (u * q + v * p) * s
  {
    assert x * (p * q) == (x * p) * q == (u * s) * q == (u * q) * s by {
      MulAssoc(x, p, q); MulAssoc(u, s, q); MulAssoc(u, q, s);
    }
    assert y * (p * q) == (y * q) * p == (v * s) * p == (v * p) * s by {
      MulAssoc(y, q, p); MulAssoc(v, s, p); MulAssoc(v, p, s);
    }
    assert (x + y) * (p * q) == x * (p * q) + y * (p * q);
    assert (u * q + v * p) * s == (u * q) * s + (v * p) * s;
  }

  /** The sum is null exactly when a cell is; otherwise the unscaled sum denotes the exact one at the output scale. */
  lemma AddIsExact(a: Decimal, b: Decimal, u: Option<int>, v: Option<int>)
    requires IsType(a) && IsType(b)
    ensures Add(a, b, u, v).None? <==> u.None? || v.None?
    ensures u.Some? && v.Some? ==>
      IsSum(Add(a, b, u, v).value, OutputType(a, b).scale, u.value, a.scale, v.value, b.scale)
  {
    if u.Some? && v.Some? {
      var s := Max(a.scale, b.scale);
      var x, y := Rescale(u.value, a.scale, s), Rescale(v.value, b.scale, s);
      RescaleKeepsValue(u.value, a.scale, s);
      RescaleKeepsValue(v.value, b.scale, s);
      Combine(x, y, u.value, v.value, Pow10(a.scale), Pow10(b.scale), Pow10(s));
    }
  }

  /** The largest sum two types can produce, unscaled. */
  function LargestSum(a: Decimal, b: Decimal): int
    requires IsType(a) && IsType(b)
  {
    Add(a, b, Some(Pow10(a.precision) - 1), Some(Pow10(b.precision) - 1)).value
  }

  lemma RescaleBound(u: int, t: Decimal, scale: nat)
    requires IsType(t) && Fits(u, t) && t.scale <= scale
    ensures var top := Rescale(Pow10(t.precision) - 1, t.scale, scale);
      -top <= Rescale(u, t.scale, scale) <= top
  {
    var k := Pow10(scale - t.scale);
    assert (-u) * k == -(u * k);
  }

  /** Every sum fits the declared type if and only if the largest one does. */
  lemma AlwaysFitsIff(a: Decimal, b: Decimal)
    requires IsType(a) && IsType(b)
    ensures (forall u, v :: Fits(u, a) && Fits(v, b) ==> Fits(Add(a, b, Some(u), Some(v)).value, OutputType(a, b)))
      <==> Fits(LargestSum(a, b), OutputType(a, b))
  {
    hide Pow10, Rescale;
    var s := Max(a.scale, b.scale);
    var x, y := Pow10(a.precision) - 1, Pow10(b.precision) - 1;
    if Fits(LargestSum(a, b), OutputType(a, b)) {
      forall u, v | Fits(u, a) && Fits(v, b) ensures Fits(Add(a, b, Some(u), Some(v)).value, OutputType(a, b)) {
        RescaleBound(u, a, s);
        RescaleBound(v, b, s);
      }
    } else {
      assert Fits(x, a) && Fits(y, b);
    }
  }

  lemma TopBound(t: Decimal, digits: nat, scale: nat)
    requires IsType(t) && t.scale <= scale && t.precision - t.scale <= digits
    ensures 0 <= Rescale(Pow10(t.precision) - 1, t.scale, scale) < Pow10(digits + scale)
  {
    var k := Pow10(scale - t.scale);
    assert (Pow10(t.precision) - 1) * k == Pow10(t.precision) * k - k;
    Pow10Add(t.precision, scale - t.scale);
    Pow10Mono(t.precision + scale - t.scale, digits + scale);
  }

  /** Below the 38-digit cap no sum overflows its declared type. */
  lemma UncappedNeverOverflows(a: Decimal, b: Decimal)
    requires IsType(a) && IsType(b) && UncappedPrecision(a, b) <= 38
    ensures forall u, v :: Fits(u, a) && Fits(v, b) ==> Fits(Add(a, b, Some(u), Some(v)).value, OutputType(a, b))
  {
    LargestSumFits(a, b);
    AlwaysFitsIff(a, b);
  }

  lemma LargestSumFits(a: Decimal, b: Decimal)
    requires IsType(a) && IsType(b) && UncappedPrecision(a, b) <= 38
    ensures Fits(LargestSum(a, b), OutputType(a, b))
  {
    hide Rescale, Pow10;
    var digits, s := Max(a.precision - a.scale, b.precision - b.scale), Max(a.scale, b.scale);
    TopBound(a, digits, s);
    TopBound(b, digits, s);
    TenTimes(digits + s);
  }

  // ---- at the cap --------------------------------------------------------

  /** Digits before and after the point that fill the 38 between them and never overlap. */
  predicate Interlock(a: Decimal, b: Decimal) {
    a.scale == 0 && b.precision == b.scale && a.precision + b.scale == 38
  }

  /** What the declared types alone say about overflow. */
  predicate NeverOverflows(a: Decimal, b: Decimal) {
    UncappedPrecision(a, b) <= 38 || Interlock(a, b) || Interlock(b, a)
  }

  /** The greatest value of a type: nines before the point and nines after it. */
  lemma TopValue(t: Decimal, scale: nat)
    requires IsType(t) && t.scale <= scale
    ensures Rescale(Pow10(t.precision) - 1, t.scale, scale)
         == Pow10(t.precision - t.scale + scale) - Pow10(scale - t.scale)
    ensures 10 * Pow10(scale - t.scale) <= Pow10(t.precision - t.scale + scale)
  {
    var k := Pow10(scale - t.scale);
    Pow10Add(t.precision, scale - t.scale);
    assert (Pow10(t.precision) - 1) * k == Pow10(t.precision) * k - k;
    Pow10Mono(scale - t.scale + 1, t.precision - t.scale + scale);
  }

  /** Whole numbers on one side and fractions on the other: no digit of one meets a digit of the other. */
  predicate Apart(a: Decimal, b: Decimal) { a.scale == 0 && b.precision == b.scale }

  /** The largest sum carries into one digit more unless the digits never meet. */
  lemma CarryIff(a: Decimal, b: Decimal)
    requires IsType(a) && IsType(b) && a.precision - a.scale >= b.precision - b.scale
    ensures LargestSum(a, b) < Pow10(UncappedPrecision(a, b) - 1) <==> Apart(a, b)
    ensures !Apart(b, a)
  {
    hide Rescale, Pow10;
    var s, m := Max(a.scale, b.scale), b.precision - b.scale + Max(a.scale, b.scale);
    TopValue(a, s);
    TopValue(b, s);
    PowersOfTen();
    if b.scale == s {
      if m <= s - a.scale {
        Pow10Mono(m, s - a.scale);
      } else {
        TenTimes(s - a.scale);
        Pow10Mono(s - a.scale + 1, m);
      }
    }
  }

  /** Decided for the type with the more digits before the point. */
  lemma LargestSumFitsIff(a: Decimal, b: Decimal)
    requires IsType(a) && IsType(b) && UncappedPrecision(a, b) > 38
    requires a.precision - a.scale >= b.precision - b.scale
    ensures LargestSum(a, b) < Pow10(38) <==> Interlock(a, b)
    ensures !Interlock(b, a)
  {
    hide Rescale, Pow10;
    var s := Max(a.scale, b.scale);
    CarryIff(a, b);
    if UncappedPrecision(a, b) > 39 {
      TopValue(a, s);
      TopValue(b, s);
      Pow10Mono(39, a.precision - a.scale + s);
      PowersOfTen();
    }
  }

  lemma PowersOfTen()
    ensures Pow10(0) == 1 && Pow10(39) == 10 * Pow10(38)
  {
  }

  lemma TenTimes(n: nat)
    ensures Pow10(n + 1) == 10 * Pow10(n)
  {
  }

  lemma LargestSumBound(a: Decimal, b: Decimal)
    requires IsType(a) && IsType(b)
    ensures LargestSum(a, b) >= 0 && LargestSum(a, b) == LargestSum(b, a)
  {
    hide Rescale, Pow10;
    TopValue(a, Max(a.scale, b.scale));
    TopValue(b, Max(a.scale, b.scale));
  }

  /**
   Every sum of two types fits its declared type if and only if the cap leaves
   room for the carry, or the two types' digits cannot meet so there is none.
   */
  lemma NeverOverflowsIff(a: Decimal, b: Decimal)
    requires IsType(a) && IsType(b)
    ensures (forall u, v :: Fits(u, a) && Fits(v, b) ==> Fits(Add(a, b, Some(u), Some(v)).value, OutputType(a, b)))
      <==> NeverOverflows(a, b)
  {
    AlwaysFitsIff(a, b);
    if UncappedPrecision(a, b) <= 38 {
      UncappedNeverOverflows(a, b);
    } else {
      LargestSumBound(a, b);
      if a.precision - a.scale >= b.precision - b.scale {
        LargestSumFitsIff(a, b);
      } else {
        LargestSumFitsIff(b, a);
      }
    }
  }

  /** Some sum of the two types is as large as this. */
  ghost predicate Reaches(a: Decimal, b: Decimal, bound: int)
    requires IsType(a) && IsType(b)
  {
    exists u, v :: Fits(u, a) && Fits(v, b) && Add(a, b, Some(u), Some(v)).value >= bound
  }

  lemma LargestIsLargest(a: Decimal, b: Decimal, bound: int)
    requires IsType(a) && IsType(b)
    ensures Reaches(a, b, bound) <==> LargestSum(a, b) >= bound
  {
    hide Pow10, Rescale;
    var x, y := Pow10(a.precision) - 1, Pow10(b.precision) - 1;
    assert Fits(x, a) && Fits(y, b) && Add(a, b, Some(x), Some(y)).value == LargestSum(a, b);
    forall u, v | Fits(u, a) && Fits(v, b) ensures Add(a, b, Some(u), Some(v)).value <= LargestSum(a, b) {
      RescaleBound(u, a, Max(a.scale, b.scale));
      RescaleBound(v, b, Max(a.scale, b.scale));
    }
  }

  /**
   The declared type has the larger scale and no digit to spare: below the cap some
   sum needs them all, unless the digits of the two types never meet.
   */
  lemma PrecisionIsMinimalIff(a: Decimal, b: Decimal)
    requires IsType(a) && IsType(b)
    ensures OutputType(a, b).scale == Max(a.scale, b.scale)
    ensures if UncappedPrecision(a, b) > 38 then OutputType(a, b).precision == 38
      else (Reaches(a, b, Pow10(OutputType(a, b).precision - 1)) <==> !Apart(a, b) && !Apart(b, a))
  {
    hide Pow10, LargestSum, Reaches;
    if UncappedPrecision(a, b) <= 38 {
      LargestIsLargest(a, b, Pow10(OutputType(a, b).precision - 1));
      LargestSumBound(a, b);
      if a.precision - a.scale >= b.precision - b.scale { CarryIff(a, b); } else { CarryIff(b, a); }
    }
  }

  /** Two DECIMAL(38,0) columns have a sum that does not fit DECIMAL(38,0). */
  lemma CappedCanOverflow()
    ensures OutputType(Decimal(0, 38), Decimal(0, 38)) == Decimal(0, 38)
    ensures !Fits(LargestSum(Decimal(0, 38), Decimal(0, 38)), Decimal(0, 38))
  {
    NeverOverflowsIff(Decimal(0, 38), Decimal(0, 38));
    AlwaysFitsIff(Decimal(0, 38), Decimal(0, 38));
  }
}
