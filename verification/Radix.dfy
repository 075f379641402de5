/** Prefixed literals of any length: the lexer turns binary, octal and hexadecimal digits into a decimal string,
    digit by digit on the string itself. */
module Radix {
  import opened Arith
  import opened Decimal

  predicate IsBaseDigit(c: char, base: nat) {
    if base == 2 then c == '0' || c == '1'
    else if base == 8 then '0' <= c <= '7'
    else '0' <= c <= '9' || 'a' <= c <= 'f' || 'A' <= c <= 'F'
  }

  predicate IsBase(base: nat) {
    base == 2 || base == 8 || base == 16
  }

  function BaseDigit(c: char, base: nat): (d: nat)
    requires IsBase(base) && IsBaseDigit(c, base)
    ensures d < base
  {
    if '0' <= c <= '9' then c as int - '0' as int
    else if 'a' <= c <= 'f' then 10 + (c as int - 'a' as int)
    else 10 + (c as int - 'A' as int)
  }

  /** The number a digit string denotes. */
  function Numeral(s: string, base: nat): nat
    requires IsBase(base) && forall c <- s :: IsBaseDigit(c, base)
  {
    if s == [] then 0 else Mul(Numeral(s[..|s| - 1], base), base) + BaseDigit(s[|s| - 1], base)
  }

  const LOWER := "0123456789abcdef"
  const UPPER := "0123456789ABCDEF"

  /** The digits of a base are the first of the sixteen, in either case, and each stands for its place among them. */
  lemma DigitIsItsPlace(c: char, base: nat)
    requires IsBase(base)
    ensures IsBaseDigit(c, base) <==> c in LOWER[..base] || c in UPPER[..base]
    ensures IsBaseDigit(c, base) ==> c == LOWER[BaseDigit(c, base)] || c == UPPER[BaseDigit(c, base)]
    ensures forall d: nat | d < base ::
              IsBaseDigit(LOWER[d], base) && BaseDigit(LOWER[d], base) == d
              && IsBaseDigit(UPPER[d], base) && BaseDigit(UPPER[d], base) == d
  {
    if IsBaseDigit(c, base) {
      DigitAtItsPlace(c, base);
      var d := BaseDigit(c, base);
      assert LOWER[..base][d] == LOWER[d] && UPPER[..base][d] == UPPER[d];
    }
    forall d: nat | d < base
      ensures IsBaseDigit(LOWER[d], base) && BaseDigit(LOWER[d], base) == d
      ensures IsBaseDigit(UPPER[d], base) && BaseDigit(UPPER[d], base) == d
      ensures LOWER[..base][d] == LOWER[d] && UPPER[..base][d] == UPPER[d]
    {
      PlaceOfDigit(d, base);
    }
    hide IsBaseDigit, BaseDigit;
  }

  lemma DigitAtItsPlace(c: char, base: nat)
    requires IsBase(base) && IsBaseDigit(c, base)
    ensures c == LOWER[BaseDigit(c, base)] || c == UPPER[BaseDigit(c, base)]
  {
  }

  lemma PlaceOfDigit(d: nat, base: nat)
    requires IsBase(base) && d < base
    ensures IsBaseDigit(LOWER[d], base) && BaseDigit(LOWER[d], base) == d
    ensures IsBaseDigit(UPPER[d], base) && BaseDigit(UPPER[d], base) == d
  {
  }

  /** A number in exactly w digits of a base, in either case. */
  function InBase(n: nat, base: nat, w: nat, upper: bool): (s: string)
    requires IsBase(base)
    ensures |s| == w && forall c <- s :: IsBaseDigit(c, base)
  {
    DigitIsItsPlace('0', base);
    if w == 0 then []
    else InBase(n / base, base, w - 1, upper) + [if upper then UPPER[n % base] else LOWER[n % base]]
  }

  function Power(base: nat, w: nat): nat {
    if w == 0 then 1 else Mul(base, Power(base, w - 1))
  }

  /** Written in a base and read back, a number is what it was. */
  lemma {:induction false} NumeralOfInBase(n: nat, base: nat, w: nat, upper: bool)
    requires IsBase(base) && n < Power(base, w)
    ensures Numeral(InBase(n, base, w, upper), base) == n
  {
    if w > 0 {
      Shrinks(n, base, Power(base, w - 1));
      NumeralOfInBase(n / base, base, w - 1, upper);
      DigitIsItsPlace('0', base);
      var s := InBase(n, base, w, upper);
      assert s[..w - 1] == InBase(n / base, base, w - 1, upper);
    }
  }

  lemma Shrinks(n: nat, base: nat, p: nat)
    requires base > 0 && n < Mul(base, p)
    ensures n / base < p && Mul(n / base, base) + n % base == n
  {
    assert n / base * base + n % base == n;
    ProductGrows(p, n / base, base);
  }

  lemma ProductGrows(a: nat, b: nat, c: nat)
    ensures a <= b ==> Mul(c, a) <= Mul(b, c)
  {
    assert a <= b ==> (b - a) * c >= 0;
  }

  /** A decimal string with no leading zero, except zero itself. */
  predicate Canonical(s: string) {
    s != [] && AllDigits(s) && (s[0] == '0' ==> |s| == 1)
  }

  // ---------- decimal strings and their digits ----------

  lemma {:induction false} NumPrepend(c: char, s: string)
    requires IsDigit(c) && AllDigits(s)
    ensures AllDigits([c] + s) && Num([c] + s) == Mul(DigitValue(c), Pow10(|s|)) + Num(s)
  {
    if s == [] {
      assert ([c] + s)[..0] == [];
    } else {
      NumPrepend(c, s[..|s| - 1]);
      assert ([c] + s)[..|s|] == [c] + s[..|s| - 1];
      MulTen(DigitValue(c), Pow10(|s| - 1));
    }
  }

  lemma MulTen(d: nat, p: nat)
    ensures Mul(d, 10 * p) == 10 * Mul(d, p)
  {
  }

  lemma MulAtLeast(d: nat, x: nat)
    ensures d >= 1 ==> Mul(d, x) >= x && Mul(x, d) >= x
    ensures Mul(0, x) == 0
  {
  }

  lemma {:induction false} Pow10Grows(a: nat, b: nat)
    requires a <= b
    ensures Pow10(a) <= Pow10(b)
  {
    if a < b {
      Pow10Grows(a, b - 1);
    }
  }

  lemma {:induction false} SameNumSameDigits(a: string, b: string)
    requires AllDigits(a) && AllDigits(b) && |a| == |b| && Num(a) == Num(b)
    ensures a == b
  {
    if a != [] {
      var x, y := a[..|a| - 1], b[..|b| - 1];
      assert Num(a) == Num(x) * 10 + DigitValue(a[|a| - 1]) && Num(b) == Num(y) * 10 + DigitValue(b[|b| - 1]);
      hide Num;
      SameNumSameDigits(x, y);
      assert a == x + [a[|a| - 1]] && b == y + [b[|b| - 1]];
    }
  }

  /** A number has one canonical string. */
  lemma CanonicalIsUnique(a: string, b: string)
    requires Canonical(a) && Canonical(b) && Num(a) == Num(b)
    ensures a == b
  {
    if |a| < |b| {
      ShorterIsSmaller(a, b);
    } else if |b| < |a| {
      ShorterIsSmaller(b, a);
    } else {
      SameNumSameDigits(a, b);
    }
  }

  lemma ShorterIsSmaller(a: string, b: string)
    requires Canonical(a) && Canonical(b) && |a| < |b|
    ensures Num(a) < Num(b)
  {
    NumBound(a);
    Pow10Grows(|a|, |b| - 1);
  }

  /** A string as long as a canonical one, and no smaller, is canonical. */
  lemma StaysCanonical(a: string, b: string)
    requires Canonical(a) && AllDigits(b) && |b| == |a| && Num(b) >= Num(a)
    ensures Canonical(b)
  {
  }

  // ---------- the in-place loops ----------

  lemma CarryStep(carry: nat, p: nat)
    ensures Mul(carry, p) == Mul(carry / 10, 10 * p) + Mul(carry % 10, p)
  {
    assert carry == 10 * (carry / 10) + carry % 10;
    MulAdd(10 * (carry / 10), carry % 10, p);
    TenFold(carry / 10, p);
  }

  lemma TenFold(a: nat, p: nat)
    ensures Mul(10 * a, p) == Mul(a, 10 * p)
  {
  }

  /** Pushes the digits of a carry in front. */
  method PushCarry(dec: string, carryIn: nat) returns (r: string)
    requires AllDigits(dec)
    ensures AllDigits(r) && Num(r) == Mul(carryIn, Pow10(|dec|)) + Num(dec)
    ensures if carryIn == 0 then r == dec else |r| > |dec| && r[0] != '0'
  {
    hide Mul, Num;
    var carry: nat := carryIn;
    r := dec;
    while carry > 0
      invariant |r| >= |dec| && AllDigits(r)
      invariant Mul(carry, Pow10(|r|)) + Num(r) == Mul(carryIn, Pow10(|dec|)) + Num(dec)
      invariant if carryIn == 0 then r == dec && carry == 0 else carry == 0 ==> |r| > |dec| && r[0] != '0'
      decreases carry
    {
      var digit := DigitChar(carry % 10);
      NumPrepend(digit, r);
      CarryStep(carry, Pow10(|r|));
      r := [digit] + r;
      carry := carry / 10;
    }
    MulAtLeast(0, Pow10(|r|));
  }

  /** One digit of a product: what is carried and what is left, over the digits already done. */
  lemma MulStep(d: nat, m: nat, carry: nat, p: nat, before: nat, after: nat)
    requires d < 10 && carry < m && Mul(carry, p) + after == Mul(before, m)
    ensures var prod := Mul(d, m) + carry;
            prod / 10 < m && Mul(prod / 10, 10 * p) + Mul(prod % 10, p) + after == Mul(Mul(d, p) + before, m)
  {
    MulGrows(m, d, 9);
    hide Mul;
    var prod := Mul(d, m) + carry;
    CarryStep(prod, p);
    MulAdd(Mul(d, m), carry, p);
    MulAdd(Mul(d, p), before, m);
    MulAssoc(d, m, p);
    MulAssoc(d, p, m);
    MulAssoc(m, p, 1);
  }

  /** mul_decimal_by_small. The carry stays below the factor. */
  method MulDecimalBySmall(dec: string, m: nat) returns (r: string)
    requires Canonical(dec) && 1 <= m <= 16
    ensures Canonical(r) && Num(r) == Mul(Num(dec), m)
  {
    MulAtLeast(0, m);
    MulAtLeast(0, 1);
    assert dec[|dec|..] == [];
    hide Mul, Num, Pow10;
    var carry: nat := 0;
    r := dec;
    var i := |dec|;
    while i > 0
      invariant 0 <= i <= |dec| == |r| && AllDigits(r) && carry < m
      invariant r[..i] == dec[..i]
      invariant Mul(carry, Pow10(|r| - i)) + Num(r[i..]) == Mul(Num(dec[i..]), m)
    {
      i := i - 1;
      var prod := Mul(DigitValue(r[i]), m) + carry;
      assert r[i] == dec[i] by { assert r[..i + 1][i] == dec[..i + 1][i]; }
      MulDigit(dec, r, i, m, carry);
      r := r[i := DigitChar(prod % 10)];
      carry := prod / 10;
    }
    assert r[0..] == r && dec[0..] == dec;
    r := PushCarry(r, carry);
    if carry == 0 {
      MulAtLeast(m, Num(dec));
      StaysCanonical(dec, r);
    }
  }

  lemma MulDigit(dec: string, r: string, i: nat, m: nat, carry: nat)
    requires AllDigits(dec) && AllDigits(r) && |r| == |dec| && i < |dec| && carry < m
    requires Mul(carry, Pow10(|r| - i - 1)) + Num(r[i + 1..]) == Mul(Num(dec[i + 1..]), m)
    ensures var prod := Mul(DigitValue(dec[i]), m) + carry;
            var r1 := r[i := DigitChar(prod % 10)];
            prod / 10 < m && AllDigits(r1) && Mul(prod / 10, Pow10(|r| - i)) + Num(r1[i..]) == Mul(Num(dec[i..]), m)
  {
    var prod := Mul(DigitValue(dec[i]), m) + carry;
    assert Pow10(|r| - i) == 10 * Pow10(|r| - i - 1);
    hide Mul, Num, Pow10;
    var r1 := r[i := DigitChar(prod % 10)];
    assert dec[i..] == [dec[i]] + dec[i + 1..] && r1[i..] == [DigitChar(prod % 10)] + r[i + 1..];
    NumPrepend(dec[i], dec[i + 1..]);
    NumPrepend(DigitChar(prod % 10), r[i + 1..]);
    MulStep(DigitValue(dec[i]), m, carry, Pow10(|r| - i - 1), Num(dec[i + 1..]), Num(r[i + 1..]));
  }

  /** Changing a digit changes the number by that digit's weight. */
  lemma {:induction false} NumUpdate(s: string, i: nat, c: char)
    requires AllDigits(s) && i < |s| && IsDigit(c)
    ensures AllDigits(s[i := c])
    ensures Num(s[i := c]) + Mul(DigitValue(s[i]), Pow10(|s| - 1 - i))
         == Num(s) + Mul(DigitValue(c), Pow10(|s| - 1 - i))
  {
    var last := |s| - 1;
    if i == last {
      assert s[i := c][..last] == s[..last];
      OneDigit(DigitValue(s[i]));
      OneDigit(DigitValue(c));
    } else {
      NumUpdate(s[..last], i, c);
      assert s[i := c][..last] == s[..last][i := c];
      MulTen(DigitValue(s[i]), Pow10(|s| - 2 - i));
      MulTen(DigitValue(c), Pow10(|s| - 2 - i));
      hide Mul;
    }
  }

  lemma OneDigit(d: nat)
    ensures Mul(d, Pow10(0)) == d
  {
  }

  /** add_small_to_decimal. */
  method AddSmallToDecimal(dec: string, add: nat) returns (r: string)
    requires Canonical(dec) && add < 16
    ensures Canonical(r) && Num(r) == Num(dec) + add
  {
    OneDigit(add);
    hide Mul, Num;
    var carry: nat := add;
    r := dec;
    var i := |dec|;
    while i > 0 && carry > 0
      invariant 0 <= i <= |dec| == |r| && AllDigits(r) && carry < 16
      invariant Num(r) + Mul(carry, Pow10(|r| - i)) == Num(dec) + add
    {
      i := i - 1;
      var sum := DigitValue(r[i]) + carry;
      NumUpdate(r, i, DigitChar(sum % 10));
      CarryStep(sum, Pow10(|r| - 1 - i));
      MulAdd(DigitValue(r[i]), carry, Pow10(|r| - 1 - i));
      r := r[i := DigitChar(sum % 10)];
      carry := sum / 10;
    }
    MulAtLeast(0, Pow10(|r| - i));
    MulAtLeast(0, Pow10(|r|));
    r := PushCarry(r, carry);
    if carry == 0 {
      StaysCanonical(dec, r);
    }
  }

  /** The decimal string of a literal's digits: the canonical one, of the same number, for any length. */
  method ToDecimal(digits: string, base: nat) returns (decimal: string)
    requires IsBase(base) && digits != [] && forall c <- digits :: IsBaseDigit(c, base)
    ensures Canonical(decimal) && Num(decimal) == Numeral(digits, base)
  {
    decimal := "0";
    assert decimal[..0] == [];
    hide Mul;
    for k := 0 to |digits|
      invariant Canonical(decimal) && Num(decimal) == Numeral(digits[..k], base)
    {
      assert digits[..k + 1][..k] == digits[..k];
      decimal := MulDecimalBySmall(decimal, base);
      decimal := AddSmallToDecimal(decimal, BaseDigit(digits[k], base));
    }
    assert digits[..|digits|] == digits;
  }
}
