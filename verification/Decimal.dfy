/** Decimal digits as characters, most significant first. */
module Decimal {

  predicate IsDigit(c: char) {
    '0' <= c <= '9'
  }

  function DigitValue(c: char): (d: nat)
    requires IsDigit(c)
    ensures d < 10
  {
    c as int - '0' as int
  }

  function DigitChar(d: nat): (c: char)
    requires d < 10
    ensures IsDigit(c) && DigitValue(c) == d
  {
    (d + '0' as int) as char
  }

  predicate AllDigits(s: string) {
    forall c <- s :: IsDigit(c)
  }

  function Num(s: string): nat
    requires AllDigits(s)
  {
    if s == [] then 0 else Num(s[..|s| - 1]) * 10 + DigitValue(s[|s| - 1])
  }

  function Pow10(w: nat): nat {
    if w == 0 then 1 else 10 * Pow10(w - 1)
  }

  lemma {:induction false} NumBound(s: string)
    requires AllDigits(s)
    ensures Num(s) < Pow10(|s|)
  {
    if s != [] {
      NumBound(s[..|s| - 1]);
    }
  }

  /** A number in exactly w digits, filled up with zeros. */
  function Digits(n: nat, w: nat): (s: string)
    ensures |s| == w && AllDigits(s)
  {
    if w == 0 then [] else Digits(n / 10, w - 1) + [DigitChar(n % 10)]
  }

  /** A number as an output stream writes it. */
  function Plain(n: nat): (s: string)
    ensures |s| >= 1
  {
    if n < 10 then [DigitChar(n)] else Plain(n / 10) + [DigitChar(n % 10)]
  }

  /** setw(w) with setfill('0'): zeros in front up to w characters, a minus sign counted among them. */
  function Padded(n: int, w: nat): string {
    var t := if n < 0 then "-" + Plain(-n) else Plain(n);
    Digits(0, if |t| < w then w - |t| else 0) + t
  }

  /** A number of at most w digits is padded to exactly w. */
  lemma {:induction false} PaddedFits(n: nat, w: nat)
    requires 0 < w && n < Pow10(w)
    ensures |Plain(n)| <= w && Padded(n, w) == Digits(n, w)
  {
    if n >= 10 {
      assert w > 1;
      PaddedFits(n / 10, w - 1);
      assert Plain(n) == Plain(n / 10) + [DigitChar(n % 10)];
    } else {
      assert Digits(n, w) == Digits(n / 10, w - 1) + [DigitChar(n % 10)];
    }
  }

  lemma {:induction false} NumOfDigits(n: nat, w: nat)
    requires n < Pow10(w)
    ensures Num(Digits(n, w)) == n
  {
    if w > 0 {
      NumOfDigits(n / 10, w - 1);
      var s := Digits(n, w);
      assert s[..w - 1] == Digits(n / 10, w - 1);
    }
  }

  /** What the stream writes reads back, and has no leading zero. */
  lemma {:induction false} PlainReadsBack(n: nat)
    ensures AllDigits(Plain(n)) && Num(Plain(n)) == n && (Plain(n)[0] == '0' <==> n == 0)
  {
    var s := Plain(n);
    if n >= 10 {
      PlainReadsBack(n / 10);
      assert s[..|s| - 1] == Plain(n / 10);
    } else {
      assert s[..0] == [] && Num([]) == 0;
    }
  }

  lemma {:induction false} NumOfZeros(s: string, k: nat)
    requires AllDigits(s)
    ensures AllDigits(s + Digits(0, k)) && Num(s + Digits(0, k)) == Num(s) * Pow10(k)
  {
    if k == 0 {
      assert s + Digits(0, 0) == s;
    } else {
      NumOfZeros(s, k - 1);
      var t := s + Digits(0, k);
      assert t[..|t| - 1] == s + Digits(0, k - 1) && DigitValue(t[|t| - 1]) == 0;
      assert Num(t) == Num(s + Digits(0, k - 1)) * 10;
      hide Num, Digits;
      assert Num(s) * Pow10(k - 1) * 10 == Num(s) * Pow10(k);
    }
  }
}
