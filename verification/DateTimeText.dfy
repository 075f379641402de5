/** Timestamps as text, in the format of RFC 3339 section 5.6: the printer of a date-time and the lexer's scanner. */
module DateTimeText {
  import opened Wrappers
  import opened Calendar
  import opened DateTime
  import opened Decimal

  // ---------- the printer ----------

  function Head(m: Moment): string {
    Padded(m.date.year, 4) + "-" + Padded(m.date.month, 2) + "-" + Padded(m.date.day, 2) + "T"
    + Padded(m.hour, 2) + ":" + Padded(m.minute, 2) + ":" + Padded(m.second, 2)
  }

  function FractionText(fraction: nat, p: Precision): string {
    if fraction == 0 then ""
    else
      match p
      case Millisecond => "." + Digits(fraction / 1_000_000, 3)
      case Microsecond => "." + Digits(fraction / 1000, 6)
      case Nanosecond => "." + Digits(fraction, 9)
      case Second => ""
  }

  function Abs(x: int): nat {
    if x >= 0 then x else -x
  }

  function ZoneText(offset: int, isUTC: bool): string {
    if isUTC then "Z"
    else if offset == 0 then ""
    else
      [if offset >= 0 then '+' else '-'] + Padded(Abs(offset) / 3600, 2) + ":" + Padded(Abs(offset) % 3600 / 60, 2)
  }

  /** Four digits hold the year, two an hour of the offset. */
  predicate Printable(m: Moment) {
    0 <= m.date.year <= 9999 && Abs(m.offset) < 100 * 3600
  }

  /** update_literal_text. */
  function Print(m: Moment): string
    requires 0 <= m.fraction < NANOS
  {
    Head(m) + FractionText(m.fraction, m.precision) + ZoneText(m.offset, m.isUTC)
  }

  // ---------- the scanner ----------

  datatype Scanned =
    | NotDatetime
    | Malformed
    | Literal(epoch: int, fraction: nat, precision: Precision, offset: int, isUTC: bool, end: nat)

  predicate DigitsAt(s: string, i: nat, w: nat) {
    i + w <= |s| && AllDigits(s[i..i + w])
  }

  predicate CharAt(s: string, i: nat, c: char) {
    i < |s| && s[i] == c
  }

  /** The lookahead: YYYY-MM-DDTHH:MM. */
  predicate HasPattern(s: string, i: nat) {
    && DigitsAt(s, i, 4) && CharAt(s, i + 4, '-') && DigitsAt(s, i + 5, 2) && CharAt(s, i + 7, '-')
    && DigitsAt(s, i + 8, 2) && CharAt(s, i + 10, 'T') && DigitsAt(s, i + 11, 2) && CharAt(s, i + 13, ':')
    && DigitsAt(s, i + 14, 2)
  }

  /** How many digits stand at i. */
  function DigitRun(s: string, i: nat): (n: nat)
    requires i <= |s|
    ensures i + n <= |s| && AllDigits(s[i..i + n])
    decreases |s| - i
  {
    if i < |s| && IsDigit(s[i]) then
      var n := DigitRun(s, i + 1);
      assert s[i..i + 1 + n] == [s[i]] + s[i + 1..i + 1 + n];
      1 + n
    else 0
  }

  datatype Seconds = Seconds(second: nat, fraction: string, end: nat)

  /** Optional seconds with an optional fraction. */
  function ScanSeconds(s: string, j: nat): (r: Option<Seconds>)
    requires j <= |s|
    ensures r.Some? ==> j <= r.value.end <= |s| && AllDigits(r.value.fraction)
  {
    if !CharAt(s, j, ':') then Some(Seconds(0, "", j))
    else if !DigitsAt(s, j + 1, 2) then None
    else
      var second := Num(s[j + 1..j + 3]);
      if second > 59 then None
      else if !CharAt(s, j + 3, '.') then Some(Seconds(second, "", j + 3))
      else
        var n := DigitRun(s, j + 4);
        if n == 0 then None else Some(Seconds(second, s[j + 4..j + 4 + n], j + 4 + n))
  }

  datatype ZoneScan = ZoneScan(offset: int, isUTC: bool, end: nat)

  /** The mandatory zone: Z, or a sign with hours and optional minutes, up to fourteen hours. */
  function ScanZone(s: string, j: nat): (r: Option<ZoneScan>)
    requires j <= |s|
    ensures r.Some? ==> j < r.value.end <= |s|
  {
    if j == |s| then None
    else if s[j] == 'Z' then Some(ZoneScan(0, true, j + 1))
    else if s[j] != '+' && s[j] != '-' then None
    else if !DigitsAt(s, j + 1, 2) then None
    else
      var hours := Num(s[j + 1..j + 3]);
      var colon := CharAt(s, j + 3, ':');
      var k := if colon then j + 4 else j + 3;
      var hasMinutes := colon || (k < |s| && IsDigit(s[k]));
      if hasMinutes && !DigitsAt(s, k, 2) then None
      else
        var minutes := if hasMinutes then Num(s[k..k + 2]) else 0;
        if hours > 14 || (hours == 14 && minutes > 0) || minutes > 59 then None
        else
          var seconds := hours * 3600 + minutes * 60;
          Some(ZoneScan(if s[j] == '+' then seconds else -seconds, false, if hasMinutes then k + 2 else k))
  }

  /** Nine digits of fraction, cut off or filled up. */
  function FractionNanos(text: string): nat
    requires AllDigits(text)
  {
    if |text| > 9 then Num(text[..9])
    else
      NumOfZeros(text, 9 - |text|);
      Num(text + Digits(0, 9 - |text|))
  }

  function PrecisionOf(text: string): Precision {
    if text == [] then Second else if |text| <= 3 then Millisecond else if |text| <= 6 then Microsecond else Nanosecond
  }

  /** try_scan_datetime at position i. */
  function Scan(s: string, i: nat): (r: Scanned)
    ensures r.Literal? ==> i + 16 < r.end <= |s|
  {
    if !HasPattern(s, i) then NotDatetime
    else
      var date := Date(Num(s[i..i + 4]), Num(s[i + 5..i + 7]), Num(s[i + 8..i + 10]));
      var hour, minute := Num(s[i + 11..i + 13]), Num(s[i + 14..i + 16]);
      if !LexerAccepts(date) || hour > 23 || minute > 59 then Malformed
      else
        var t := ScanSeconds(s, i + 16);
        if t.None? then Malformed
        else
          var z := ScanZone(s, t.value.end);
          if z.None? then Malformed
          else
            var total := DaysSinceEpoch(date) * 86400 + hour * 3600 + minute * 60 + t.value.second - z.value.offset;
            var nanos := FractionNanos(t.value.fraction);
            Literal(Unsigned(Unsigned(total) * NANOS + nanos), nanos, PrecisionOf(t.value.fraction),
                    z.value.offset, z.value.isUTC, z.value.end)
  }

  // ---------- round trip ----------

  /** The fraction survives printing at its precision. */
  predicate ExactFraction(m: Moment) {
    m.fraction == 0 ||
    match m.precision
    case Second => false
    case Millisecond => m.fraction % 1_000_000 == 0
    case Microsecond => m.fraction % 1000 == 0
    case Nanosecond => true
  }

  /** The zone survives: UTC marked as such, or a whole number of minutes, not zero, within fourteen hours. */
  predicate ScannableZone(m: Moment) {
    m.isUTC || (m.offset != 0 && m.offset % 60 == 0 && Abs(m.offset) <= 14 * 3600)
  }

  lemma SmallPadded(n: int, w: nat)
    requires w == 2 || w == 4
    requires 0 <= n < if w == 2 then 100 else 10000
    ensures Padded(n, w) == Digits(n, w)
  {
    assert Pow10(4) == 10000 && Pow10(2) == 100;
    PaddedFits(n, w);
  }

  lemma HeadIsFixed(m: Moment)
    requires Consistent(m) && Printable(m)
    ensures Head(m) == Digits(m.date.year, 4) + "-" + Digits(m.date.month, 2) + "-" + Digits(m.date.day, 2) + "T"
                       + Digits(m.hour, 2) + ":" + Digits(m.minute, 2) + ":" + Digits(m.second, 2)
    ensures |Head(m)| == 19
  {
    SameRules(m.date);
    SmallPadded(m.date.year, 4);
    SmallPadded(m.date.month, 2);
    SmallPadded(m.date.day, 2);
    SmallPadded(m.hour, 2);
    SmallPadded(m.minute, 2);
    SmallPadded(m.second, 2);
    hide Digits, Padded, DaysSinceEpoch, WallSeconds;
  }

  lemma FixedSlices(y: string, mo: string, d: string, h: string, mi: string, se: string)
    requires |y| == 4 && |mo| == |d| == |h| == |mi| == |se| == 2
    ensures var t := y + "-" + mo + "-" + d + "T" + h + ":" + mi + ":" + se;
            && |t| == 19 && t[0..4] == y && t[5..7] == mo && t[8..10] == d && t[11..13] == h && t[14..16] == mi
            && t[17..19] == se && t[4] == t[7] == '-' && t[10] == 'T' && t[13] == t[16] == ':'
  {
  }

  lemma HeadSlices(m: Moment)
    requires Consistent(m) && Printable(m)
    ensures |Head(m)| == 19
    ensures var h := Head(m);
            && h[0..4] == Digits(m.date.year, 4) && h[5..7] == Digits(m.date.month, 2)
            && h[8..10] == Digits(m.date.day, 2) && h[11..13] == Digits(m.hour, 2)
            && h[14..16] == Digits(m.minute, 2) && h[17..19] == Digits(m.second, 2)
            && h[4] == h[7] == '-' && h[10] == 'T' && h[13] == h[16] == ':'
  {
    HeadIsFixed(m);
    hide Digits, Padded, DaysSinceEpoch, WallSeconds, Head, Consistent, Printable, IsValidDate, TimeOk;
    FixedSlices(Digits(m.date.year, 4), Digits(m.date.month, 2), Digits(m.date.day, 2), Digits(m.hour, 2),
                Digits(m.minute, 2), Digits(m.second, 2));
  }

  lemma SlicesOfPrefix(s: string, h: string, i: nat, j: nat)
    requires |h| <= |s| && s[..|h|] == h && i <= j <= |h|
    ensures s[i..j] == h[i..j] && (i < |h| ==> s[i] == h[i])
  {
    assert forall k | 0 <= k < |h| :: s[k] == s[..|h|][k];
  }

  lemma SmallNum(n: int, w: nat)
    requires w == 2 || w == 4
    requires 0 <= n < if w == 2 then 100 else 10000
    ensures Num(Digits(n, w)) == n
  {
    assert Pow10(4) == 10000 && Pow10(2) == 100;
    NumOfDigits(n, w);
  }

  lemma SmallFields(m: Moment)
    requires Consistent(m) && Printable(m)
    ensures 0 <= m.date.year < 10000 && 0 <= m.date.month < 100 && 0 <= m.date.day < 100
    ensures 0 <= m.hour < 100 && 0 <= m.minute < 100 && 0 <= m.second < 100
  {
    SameRules(m.date);
    hide DaysSinceEpoch, WallSeconds;
  }

  lemma HeadNumbers(m: Moment)
    requires Consistent(m) && Printable(m)
    ensures |Head(m)| == 19
    ensures var h := Head(m);
            && AllDigits(h[0..4]) && AllDigits(h[5..7]) && AllDigits(h[8..10]) && AllDigits(h[11..13])
            && AllDigits(h[14..16]) && AllDigits(h[17..19])
            && Num(h[0..4]) == m.date.year && Num(h[5..7]) == m.date.month && Num(h[8..10]) == m.date.day
            && Num(h[11..13]) == m.hour && Num(h[14..16]) == m.minute && Num(h[17..19]) == m.second
            && h[4] == h[7] == '-' && h[10] == 'T' && h[13] == h[16] == ':'
  {
    SmallFields(m);
    HeadSlices(m);
    hide Digits, Padded, DaysSinceEpoch, WallSeconds, Head, Consistent, Printable, IsValidDate, TimeOk, Num, AllDigits;
    SmallNum(m.date.year, 4);
    SmallNum(m.date.month, 2);
    SmallNum(m.date.day, 2);
    SmallNum(m.hour, 2);
    SmallNum(m.minute, 2);
    SmallNum(m.second, 2);
  }

  lemma HeadParts(m: Moment, s: string)
    requires Consistent(m) && Printable(m) && |s| >= 19
    ensures s[..19] == Head(m) ==>
              && HasPattern(s, 0) && CharAt(s, 16, ':') && DigitsAt(s, 17, 2)
              && Num(s[0..4]) == m.date.year && Num(s[5..7]) == m.date.month && Num(s[8..10]) == m.date.day
              && Num(s[11..13]) == m.hour && Num(s[14..16]) == m.minute && Num(s[17..19]) == m.second
  {
    if s[..19] != Head(m) { return; }
    HeadNumbers(m);
    var h := Head(m);
    hide Digits, Padded, DaysSinceEpoch, WallSeconds, Head, Consistent, Printable, IsValidDate, TimeOk, Num, AllDigits;
    SlicesOfPrefix(s, h, 0, 4);
    SlicesOfPrefix(s, h, 4, 4);
    SlicesOfPrefix(s, h, 5, 7);
    SlicesOfPrefix(s, h, 7, 7);
    SlicesOfPrefix(s, h, 8, 10);
    SlicesOfPrefix(s, h, 10, 10);
    SlicesOfPrefix(s, h, 11, 13);
    SlicesOfPrefix(s, h, 13, 13);
    SlicesOfPrefix(s, h, 14, 16);
    SlicesOfPrefix(s, h, 16, 16);
    SlicesOfPrefix(s, h, 17, 19);
  }

  /** A run of digits followed by something else is found whole. */
  lemma {:induction false} RunFound(s: string, i: nat, d: string, rest: string)
    requires i <= |s| && s[i..] == d + rest && AllDigits(d) && (rest == [] || !IsDigit(rest[0]))
    ensures DigitRun(s, i) == |d|
    decreases |d|
  {
    if d != [] {
      assert s[i] == d[0];
      assert s[i + 1..] == s[i..][1..] == d[1..] + rest;
      RunFound(s, i + 1, d[1..], rest);
    } else if i < |s| {
      assert s[i] == s[i..][0] == rest[0];
    }
  }

  /** The digits the printer puts after the point. */
  function FractionDigits(fraction: nat, p: Precision): (d: string)
    ensures AllDigits(d) && |d| <= 9
    ensures FractionText(fraction, p) == if d == [] then "" else "." + d
  {
    if fraction == 0 then ""
    else
      match p
      case Millisecond => Digits(fraction / 1_000_000, 3)
      case Microsecond => Digits(fraction / 1000, 6)
      case Nanosecond => Digits(fraction, 9)
      case Second => ""
  }

  /** What is left of the fraction when it has been printed and read back. */
  function Truncated(fraction: nat, p: Precision): nat {
    match p
    case Second => 0
    case Millisecond => fraction / 1_000_000 * 1_000_000
    case Microsecond => fraction / 1000 * 1000
    case Nanosecond => fraction
  }

  lemma PowersOfTen()
    ensures Pow10(3) == 1000 && Pow10(6) == 1_000_000 && Pow10(9) == 1_000_000_000 && Pow10(0) == 1
  {
    assert Pow10(1) == 10 && Pow10(2) == 100 && Pow10(3) == 1000;
    assert Pow10(4) == 10000 && Pow10(5) == 100000 && Pow10(6) == 1_000_000;
    assert Pow10(7) == 10_000_000 && Pow10(8) == 100_000_000;
  }

  lemma FractionReadBack(fraction: nat, p: Precision)
    requires fraction < NANOS
    ensures FractionNanos(FractionDigits(fraction, p)) == Truncated(fraction, p)
  {
    PowersOfTen();
    var d := FractionDigits(fraction, p);
    NumOfZeros(d, 9 - |d|);
    if fraction > 0 {
      match p
      case Second =>
      case Millisecond => NumOfDigits(fraction / 1_000_000, 3);
      case Microsecond => NumOfDigits(fraction / 1000, 6);
      case Nanosecond => NumOfDigits(fraction, 9);
    }
  }

  lemma SecondsAt(s: string, j: nat, second: nat, d: string, rest: string)
    requires CharAt(s, j, ':') && DigitsAt(s, j + 1, 2) && Num(s[j + 1..j + 3]) == second <= 59
    requires AllDigits(d) && s[j + 3..] == (if d == [] then "" else "." + d) + rest
    requires rest == [] || (!IsDigit(rest[0]) && rest[0] != '.')
    ensures ScanSeconds(s, j) == Some(Seconds(second, d, j + 3 + if d == [] then 0 else 1 + |d|))
  {
    if d != [] {
      PointAndDigits(s, j + 3, d, rest);
      hide Num, IsDigit, DigitRun, AllDigits;
    } else {
      assert s[j + 3..] == rest;
      assert rest != [] ==> s[j + 3] == rest[0];
      hide Num, DigitRun;
    }
  }

  lemma PointAndDigits(s: string, k: nat, d: string, rest: string)
    requires k <= |s| && AllDigits(d) && d != [] && s[k..] == "." + d + rest && (rest == [] || !IsDigit(rest[0]))
    ensures k < |s| && s[k] == '.' && DigitRun(s, k + 1) == |d| && s[k + 1..k + 1 + |d|] == d
  {
    AfterPoint(s, k, d, rest);
    RunFound(s, k + 1, d, rest);
    hide AllDigits, DigitRun;
  }

  lemma AfterPoint(s: string, k: nat, d: string, rest: string)
    requires k <= |s| && s[k..] == "." + d + rest
    ensures k + 1 + |d| <= |s| && s[k] == '.' && s[k + 1..] == d + rest && s[k + 1..k + 1 + |d|] == d
  {
    var t := s[k..];
    assert forall i | 0 <= i < |t| :: s[k + i] == t[i];
    assert t[1..] == d + rest && t[1..1 + |d|] == d;
    assert s[k + 1..] == t[1..];
  }

  lemma SecondsFound(m: Moment, s: string, rest: string)
    requires Consistent(m) && Printable(m) && s == Head(m) + FractionText(m.fraction, m.precision) + rest
    requires rest == [] || (!IsDigit(rest[0]) && rest[0] != '.')
    ensures var d := FractionDigits(m.fraction, m.precision);
            ScanSeconds(s, 16) == Some(Seconds(m.second, d, 19 + |FractionText(m.fraction, m.precision)|))
  {
    hide Digits, Num, DaysSinceEpoch, WallSeconds, Head, FractionText, HasPattern, FractionDigits;
    HeadIsFixed(m);
    assert s[..19] == Head(m);
    HeadParts(m, s);
    assert s[19..] == FractionText(m.fraction, m.precision) + rest;
    SecondsAt(s, 16, m.second, FractionDigits(m.fraction, m.precision), rest);
  }

  lemma ZoneIsFixed(offset: int)
    requires offset != 0 && Abs(offset) < 100 * 3600
    ensures ZoneText(offset, false)
         == [if offset >= 0 then '+' else '-'] + Digits(Abs(offset) / 3600, 2) + ":"
            + Digits(Abs(offset) % 3600 / 60, 2)
  {
    SmallPadded(Abs(offset) / 3600, 2);
    SmallPadded(Abs(offset) % 3600 / 60, 2);
    hide Digits, Padded;
  }

  lemma ShiftFound(offset: int, s: string, j: nat, rest: string)
    requires offset != 0 && Abs(offset) < 100 * 3600 && j <= |s| && s[j..] == ZoneText(offset, false) + rest
    ensures var minutes := Abs(offset) / 60;
            ScanZone(s, j) ==
              if minutes > 14 * 60 then None
              else Some(ZoneScan(if offset > 0 then minutes * 60 else -(minutes * 60), false, j + 6))
  {
    hide Digits, Padded, Num, AllDigits, ScanZone, ZoneText;
    var h, mi := Abs(offset) / 3600, Abs(offset) % 3600 / 60;
    ZoneIsFixed(offset);
    HoursAndMinutes(Abs(offset));
    SmallNum(h, 2);
    SmallNum(mi, 2);
    ZoneSlices(s, j, if offset >= 0 then '+' else '-', Digits(h, 2), Digits(mi, 2), rest);
    ZoneScanned(s, j, h, mi);
  }

  lemma ZoneFound(m: Moment, s: string, j: nat, rest: string)
    requires Consistent(m) && Printable(m) && j <= |s| && s[j..] == ZoneText(m.offset, m.isUTC) + rest
    requires m.isUTC || m.offset != 0
    ensures m.isUTC ==> ScanZone(s, j) == Some(ZoneScan(0, true, j + 1))
    ensures !m.isUTC ==>
              var minutes := Abs(m.offset) / 60;
              ScanZone(s, j) ==
                if minutes > 14 * 60 then None
                else Some(ZoneScan(if m.offset > 0 then minutes * 60 else -(minutes * 60), false, j + 6))
  {
    if m.isUTC {
      assert s[j] == s[j..][0] == 'Z';
    } else {
      hide Digits, Padded, Num, DaysSinceEpoch, Consistent, ScanZone, ZoneText;
      ShiftFound(m.offset, s, j, rest);
    }
  }

  lemma HoursAndMinutes(seconds: nat)
    ensures var h, mi := seconds / 3600, seconds % 3600 / 60;
            seconds / 60 == h * 60 + mi && mi < 60 && (h > 14 || (h == 14 && mi > 0) <==> seconds / 60 > 14 * 60)
  {
  }

  /** A zone written with hours, a colon and minutes. */
  lemma ZoneScanned(s: string, j: nat, h: nat, mi: nat)
    requires j + 6 <= |s| && (s[j] == '+' || s[j] == '-') && DigitsAt(s, j + 1, 2) && s[j + 3] == ':'
    requires DigitsAt(s, j + 4, 2) && Num(s[j + 1..j + 3]) == h && Num(s[j + 4..j + 6]) == mi <= 59
    ensures ScanZone(s, j) ==
              if h > 14 || (h == 14 && mi > 0) then None
              else Some(ZoneScan(if s[j] == '+' then h * 3600 + mi * 60 else -(h * 3600 + mi * 60), false, j + 6))
  {
    hide Num;
  }

  lemma ZoneSlices(s: string, j: nat, sign: char, h: string, mi: string, rest: string)
    requires j <= |s| && |h| == |mi| == 2 && s[j..] == [sign] + h + ":" + mi + rest
    ensures j + 6 <= |s| && s[j] == sign && s[j + 1..j + 3] == h && s[j + 3] == ':' && s[j + 4..j + 6] == mi
  {
    var t := s[j..];
    assert s[j + 1..j + 3] == t[1..3] == h;
    assert s[j + 3] == t[3] && s[j + 4..j + 6] == t[4..6] == mi;
  }

  lemma WrapProduct(a: int, n: int)
    ensures Unsigned(Unsigned(a) * NANOS + n) == Unsigned(a * NANOS + n)
  {
    var k := a / TWO_64;
    assert a == k * TWO_64 + Unsigned(a);
    assert a * NANOS + n == Unsigned(a) * NANOS + n + (k * NANOS) * TWO_64;
    WrapAgain(Unsigned(a) * NANOS + n, k * NANOS);
  }

  lemma ScanParts(s: string, m: Moment, t: Seconds, z: ZoneScan)
    requires Consistent(m) && HasPattern(s, 0)
    requires Num(s[0..4]) == m.date.year && Num(s[5..7]) == m.date.month && Num(s[8..10]) == m.date.day
    requires Num(s[11..13]) == m.hour && Num(s[14..16]) == m.minute
    requires ScanSeconds(s, 16) == Some(t) && t.second == m.second
    ensures t.end <= |s| && AllDigits(t.fraction)
    ensures ScanZone(s, t.end) == None ==> Scan(s, 0) == Malformed
    ensures ScanZone(s, t.end) == Some(z) ==>
              var nanos := FractionNanos(t.fraction);
              Scan(s, 0) == Literal(Unsigned((WallSeconds(m) - z.offset) * NANOS + nanos), nanos,
                                    PrecisionOf(t.fraction), z.offset, z.isUTC, z.end)
  {
    SameRules(m.date);
    hide Num, DaysSinceEpoch, HasPattern, ScanSeconds, ScanZone, FractionNanos, IsValidDate;
    if ScanZone(s, t.end) == Some(z) {
      WrapProduct(WallSeconds(m) - z.offset, FractionNanos(t.fraction));
    }
  }

  lemma ZoneStart(m: Moment, rest: string)
    requires m.isUTC || m.offset != 0
    ensures var z := ZoneText(m.offset, m.isUTC) + rest; !IsDigit(z[0]) && z[0] != '.'
  {
  }

  lemma ZoneLength(offset: int, isUTC: bool)
    requires Abs(offset) < 100 * 3600
    ensures |ZoneText(offset, isUTC)| == if isUTC then 1 else if offset == 0 then 0 else 6
  {
    SmallPadded(Abs(offset) / 3600, 2);
    SmallPadded(Abs(offset) % 3600 / 60, 2);
  }

  /** Scanning what was printed: everything comes back but what the text does not hold. */
  lemma ScanOfPrint(m: Moment, rest: string)
    requires Consistent(m) && Printable(m) && (m.isUTC || m.offset != 0)
    ensures var r := Scan(Print(m) + rest, 0);
            var minutes := Abs(m.offset) / 60;
            var offset := if m.offset >= 0 then minutes * 60 else -(minutes * 60);
            if minutes > 14 * 60 then r == Malformed
            else
              r.Literal? && r.end == |Print(m)| && r.offset == offset && r.isUTC == m.isUTC
              && r.fraction == Truncated(m.fraction, m.precision)
              && r.precision == PrecisionOf(FractionDigits(m.fraction, m.precision))
              && r.epoch == Unsigned((WallSeconds(m) - offset) * NANOS + r.fraction)
  {
    hide Digits, Num, DaysSinceEpoch, Head, FractionText, ZoneText, ScanSeconds, ScanZone, FractionNanos, HasPattern,
      Scan, WallSeconds, Unsigned, IsValidDate, Truncated;
    HeadIsFixed(m);
    var z := ZoneText(m.offset, m.isUTC);
    var f := FractionText(m.fraction, m.precision);
    var s := Print(m) + rest;
    HeadParts(m, s);
    ZoneStart(m, rest);
    SecondsFound(m, s, z + rest);
    ZoneFound(m, s, 19 + |f|, rest);
    ZoneLength(m.offset, m.isUTC);
    FractionReadBack(m.fraction, m.precision);
    var t := Seconds(m.second, FractionDigits(m.fraction, m.precision), 19 + |f|);
    var zone := ScanZone(s, 19 + |f|);
    ScanParts(s, m, t, if zone.Some? then zone.value else ZoneScan(0, true, 0));
  }

  /** Printing then scanning is the identity on the instant, the fraction and the offset, whatever text follows,
      and the scanner consumes exactly the literal. */
  lemma PrintThenScan(m: Moment, rest: string)
    requires Consistent(m) && Printable(m) && ExactFraction(m) && ScannableZone(m)
    ensures var r := Scan(Print(m) + rest, 0);
            r.Literal? && r.epoch == m.epoch && r.fraction == m.fraction && r.offset == m.offset
            && r.isUTC == m.isUTC && r.end == |Print(m)|
  {
    hide Print, Scan, DaysSinceEpoch, WallSeconds, Unsigned, Signed;
    ScanOfPrint(m, rest);
    assert Truncated(m.fraction, m.precision) == m.fraction;
    assert Abs(m.offset) / 60 * 60 == Abs(m.offset);
    assert (WallSeconds(m) - m.offset) * NANOS + m.fraction == Signed(m.epoch);
    UnsignedOfSigned(m.epoch);
  }

  lemma UnsignedOfSigned(u: int)
    requires 0 <= u < TWO_64
    ensures Unsigned(Signed(u)) == u
  {
  }

  lemma NoZoneNoLiteral(m: Moment)
    requires Consistent(m) && Printable(m) && !m.isUTC && m.offset == 0
    ensures Scan(Print(m), 0) == Malformed
  {
    HeadIsFixed(m);
    var s := Print(m);
    hide DaysSinceEpoch, IsValidDate, WallSeconds, Head, FractionText, Num, Digits, Padded, AllDigits, HasPattern, Scan;
    assert s == Head(m) + FractionText(m.fraction, m.precision) + [];
    assert s[..19] == Head(m);
    HeadParts(m, s);
    SecondsFound(m, s, []);
    ScanParts(s, m, ScanSeconds(s, 16).value, ZoneScan(0, true, 0));
  }

  /** A date-time outside the conditions loses something in print. */
  lemma Mangled(m: Moment)
    requires Consistent(m) && (m.isUTC || m.offset != 0) && !(ExactFraction(m) && ScannableZone(m))
    requires Abs(m.offset) / 60 <= 14 * 60
    ensures Truncated(m.fraction, m.precision) != m.fraction
         || (if m.offset >= 0 then Abs(m.offset) / 60 * 60 else -(Abs(m.offset) / 60 * 60)) != m.offset
  {
    hide DaysSinceEpoch, WallSeconds, IsValidDate, ExactFraction, Truncated;
    if !ExactFraction(m) {
      FractionCut(m);
    } else {
      MinutesCut(m.offset);
    }
  }

  lemma FractionCut(m: Moment)
    requires 0 <= m.fraction && !ExactFraction(m)
    ensures Truncated(m.fraction, m.precision) != m.fraction
  {
  }

  lemma MinutesCut(offset: int)
    ensures offset % 60 == 0 <==> (if offset >= 0 then Abs(offset) / 60 * 60 else -(Abs(offset) / 60 * 60)) == offset
  {
  }

  /** The round trip succeeds for exactly these date-times. It fails for a zero offset that is not marked UTC, as in
      a literal written +00:00: the printer leaves its zone out, and the scanner wants one. */
  lemma RoundTripExactly(m: Moment)
    requires Consistent(m) && Printable(m)
    ensures (var r := Scan(Print(m), 0);
             r.Literal? && r.epoch == m.epoch && r.fraction == m.fraction && r.offset == m.offset)
       <==> ExactFraction(m) && ScannableZone(m)
  {
    hide Print, Scan, DaysSinceEpoch, WallSeconds, IsValidDate, Unsigned, Signed;
    assert Print(m) + [] == Print(m);
    if ExactFraction(m) && ScannableZone(m) {
      PrintThenScan(m, []);
    } else if !m.isUTC && m.offset == 0 {
      NoZoneNoLiteral(m);
    } else {
      ScanOfPrint(m, []);
      if Abs(m.offset) / 60 <= 14 * 60 {
        Mangled(m);
      }
    }
  }
}
