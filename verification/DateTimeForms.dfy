/** Timestamp literals as they may be written: seconds or none, a fraction of any length, the zone in any of its forms.
    The scanner accepts exactly these texts, and takes each for the instant it shows. */
module DateTimeForms {
  import opened Wrappers
  import opened Calendar
  import opened DateTime
  import opened DateTimeText
  import opened DateTimeLiterals
  import opened Decimal

  /** +HH:MM, +HHMM and +HH. */
  datatype Form = Colon | Compact | HoursOnly

  datatype WrittenZone = Zulu | Shifted(positive: bool, h: nat, mi: nat, form: Form)

  datatype Written = Written(date: Date, hour: nat, minute: nat, second: Option<nat>, fraction: string,
                             zone: WrittenZone)

  function Sign(z: WrittenZone): char
    requires z.Shifted?
  {
    if z.positive then '+' else '-'
  }

  function ZoneWritten(z: WrittenZone): string {
    match z
    case Zulu => "Z"
    case Shifted(positive, h, mi, form) =>
      [Sign(z)] + Digits(h, 2)
      + match form
        case Colon => ":" + Digits(mi, 2)
        case Compact => Digits(mi, 2)
        case HoursOnly => ""
  }

  function Point(fraction: string): string {
    if fraction == [] then "" else "." + fraction
  }

  function SecondsWritten(second: Option<nat>, fraction: string): string {
    match second
    case None => ""
    case Some(x) => ":" + Digits(x, 2) + Point(fraction)
  }

  function HeadWritten(year: nat, month: nat, day: nat, hour: nat, minute: nat): string {
    Digits(year, 4) + "-" + Digits(month, 2) + "-" + Digits(day, 2) + "T" + Digits(hour, 2) + ":" + Digits(minute, 2)
  }

  function Text(w: Written): string
    requires Legal(w)
  {
    HeadWritten(w.date.year, w.date.month, w.date.day, w.hour, w.minute) + SecondsWritten(w.second, w.fraction)
    + ZoneWritten(w.zone)
  }

  /** Up to fourteen hours from UTC, in whole minutes. */
  predicate LegalZone(z: WrittenZone) {
    z.Shifted? ==> ((z.h < 14 && z.mi < 60) || (z.h == 14 && z.mi == 0)) && (z.form.HoursOnly? ==> z.mi == 0)
  }

  predicate LegalSeconds(second: Option<nat>, fraction: string) {
    AllDigits(fraction) && (second.Some? ==> second.value < 60) && (second.None? ==> fraction == [])
  }

  predicate Legal(w: Written) {
    && IsValidDate(w.date) && 0 <= w.date.year <= 9999 && 0 <= w.date.month && 0 <= w.date.day
    && w.hour < 24 && w.minute < 60 && LegalSeconds(w.second, w.fraction) && LegalZone(w.zone)
  }

  /** The text behind a literal that ends with the hours of its zone may not go on as minutes would. */
  predicate MayFollow(z: WrittenZone, rest: string) {
    z.Shifted? && z.form.HoursOnly? && rest != [] ==> rest[0] != ':' && !IsDigit(rest[0])
  }

  function OffsetOf(z: WrittenZone): int {
    match z
    case Zulu => 0
    case Shifted(positive, h, mi, _) => if positive then h * 3600 + mi * 60 else -(h * 3600 + mi * 60)
  }

  /** The seconds from 1970 in UTC that the text shows. */
  function ShownSeconds(w: Written): int
    requires 1 <= w.date.month <= 12
  {
    DaysSinceEpoch(w.date) * 86400 + w.hour * 3600 + w.minute * 60
    + (if w.second.Some? then w.second.value else 0) - OffsetOf(w.zone)
  }

  // ---------- digits ----------

  lemma {:induction false} DigitsOfNum(s: string)
    requires AllDigits(s)
    ensures Digits(Num(s), |s|) == s && Num(s) < Pow10(|s|)
  {
    if s != [] {
      DigitsOfNum(s[..|s| - 1]);
      var d := DigitValue(s[|s| - 1]);
      assert Num(s) / 10 == Num(s[..|s| - 1]) && Num(s) % 10 == d;
      assert DigitChar(d) == s[|s| - 1];
      assert s == s[..|s| - 1] + [s[|s| - 1]];
    }
  }

  // ---------- the fraction ----------

  lemma {:induction false} NumSplits(a: string, b: string)
    requires AllDigits(a) && AllDigits(b)
    ensures AllDigits(a + b) && Num(a + b) == Num(a) * Pow10(|b|) + Num(b)
  {
    if b == [] {
      assert a + b == a;
    } else {
      var last := |b| - 1;
      NumSplits(a, b[..last]);
      assert (a + b)[..|a + b| - 1] == a + b[..last] && (a + b)[|a + b| - 1] == b[last];
      OneDigitOn(Num(a), Pow10(last), Num(b[..last]), DigitValue(b[last]));
    }
  }

  lemma OneDigitOn(x: nat, p: nat, y: nat, d: nat)
    ensures (x * p + y) * 10 + d == x * (10 * p) + (y * 10 + d)
  {
    assert x * (10 * p) == 10 * (x * p);
  }

  lemma {:induction false} PowersMultiply(a: nat, b: nat)
    ensures Pow10(a + b) == Pow10(a) * Pow10(b) && Pow10(a) > 0
  {
    if a > 0 {
      PowersMultiply(a - 1, b);
    }
  }

  /** The nanoseconds are the digits after the point, as a fraction of a second, rounded down. */
  lemma FractionIsRoundedDown(text: string)
    requires AllDigits(text)
    ensures var n := FractionNanos(text);
            n * Pow10(|text|) <= Num(text) * NANOS < (n + 1) * Pow10(|text|) && 0 <= n < NANOS
  {
    if |text| > 9 {
      LongFraction(text);
    } else {
      ShortFraction(text);
    }
  }

  lemma LongFraction(text: string)
    requires AllDigits(text) && |text| > 9
    ensures var n := Num(text[..9]); n * Pow10(|text|) <= Num(text) * NANOS < (n + 1) * Pow10(|text|) && n < NANOS
  {
    PowersOfTen();
    var a, b := text[..9], text[9..];
    assert text == a + b;
    NumSplits(a, b);
    NumBound(a);
    NumBound(b);
    PowersMultiply(9, |b|);
    hide Pow10, Num;
    CutOff(Num(a), Num(b), Pow10(|b|));
  }

  lemma ShortFraction(text: string)
    requires AllDigits(text) && |text| <= 9
    ensures var n := FractionNanos(text); n * Pow10(|text|) == Num(text) * NANOS < (n + 1) * Pow10(|text|) && n < NANOS
  {
    NumOfZeros(text, 9 - |text|);
    NumBound(text);
    PowersToNine(|text|);
    hide Pow10, Num, AllDigits, Digits;
    FilledUp(Num(text), Pow10(|text|), Pow10(9 - |text|));
  }

  lemma PowersToNine(k: nat)
    requires k <= 9
    ensures Pow10(k) * Pow10(9 - k) == NANOS && Pow10(9 - k) > 0
  {
    PowersOfTen();
    PowersMultiply(k, 9 - k);
    PowersMultiply(9 - k, 0);
    hide Pow10;
  }

  lemma CutOff(a: nat, b: nat, p: nat)
    requires b < p
    ensures a * (NANOS * p) <= (a * p + b) * NANOS < (a + 1) * (NANOS * p)
  {
    assert (a * p + b) * NANOS == a * (NANOS * p) + b * NANOS;
    assert (a + 1) * (NANOS * p) == a * (NANOS * p) + p * NANOS;
  }

  lemma FilledUp(n: nat, p: nat, q: nat)
    requires n < p && p * q == NANOS && q > 0
    ensures n * q * p == n * NANOS < (n * q + 1) * p && n * q < NANOS
  {
    assert n * q * p == n * (p * q);
    assert (n * q + 1) * p == n * q * p + p;
    assert (p - n) * q > 0;
    assert (p - n) * q == p * q - n * q;
  }

  /** The digits after the point that a precision has room for. */
  function Width(p: Precision): nat {
    match p
    case Second => 0
    case Millisecond => 3
    case Microsecond => 6
    case Nanosecond => 9
  }

  /** The coarsest precision with room for all digits, and nanoseconds when none has. */
  lemma PrecisionIsCoarsest(text: string, p: Precision)
    ensures |text| <= Width(PrecisionOf(text)) || PrecisionOf(text) == Nanosecond
    ensures |text| <= Width(p) ==> Width(PrecisionOf(text)) <= Width(p)
  {
  }

  // ---------- every form is scanned ----------

  lemma ZoneIsScanned(z: WrittenZone, s: string, j: nat, rest: string)
    requires LegalZone(z) && MayFollow(z, rest) && j <= |s| && s[j..] == ZoneWritten(z) + rest
    ensures ScanZone(s, j) == Some(ZoneScan(OffsetOf(z), z.Zulu?, j + |ZoneWritten(z)|))
  {
    hide Digits, Num, AllDigits;
    if z.Zulu? {
      assert s[j] == s[j..][0];
    } else {
      SmallNum(z.h, 2);
      SmallNum(z.mi, 2);
      hide ScanZone;
      match z.form
      case Colon => ColonForm(z, s, j, rest);
      case Compact => CompactForm(z, s, j, rest);
      case HoursOnly => HoursForm(z, s, j, rest);
    }
  }

  lemma ColonForm(z: WrittenZone, s: string, j: nat, rest: string)
    requires LegalZone(z) && z.Shifted? && z.form.Colon? && j <= |s| && s[j..] == ZoneWritten(z) + rest
    requires Num(Digits(z.h, 2)) == z.h && Num(Digits(z.mi, 2)) == z.mi
    ensures ScanZone(s, j) == Some(ZoneScan(OffsetOf(z), false, j + 6))
  {
    hide Digits, Num, AllDigits, ScanZone;
    ZoneSlices(s, j, Sign(z), Digits(z.h, 2), Digits(z.mi, 2), rest);
    ZoneScanned(s, j, z.h, z.mi);
  }

  lemma CompactForm(z: WrittenZone, s: string, j: nat, rest: string)
    requires LegalZone(z) && z.Shifted? && z.form.Compact? && j <= |s| && s[j..] == ZoneWritten(z) + rest
    requires Num(Digits(z.h, 2)) == z.h && Num(Digits(z.mi, 2)) == z.mi
    ensures ScanZone(s, j) == Some(ZoneScan(OffsetOf(z), false, j + 5))
  {
    hide Digits, Num, AllDigits, ScanZone;
    CompactSlices(s, j, Sign(z), Digits(z.h, 2), Digits(z.mi, 2), rest);
    CompactScanned(s, j, z.h, z.mi);
  }

  lemma HoursForm(z: WrittenZone, s: string, j: nat, rest: string)
    requires LegalZone(z) && z.Shifted? && z.form.HoursOnly? && j <= |s| && s[j..] == ZoneWritten(z) + rest
    requires Num(Digits(z.h, 2)) == z.h && MayFollow(z, rest)
    ensures ScanZone(s, j) == Some(ZoneScan(OffsetOf(z), false, j + 3))
  {
    hide Digits, Num, AllDigits, ScanZone;
    CompactSlices(s, j, Sign(z), Digits(z.h, 2), "", rest);
    HoursScanned(s, j, z.h);
  }

  lemma CompactSlices(s: string, j: nat, sign: char, h: string, mi: string, rest: string)
    requires j <= |s| && |h| == 2 && s[j..] == [sign] + h + mi + rest
    ensures j + 3 + |mi| <= |s| && s[j] == sign && s[j + 1..j + 3] == h && s[j + 3..j + 3 + |mi|] == mi
    ensures s[j + 3 + |mi|..] == rest && (rest != [] ==> j + 3 + |mi| < |s| && s[j + 3 + |mi|] == rest[0])
  {
    var t, k := s[j..], 3 + |mi|;
    assert s[j + 1..j + 3] == t[1..3] == h;
    assert s[j + 3..j + k] == t[3..k] == mi;
    assert s[j + k..] == t[k..] == rest;
  }

  lemma CompactScanned(s: string, j: nat, h: nat, mi: nat)
    requires j + 5 <= |s| && (s[j] == '+' || s[j] == '-') && DigitsAt(s, j + 1, 2) && DigitsAt(s, j + 3, 2)
    requires Num(s[j + 1..j + 3]) == h && Num(s[j + 3..j + 5]) == mi <= 59 && (h < 14 || (h == 14 && mi == 0))
    ensures ScanZone(s, j)
         == Some(ZoneScan(if s[j] == '+' then h * 3600 + mi * 60 else -(h * 3600 + mi * 60), false, j + 5))
  {
    assert s[j + 3] == s[j + 3..j + 5][0];
    assert IsDigit(s[j + 3]);
    hide Num;
  }

  lemma HoursScanned(s: string, j: nat, h: nat)
    requires j + 3 <= |s| && (s[j] == '+' || s[j] == '-') && DigitsAt(s, j + 1, 2)
    requires Num(s[j + 1..j + 3]) == h <= 14 && (j + 3 < |s| ==> s[j + 3] != ':' && !IsDigit(s[j + 3]))
    ensures ScanZone(s, j) == Some(ZoneScan(if s[j] == '+' then h * 3600 else -(h * 3600), false, j + 3))
  {
    hide Num;
  }

  lemma SecondsAreScanned(second: Option<nat>, fraction: string, s: string, j: nat, rest: string)
    requires LegalSeconds(second, fraction) && j <= |s| && s[j..] == SecondsWritten(second, fraction) + rest
    requires rest != [] && !IsDigit(rest[0]) && rest[0] != '.' && rest[0] != ':'
    ensures ScanSeconds(s, j) == Some(Seconds(if second.Some? then second.value else 0, fraction,
                                              j + |SecondsWritten(second, fraction)|))
  {
    hide Digits, Num, DigitRun, AllDigits, ScanSeconds, Point;
    if second.Some? {
      SecondsFollow(second.value, fraction, s, j, rest);
    } else {
      NoSeconds(s, j, rest);
    }
  }

  lemma NoSeconds(s: string, j: nat, rest: string)
    requires j <= |s| && s[j..] == rest && rest != [] && rest[0] != ':'
    ensures ScanSeconds(s, j) == Some(Seconds(0, "", j))
  {
    assert s[j] == s[j..][0];
  }

  lemma SecondsFollow(x: nat, fraction: string, s: string, j: nat, rest: string)
    requires x < 60 && AllDigits(fraction) && j <= |s| && s[j..] == ":" + Digits(x, 2) + Point(fraction) + rest
    requires rest != [] && !IsDigit(rest[0]) && rest[0] != '.'
    ensures ScanSeconds(s, j) == Some(Seconds(x, fraction, j + 3 + |Point(fraction)|))
  {
    hide Digits, Num, ScanSeconds;
    SmallNum(x, 2);
    SecondsSlices(s, j, Digits(x, 2), Point(fraction), rest);
    SecondsAt(s, j, x, fraction, rest);
  }

  lemma SecondsSlices(s: string, j: nat, d: string, point: string, rest: string)
    requires j <= |s| && |d| == 2 && s[j..] == ":" + d + point + rest
    ensures j + 3 <= |s| && s[j] == ':' && s[j + 1..j + 3] == d && s[j + 3..] == point + rest
  {
    var t := s[j..];
    assert s[j] == t[0] && s[j + 1..j + 3] == t[1..3] == d;
    assert s[j + 3..] == t[3..] == point + rest;
  }

  lemma HeadSlicesAt(y: string, mo: string, d: string, h: string, mi: string, s: string, i: nat)
    requires |y| == 4 && |mo| == |d| == |h| == |mi| == 2 && i + 16 <= |s|
    requires AllDigits(y) && AllDigits(mo) && AllDigits(d) && AllDigits(h) && AllDigits(mi)
    requires s[i..i + 16] == y + "-" + mo + "-" + d + "T" + h + ":" + mi
    ensures HasPattern(s, i) && s[i..i + 4] == y && s[i + 5..i + 7] == mo && s[i + 8..i + 10] == d
    ensures s[i + 11..i + 13] == h && s[i + 14..i + 16] == mi
  {
    hide AllDigits;
    var t := s[i..i + 16];
    assert t[0..4] == y && t[5..7] == mo && t[8..10] == d && t[11..13] == h && t[14..16] == mi;
    assert t[4] == t[7] == '-' && t[10] == 'T' && t[13] == ':';
    DigitsMove(s, i, i + 16, 0, 4);
    DigitsMove(s, i, i + 16, 5, 2);
    DigitsMove(s, i, i + 16, 8, 2);
    DigitsMove(s, i, i + 16, 11, 2);
    DigitsMove(s, i, i + 16, 14, 2);
  }

  /** The scanner, once it has read the parts. */
  lemma ScanOfParts(s: string, i: nat, w: Written, end: nat, zoneEnd: nat)
    requires Legal(w) && HasPattern(s, i) && end <= |s|
    requires Date(Num(s[i..i + 4]), Num(s[i + 5..i + 7]), Num(s[i + 8..i + 10])) == w.date
    requires Num(s[i + 11..i + 13]) == w.hour && Num(s[i + 14..i + 16]) == w.minute
    requires ScanSeconds(s, i + 16)
          == Some(Seconds(if w.second.Some? then w.second.value else 0, w.fraction, end))
    requires ScanZone(s, end) == Some(ZoneScan(OffsetOf(w.zone), w.zone.Zulu?, zoneEnd))
    ensures 1 <= w.date.month <= 12
    ensures Scan(s, i)
         == Literal(Unsigned(ShownSeconds(w) * NANOS + FractionNanos(w.fraction)), FractionNanos(w.fraction),
                    PrecisionOf(w.fraction), OffsetOf(w.zone), w.zone.Zulu?, zoneEnd)
  {
    SameRules(w.date);
    hide Num, AllDigits, HasPattern, ScanSeconds, ScanZone, FractionNanos, DaysSinceEpoch, IsValidDate, PrecisionOf,
      OffsetOf, Unsigned;
    WrapProduct(ShownSeconds(w), FractionNanos(w.fraction));
  }

  /** Any literal, anywhere in a source: it is taken whole, for the instant that it shows in the zone that it shows, in
      64 bits. Seconds left out are none, and a fraction of any length is rounded down to nanoseconds. */
  lemma LiteralIsScanned(w: Written, s: string, i: nat, rest: string)
    requires Legal(w) && MayFollow(w.zone, rest) && i <= |s| && s[i..] == Text(w) + rest
    ensures 1 <= w.date.month <= 12
    ensures var r := Scan(s, i);
            && r.Literal? && r.end == i + |Text(w)| && r.offset == OffsetOf(w.zone) && r.isUTC == w.zone.Zulu?
            && r.epoch == Unsigned(ShownSeconds(w) * NANOS + r.fraction)
            && r.fraction * Pow10(|w.fraction|) <= Num(w.fraction) * NANOS < (r.fraction + 1) * Pow10(|w.fraction|)
            && r.precision == PrecisionOf(w.fraction)
  {
    hide *;
    DateOfLegal(w);
    FractionIsRoundedDown(w.fraction);
    var seconds, zone := SecondsWritten(w.second, w.fraction), ZoneWritten(w.zone);
    TextParts(w, s, i, rest);
    HeadIsScanned(w, s, i);
    ZoneBegins(w.zone, rest);
    SecondsAreScanned(w.second, w.fraction, s, i + 16, zone + rest);
    ZoneIsScanned(w.zone, s, i + 16 + |seconds|, rest);
    ScanOfParts(s, i, w, i + 16 + |seconds|, i + 16 + |seconds| + |zone|);
  }

  lemma DateOfLegal(w: Written)
    requires Legal(w)
    ensures 1 <= w.date.month <= 12 && AllDigits(w.fraction) && LegalZone(w.zone) && LegalSeconds(w.second, w.fraction)
  {
    SameRules(w.date);
  }

  lemma TextParts(w: Written, s: string, i: nat, rest: string)
    requires Legal(w) && i <= |s| && s[i..] == Text(w) + rest
    ensures i + 16 + |SecondsWritten(w.second, w.fraction)| <= |s|
    ensures |Text(w)| == 16 + |SecondsWritten(w.second, w.fraction)| + |ZoneWritten(w.zone)|
    ensures s[i..i + 16] == HeadWritten(w.date.year, w.date.month, w.date.day, w.hour, w.minute)
    ensures s[i + 16..] == SecondsWritten(w.second, w.fraction) + (ZoneWritten(w.zone) + rest)
    ensures s[i + 16 + |SecondsWritten(w.second, w.fraction)|..] == ZoneWritten(w.zone) + rest
  {
    hide Digits, SecondsWritten, ZoneWritten;
    PartsAt(s, i, HeadWritten(w.date.year, w.date.month, w.date.day, w.hour, w.minute),
            SecondsWritten(w.second, w.fraction), ZoneWritten(w.zone), rest);
  }

  lemma HeadIsScanned(w: Written, s: string, i: nat)
    requires Legal(w) && i + 16 <= |s|
    requires s[i..i + 16] == HeadWritten(w.date.year, w.date.month, w.date.day, w.hour, w.minute)
    ensures HasPattern(s, i) && Date(Num(s[i..i + 4]), Num(s[i + 5..i + 7]), Num(s[i + 8..i + 10])) == w.date
    ensures Num(s[i + 11..i + 13]) == w.hour && Num(s[i + 14..i + 16]) == w.minute
  {
    var d := w.date;
    SameRules(d);
    hide Digits, Num, AllDigits, HasPattern, IsValidDate;
    HeadSlicesAt(Digits(d.year, 4), Digits(d.month, 2), Digits(d.day, 2), Digits(w.hour, 2), Digits(w.minute, 2), s, i);
    SmallNum(d.year, 4);
    SmallNum(d.month, 2);
    SmallNum(d.day, 2);
    SmallNum(w.hour, 2);
    SmallNum(w.minute, 2);
  }

  lemma PartsAt(s: string, i: nat, head: string, seconds: string, zone: string, rest: string)
    requires i <= |s| && |head| == 16 && s[i..] == head + seconds + zone + rest
    ensures i + 16 + |seconds| <= |s| && s[i..i + 16] == head && s[i + 16..] == seconds + (zone + rest)
    ensures s[i + 16 + |seconds|..] == zone + rest
  {
    var t, k := s[i..], 16 + |seconds|;
    assert s[i..i + 16] == t[..16] == head;
    assert s[i + 16..] == t[16..] == seconds + (zone + rest);
    assert s[i + k..] == t[k..] == zone + rest;
  }

  lemma ZoneBegins(z: WrittenZone, rest: string)
    ensures var t := ZoneWritten(z) + rest; t != [] && !IsDigit(t[0]) && t[0] != '.' && t[0] != ':'
  {
  }

  // ---------- and nothing else is ----------

  lemma ZoneShape(s: string, j: nat)
    requires j <= |s| && ScanZone(s, j).Some? && s[j] != 'Z'
    ensures DigitsAt(s, j + 1, 2) && (s[j] == '+' || s[j] == '-')
    ensures var r, h := ScanZone(s, j).value, Num(s[j + 1..j + 3]);
            && r.end in {j + 3, j + 5, j + 6} && !r.isUTC
            && (r.end == j + 3 ==> h <= 14 && r.offset == (if s[j] == '+' then h * 3600 else -(h * 3600))
                                   && (j + 3 < |s| ==> s[j + 3] != ':' && !IsDigit(s[j + 3])))
            && (r.end == j + 6 ==> s[j + 3] == ':')
            && (r.end > j + 3 ==>
                  && DigitsAt(s, r.end - 2, 2)
                  && var mi := Num(s[r.end - 2..r.end]);
                     && (h < 14 || (h == 14 && mi == 0)) && mi < 60
                     && r.offset == if s[j] == '+' then h * 3600 + mi * 60 else -(h * 3600 + mi * 60))
  {
    hide Num, AllDigits;
  }

  lemma ZoneWasWritten(s: string, j: nat) returns (z: WrittenZone)
    requires j <= |s| && ScanZone(s, j).Some?
    ensures var r := ScanZone(s, j).value;
            && LegalZone(z) && s[j..r.end] == ZoneWritten(z) && MayFollow(z, s[r.end..])
            && r.offset == OffsetOf(z) && r.isUTC == z.Zulu?
  {
    if s[j] == 'Z' {
      z := Zulu;
    } else {
      ZoneShape(s, j);
      hide ScanZone, AllDigits, Num, Digits;
      var end, h := ScanZone(s, j).value.end, Num(s[j + 1..j + 3]);
      DigitsOfNum(s[j + 1..j + 3]);
      if end == j + 3 {
        z := Shifted(s[j] == '+', h, 0, HoursOnly);
        assert s[j..end] == [s[j]] + s[j + 1..j + 3] + "";
      } else {
        DigitsOfNum(s[end - 2..end]);
        z := Shifted(s[j] == '+', h, Num(s[end - 2..end]), if end == j + 6 then Colon else Compact);
        assert end == j + 5 ==> s[j..end] == [s[j]] + s[j + 1..j + 3] + s[end - 2..end];
        assert end == j + 6 ==> s[j..end] == [s[j]] + s[j + 1..j + 3] + (":" + s[end - 2..end]);
      }
    }
  }

  lemma SecondsWereWritten(s: string, j: nat) returns (second: Option<nat>)
    requires j <= |s| && ScanSeconds(s, j).Some?
    ensures var r := ScanSeconds(s, j).value;
            LegalSeconds(second, r.fraction) && s[j..r.end] == SecondsWritten(second, r.fraction)
  {
    var r := ScanSeconds(s, j).value;
    if !CharAt(s, j, ':') {
      second := None;
    } else {
      second := Some(r.second);
      DigitsOfNum(s[j + 1..j + 3]);
      if r.end == j + 3 {
        assert s[j..r.end] == ":" + s[j + 1..j + 3];
      } else {
        assert s[j..r.end] == ":" + s[j + 1..j + 3] + ("." + r.fraction);
      }
    }
  }

  lemma HeadWasWritten(s: string, i: nat)
    requires HasPattern(s, i)
    ensures s[i..i + 16]
         == HeadWritten(Num(s[i..i + 4]), Num(s[i + 5..i + 7]), Num(s[i + 8..i + 10]), Num(s[i + 11..i + 13]),
                        Num(s[i + 14..i + 16]))
  {
    DigitsOfNum(s[i..i + 4]);
    DigitsOfNum(s[i + 5..i + 7]);
    DigitsOfNum(s[i + 8..i + 10]);
    DigitsOfNum(s[i + 11..i + 13]);
    DigitsOfNum(s[i + 14..i + 16]);
    hide Num, Digits, AllDigits;
    var t := s[i..i + 16];
    assert t == t[..4] + "-" + t[5..7] + "-" + t[8..10] + "T" + t[11..13] + ":" + t[14..16];
  }

  lemma YearFits(s: string, i: nat)
    requires HasPattern(s, i)
    ensures Num(s[i..i + 4]) <= 9999
  {
    NumBound(s[i..i + 4]);
    PowersOfTen();
    assert Pow10(4) == 10 * Pow10(3);
  }

  /** What the scanner has checked. */
  lemma Checked(s: string, i: nat)
    requires Scan(s, i).Literal?
    ensures HasPattern(s, i) && ScanSeconds(s, i + 16).Some?
    ensures var end := ScanSeconds(s, i + 16).value.end;
            ScanZone(s, end).Some? && Scan(s, i).end == ScanZone(s, end).value.end
    ensures IsValidDate(Date(Num(s[i..i + 4]), Num(s[i + 5..i + 7]), Num(s[i + 8..i + 10])))
    ensures Num(s[i + 11..i + 13]) < 24 && Num(s[i + 14..i + 16]) < 60
  {
    ScanUnfolded(s, i);
    hide Num, AllDigits, ScanSeconds, ScanZone, Scan, FractionNanos, DaysSinceEpoch, IsValidDate, HasPattern;
  }

  lemma LiteralWasWritten(s: string, i: nat) returns (w: Written)
    requires Scan(s, i).Literal?
    ensures Legal(w) && s[i..Scan(s, i).end] == Text(w) && MayFollow(w.zone, s[Scan(s, i).end..])
  {
    Checked(s, i);
    YearFits(s, i);
    HeadWasWritten(s, i);
    hide Num, ScanSeconds, ScanZone, Scan, HasPattern, IsValidDate;
    var d := Date(Num(s[i..i + 4]), Num(s[i + 5..i + 7]), Num(s[i + 8..i + 10]));
    w := WrittenAfter(s, i, d, Num(s[i + 11..i + 13]), Num(s[i + 14..i + 16]));
  }

  lemma WrittenAfter(s: string, i: nat, d: Date, hour: nat, minute: nat) returns (w: Written)
    requires i + 16 <= |s| && ScanSeconds(s, i + 16).Some? && ScanZone(s, ScanSeconds(s, i + 16).value.end).Some?
    requires IsValidDate(d) && 0 <= d.year <= 9999 && d.month >= 0 && d.day >= 0 && hour < 24 && minute < 60
    requires s[i..i + 16] == HeadWritten(d.year, d.month, d.day, hour, minute)
    ensures var end := ScanZone(s, ScanSeconds(s, i + 16).value.end).value.end;
            Legal(w) && s[i..end] == Text(w) && MayFollow(w.zone, s[end..])
  {
    hide AllDigits, ScanSeconds, ScanZone, IsValidDate, HeadWritten, SecondsWritten, ZoneWritten, LegalZone,
      LegalSeconds, MayFollow, Text;
    var t := ScanSeconds(s, i + 16).value;
    var second := SecondsWereWritten(s, i + 16);
    var zone := ZoneWasWritten(s, t.end);
    w := Written(d, hour, minute, second, t.fraction, zone);
    Assembled(w, s, i, t.end, ScanZone(s, t.end).value.end);
  }

  lemma Assembled(w: Written, s: string, i: nat, k: nat, end: nat)
    requires Legal(w) && i + 16 <= k <= end <= |s|
    requires s[i..i + 16] == HeadWritten(w.date.year, w.date.month, w.date.day, w.hour, w.minute)
    requires s[i + 16..k] == SecondsWritten(w.second, w.fraction) && s[k..end] == ZoneWritten(w.zone)
    ensures s[i..end] == Text(w)
  {
    hide Digits, ZoneWritten, SecondsWritten, HeadWritten, Legal;
    assert s[i..end] == s[i..i + 16] + s[i + 16..k] + s[k..end];
  }

  /** The scanner accepts what stands at i exactly if it starts with a literal. */
  lemma AcceptsExactly(s: string, i: nat)
    requires i <= |s|
    ensures Scan(s, i).Literal?
       <==> exists w, rest :: Legal(w) && MayFollow(w.zone, rest) && s[i..] == Text(w) + rest
  {
    hide Scan, Legal, MayFollow, Text;
    if Scan(s, i).Literal? {
      var w := LiteralWasWritten(s, i);
      assert s[i..] == Text(w) + s[Scan(s, i).end..];
    }
    forall w, rest | Legal(w) && MayFollow(w.zone, rest) && s[i..] == Text(w) + rest
      ensures Scan(s, i).Literal?
    {
      LiteralIsScanned(w, s, i, rest);
    }
  }
}
