/** From a timestamp literal to a date-time value and, through any operations, back to text. */
module DateTimeLiterals {
  import opened Wrappers
  import opened Calendar
  import opened DateTime
  import opened DateTimeText
  import opened Decimal

  // ---------- the parser ----------

  /** sscanf on "%d-%d-%dT%d:%d:%d": a number, the next separator, and so on until the text does not match. */
  function ReadFields(text: string, j: nat, separators: string): seq<nat>
    requires j <= |text|
    decreases |separators|
  {
    var n := DigitRun(text, j);
    if n == 0 then []
    else
      [Num(text[j..j + n])]
      + if separators != [] && CharAt(text, j + n, separators[0]) then ReadFields(text, j + n + 1, separators[1..])
        else []
  }

  /** A field sscanf does not reach keeps the zero the node starts with. */
  function Field(fields: seq<nat>, k: nat): nat {
    if k < |fields| then fields[k] else 0
  }

  const SEPARATORS := "--T::"

  /** The value of an accepted literal: the calendar fields are read from its text a second time, the rest comes from
      the scanner. */
  function LiteralMoment(s: string, i: nat): Moment
    requires Scan(s, i).Literal?
  {
    var r := Scan(s, i);
    var f := ReadFields(s[i..r.end], 0, SEPARATORS);
    Moment(Date(Field(f, 0), Field(f, 1), Field(f, 2)), Field(f, 3), Field(f, 4), Field(f, 5), r.fraction, r.precision,
           r.offset, r.isUTC, r.epoch)
  }

  // ---------- the second reading agrees with the first ----------

  lemma RunIs(t: string, j: nat, w: nat)
    requires DigitsAt(t, j, w) && (j + w == |t| || !IsDigit(t[j + w]))
    ensures DigitRun(t, j) == w
  {
    assert t[j..] == t[j..j + w] + t[j + w..];
    RunFound(t, j, t[j..j + w], t[j + w..]);
  }

  lemma ReadOn(t: string, j: nat, w: nat, separators: string)
    requires 0 < w && DigitsAt(t, j, w)
    requires separators != [] && CharAt(t, j + w, separators[0]) && !IsDigit(separators[0])
    ensures ReadFields(t, j, separators) == [Num(t[j..j + w])] + ReadFields(t, j + w + 1, separators[1..])
  {
    hide Num, AllDigits, DigitRun, ReadFields, IsDigit;
    RunIs(t, j, w);
    ReadStep(t, j, separators);
  }

  lemma ReadStep(t: string, j: nat, separators: string)
    requires j <= |t| && DigitRun(t, j) > 0
    requires separators != [] && CharAt(t, j + DigitRun(t, j), separators[0])
    ensures ReadFields(t, j, separators)
         == [Num(t[j..j + DigitRun(t, j)])] + ReadFields(t, j + DigitRun(t, j) + 1, separators[1..])
  {
    hide Num, AllDigits, DigitRun;
  }

  lemma ReadLast(t: string, j: nat, w: nat, separators: string)
    requires 0 < w && DigitsAt(t, j, w) && (j + w == |t| || !IsDigit(t[j + w]))
    requires separators == [] || !CharAt(t, j + w, separators[0])
    ensures ReadFields(t, j, separators) == [Num(t[j..j + w])]
  {
    RunIs(t, j, w);
    hide Num, AllDigits, DigitRun;
  }

  /** The five numbers every literal has, and what is read after them. */
  lemma ReadHead(t: string)
    requires HasPattern(t, 0) && |t| > 16 && !IsDigit(t[16])
    ensures ReadFields(t, 0, SEPARATORS)
         == [Num(t[0..4]), Num(t[5..7]), Num(t[8..10]), Num(t[11..13]), Num(t[14..16])]
            + if t[16] == ':' then ReadFields(t, 17, []) else []
  {
    hide Num, AllDigits, ReadFields;
    assert SEPARATORS[1..] == "-T::" && "-T::"[1..] == "T::" && "T::"[1..] == "::" && "::"[1..] == ":";
    assert ":"[1..] == [];
    ReadOn(t, 0, 4, SEPARATORS);
    ReadOn(t, 5, 2, "-T::");
    ReadOn(t, 8, 2, "T::");
    ReadOn(t, 11, 2, "::");
    if t[16] == ':' {
      ReadOn(t, 14, 2, ":");
    } else {
      ReadLast(t, 14, 2, ":");
    }
  }

  lemma DigitsMove(s: string, i: nat, e: nat, k: nat, w: nat)
    requires i <= e <= |s| && i + k + w <= e
    ensures s[i..e][k..k + w] == s[i + k..i + k + w]
    ensures DigitsAt(s, i + k, w) <==> DigitsAt(s[i..e], k, w)
  {
    var a, b := s[i..e][k..k + w], s[i + k..i + k + w];
    assert |a| == |b| && forall x | 0 <= x < w :: a[x] == b[x];
  }

  lemma PatternMoves(s: string, i: nat, e: nat)
    requires i <= e <= |s| && i + 16 <= e && HasPattern(s, i)
    ensures HasPattern(s[i..e], 0)
  {
    hide AllDigits;
    DigitsMove(s, i, e, 0, 4);
    DigitsMove(s, i, e, 5, 2);
    DigitsMove(s, i, e, 8, 2);
    DigitsMove(s, i, e, 11, 2);
    DigitsMove(s, i, e, 14, 2);
  }

  lemma ZoneChar(s: string, j: nat)
    requires j <= |s| && ScanZone(s, j).Some?
    ensures j < |s| && !IsDigit(s[j]) && s[j] != ':' && s[j] != '.'
  {
    hide Num, AllDigits;
  }

  /** The seconds, read again, are the scanner's: what it found, or zero. */
  lemma ReadSeconds(s: string, i: nat, e: nat)
    requires i + 16 <= |s| && ScanSeconds(s, i + 16).Some? && ScanSeconds(s, i + 16).value.end < e <= |s|
    requires ScanZone(s, ScanSeconds(s, i + 16).value.end).Some?
    ensures !IsDigit(s[i + 16])
    ensures Field(if s[i + 16] == ':' then ReadFields(s[i..e], 17, []) else [], 0)
         == ScanSeconds(s, i + 16).value.second
  {
    var t := ScanSeconds(s, i + 16).value;
    hide Num, AllDigits, ScanZone, DigitRun, ReadFields;
    ZoneChar(s, t.end);
    if s[i + 16] == ':' {
      assert DigitsAt(s, i + 17, 2) && s[i + 19] == s[i..e][19] && !IsDigit(s[i + 19]);
      DigitsMove(s, i, e, 17, 2);
      ReadLast(s[i..e], 17, 2, []);
    }
  }

  /** Both readings of a literal agree on every field. */
  lemma LiteralFields(s: string, i: nat)
    requires Scan(s, i).Literal?
    ensures HasPattern(s, i) && ScanSeconds(s, i + 16).Some?
    ensures var m := LiteralMoment(s, i);
            && m.date == Date(Num(s[i..i + 4]), Num(s[i + 5..i + 7]), Num(s[i + 8..i + 10]))
            && m.hour == Num(s[i + 11..i + 13]) && m.minute == Num(s[i + 14..i + 16])
            && m.second == ScanSeconds(s, i + 16).value.second
  {
    hide Num, AllDigits, DigitRun, ReadFields, ScanZone, ScanSeconds, FractionNanos, DaysSinceEpoch, LexerAccepts,
      Unsigned;
    var e := Scan(s, i).end;
    var t := s[i..e];
    assert e == ScanZone(s, ScanSeconds(s, i + 16).value.end).value.end;
    PatternMoves(s, i, e);
    ReadSeconds(s, i, e);
    hide Scan, HasPattern;
    assert t[16] == s[i + 16];
    ReadHead(t);
    DigitsMove(s, i, e, 0, 4);
    DigitsMove(s, i, e, 5, 2);
    DigitsMove(s, i, e, 8, 2);
    DigitsMove(s, i, e, 11, 2);
    DigitsMove(s, i, e, 14, 2);
  }

  // ---------- which literals agree with their instant ----------

  /** The zones a program can reach: whole minutes, less than a day from UTC. */
  predicate SettableZone(m: Moment) {
    m.offset % 60 == 0 && -86400 < m.offset < 86400
  }

  lemma FractionOfLiteral(text: string, m: Moment)
    requires AllDigits(text) && m.fraction == FractionNanos(text) && m.precision == PrecisionOf(text)
    ensures 0 <= m.fraction < NANOS && ExactFraction(m)
  {
    PowersOfTen();
    hide Pow10, Num, Digits;
    if |text| > 9 {
      NumBound(text[..9]);
    } else {
      NumOfZeros(text, 9 - |text|);
      NumBound(text + Digits(0, 9 - |text|));
      if |text| <= 6 {
        FilledIsScaled(Num(text), |text|);
        FilledDivides(Num(text), |text|);
      }
    }
  }

  /** A number of that many digits, filled up to nine. */
  function Filled(n: nat, digits: nat): nat {
    match digits
    case 0 => n * 1_000_000_000
    case 1 => n * 100_000_000
    case 2 => n * 10_000_000
    case 3 => n * 1_000_000
    case 4 => n * 100_000
    case 5 => n * 10_000
    case _ => n * 1000
  }

  lemma FilledIsScaled(n: nat, digits: nat)
    requires digits <= 6
    ensures n * Pow10(9 - digits) == Filled(n, digits)
  {
    PowersOfTen();
    assert Pow10(4) == 10_000 && Pow10(5) == 100_000 && Pow10(7) == 10_000_000 && Pow10(8) == 100_000_000;
    hide Pow10;
  }

  /** The zeros make whole milliseconds of three digits and whole microseconds of six. */
  lemma FilledDivides(n: nat, digits: nat)
    requires digits <= 6
    ensures Filled(n, digits) % 1000 == 0 && (digits <= 3 ==> Filled(n, digits) % 1_000_000 == 0)
  {
  }

  lemma ZoneOfLiteral(s: string, j: nat, m: Moment)
    requires j <= |s| && ScanZone(s, j).Some?
    requires m.offset == ScanZone(s, j).value.offset && m.isUTC == ScanZone(s, j).value.isUTC
    ensures SettableZone(m) && (m.isUTC ==> m.offset == 0)
  {
    hide Num, AllDigits;
  }

  /** What an accepted literal has passed, and what the scanner makes of it. */
  lemma ScanUnfolded(s: string, i: nat)
    requires Scan(s, i).Literal?
    ensures HasPattern(s, i) && ScanSeconds(s, i + 16).Some?
    ensures ScanZone(s, ScanSeconds(s, i + 16).value.end).Some?
    ensures var t := ScanSeconds(s, i + 16).value;
            var z := ScanZone(s, t.end).value;
            var date := Date(Num(s[i..i + 4]), Num(s[i + 5..i + 7]), Num(s[i + 8..i + 10]));
            var hour, minute := Num(s[i + 11..i + 13]), Num(s[i + 14..i + 16]);
            var r, nanos := Scan(s, i), FractionNanos(t.fraction);
            var total :=
              (if IsValidDate(date) then DaysSinceEpoch(date) else 0) * 86400 + hour * 3600 + minute * 60 + t.second
              - z.offset;
            && IsValidDate(date) && hour <= 23 && minute <= 59
            && r == Literal(Unsigned(Unsigned(total) * NANOS + nanos), nanos, PrecisionOf(t.fraction), z.offset,
                            z.isUTC, z.end)
  {
    SameRules(Date(Num(s[i..i + 4]), Num(s[i + 5..i + 7]), Num(s[i + 8..i + 10])));
    hide Num, AllDigits, HasPattern, ScanSeconds, ScanZone, FractionNanos, DaysSinceEpoch, LexerAccepts, IsValidDate,
      Unsigned, PrecisionOf;
  }

  lemma SecondBound(s: string, j: nat)
    requires j <= |s| && ScanSeconds(s, j).Some?
    ensures ScanSeconds(s, j).value.second <= 59
  {
    hide Num, AllDigits, DigitRun;
  }

  /** The shape of a literal's value, for any numbers the two readings give. */
  predicate FromLiteral(m: Moment) {
    && IsValidDate(m.date) && TimeOk(m) && (m.isUTC ==> m.offset == 0) && SettableZone(m) && ExactFraction(m)
    && m.epoch == Unsigned(Unsigned(WallSeconds(m) - m.offset) * NANOS + m.fraction)
  }

  lemma PartsTogether(m: Moment, text: string, s: string, j: nat)
    requires IsValidDate(m.date) && 0 <= m.hour <= 23 && 0 <= m.minute <= 59 && 0 <= m.second <= 59
    requires AllDigits(text) && m.fraction == FractionNanos(text) && m.precision == PrecisionOf(text)
    requires j <= |s| && ScanZone(s, j).Some?
    requires m.offset == ScanZone(s, j).value.offset && m.isUTC == ScanZone(s, j).value.isUTC
    requires m.epoch == Unsigned(Unsigned(WallSeconds(m) - m.offset) * NANOS + m.fraction)
    ensures FromLiteral(m)
  {
    hide AllDigits, ScanZone, FractionNanos, DaysSinceEpoch, IsValidDate, Unsigned, PrecisionOf, ExactFraction,
      SettableZone, WallSeconds;
    FractionOfLiteral(text, m);
    ZoneOfLiteral(s, j, m);
  }

  /** The scanner's half of the value. */
  lemma LiteralRest(s: string, i: nat)
    requires Scan(s, i).Literal?
    ensures LiteralMoment(s, i).fraction == Scan(s, i).fraction && LiteralMoment(s, i).precision == Scan(s, i).precision
    ensures LiteralMoment(s, i).offset == Scan(s, i).offset && LiteralMoment(s, i).isUTC == Scan(s, i).isUTC
    ensures LiteralMoment(s, i).epoch == Scan(s, i).epoch
  {
    hide ReadFields, Scan;
  }

  lemma LiteralParts(s: string, i: nat)
    requires Scan(s, i).Literal?
    ensures FromLiteral(LiteralMoment(s, i))
  {
    hide Scan, Num, AllDigits, ReadFields, ScanZone, ScanSeconds, FractionNanos, DaysSinceEpoch, IsValidDate, Unsigned,
      PrecisionOf, HasPattern, ExactFraction, SettableZone, DigitsAt, CharAt, FromLiteral, TimeOk, LiteralMoment,
      DigitRun;
    LiteralFields(s, i);
    LiteralRest(s, i);
    ScanUnfolded(s, i);
    SecondBound(s, i + 16);
    var m, t := LiteralMoment(s, i), ScanSeconds(s, i + 16).value;
    assert IsValidDate(m.date);
    PartsTogether(m, t.fraction, s, t.end);
  }

  lemma ConsistentExactly(m: Moment)
    requires FromLiteral(m)
    ensures Consistent(m) <==> FitsInt64(InstantOfFields(m))
  {
    assert 1 <= m.date.month <= 12;
    hide DaysSinceEpoch, WallSeconds, IsValidDate, ExactFraction, SettableZone, Unsigned, Signed, TimeOk;
    WrapProduct(WallSeconds(m) - m.offset, m.fraction);
    CastsInvertExactly(InstantOfFields(m));
  }

  /** The value built from a literal is a valid civil date-time in a zone within fourteen hours. Its fields agree with
      its instant exactly when that instant fits 64-bit nanoseconds. */
  lemma LiteralConsistentExactly(s: string, i: nat)
    requires Scan(s, i).Literal?
    ensures var m := LiteralMoment(s, i);
            IsValidDate(m.date) && TimeOk(m) && (Consistent(m) <==> FitsInt64(InstantOfFields(m)))
  {
    LiteralParts(s, i);
    ConsistentExactly(LiteralMoment(s, i));
    hide Scan, LiteralMoment, DaysSinceEpoch, WallSeconds, IsValidDate, ExactFraction, SettableZone, Unsigned, Signed;
  }

  lemma Num2(a: char, b: char)
    requires IsDigit(a) && IsDigit(b)
    ensures Num([a, b]) == 10 * DigitValue(a) + DigitValue(b)
  {
    assert [a, b][..1] == [a] && [a][..0] == [];
    assert Num([]) == 0 && Num([a]) == DigitValue(a);
  }

  lemma Num4(a: char, b: char, c: char, d: char)
    requires IsDigit(a) && IsDigit(b) && IsDigit(c) && IsDigit(d)
    ensures Num([a, b, c, d]) == 100 * Num([a, b]) + Num([c, d])
  {
    assert [a, b, c, d][..3] == [a, b, c] && [a, b, c][..2] == [a, b];
    Num2(c, d);
  }

  /** The first instant of year 1 is accepted, and its 64 bits stand for another one. */
  lemma YearOneIsOutside()
    ensures var s := "0001-01-01T00:00:00Z"; Scan(s, 0).Literal? && !Consistent(LiteralMoment(s, 0))
  {
    hide Scan, LiteralMoment, Consistent, Num, AllDigits, ScanSeconds, ScanZone, HasPattern, DaysSinceEpoch,
      WallSeconds;
    var s := "0001-01-01T00:00:00Z";
    YearOneIsScanned(s);
    LiteralFields(s, 0);
    LiteralRest(s, 0);
    LiteralConsistentExactly(s, 0);
    YearOneIsEarly(LiteralMoment(s, 0));
  }

  lemma YearOneIsEarly(m: Moment)
    requires m.date == Date(1, 1, 1) && m.hour == m.minute == m.second == m.offset == 0 && m.fraction < NANOS
    ensures !FitsInt64(InstantOfFields(m))
  {
    assert DaysSinceEpoch(m.date) == -719162;
  }

  lemma YearOneIsScanned(s: string)
    requires s == "0001-01-01T00:00:00Z"
    ensures HasPattern(s, 0)
    ensures Num(s[0..4]) == 1 && Num(s[5..7]) == 1 && Num(s[8..10]) == 1 && Num(s[11..13]) == 0 && Num(s[14..16]) == 0
    ensures ScanSeconds(s, 16) == Some(Seconds(0, "", 19)) && ScanZone(s, 19) == Some(ZoneScan(0, true, 20))
    ensures Scan(s, 0).Literal? && Scan(s, 0).offset == 0
  {
    assert s[0..4] == "0001" && s[5..7] == "01" && s[8..10] == "01" && s[11..13] == "00" && s[14..16] == "00"
        && s[17..19] == "00";
    Num4('0', '0', '0', '1');
    Num2('0', '1');
    Num2('0', '0');
    hide Num;
    assert HasPattern(s, 0);
    hide AllDigits, FractionNanos, DaysSinceEpoch;
  }

  // ---------- print, then scan, then parse ----------

  /** The value printed, with the precision its text shows. */
  function Shown(m: Moment): Moment {
    if m.fraction == 0 then m.(precision := Second) else m
  }

  /** A printed date-time, whatever text follows it, is read back as the value it was. */
  lemma PrintThenRead(m: Moment, rest: string)
    requires Consistent(m) && Printable(m) && ExactFraction(m) && ScannableZone(m)
    ensures var s := Print(m) + rest;
            Scan(s, 0).Literal? && Scan(s, 0).end == |Print(m)| && LiteralMoment(s, 0) == Shown(m)
  {
    hide Scan, LiteralMoment, Print, DaysSinceEpoch, WallSeconds, IsValidDate, Num, AllDigits, ScanSeconds, HasPattern,
      Head, FractionText, ZoneText, FractionDigits, Unsigned, Signed, ExactFraction, Printable, Truncated;
    var s := Print(m) + rest;
    PrintThenScan(m, rest);
    ScanOfPrint(m, rest);
    PrintedFields(m, rest);
    LiteralFields(s, 0);
    LiteralRest(s, 0);
    PrecisionShown(m);
  }

  lemma PrintedFields(m: Moment, rest: string)
    requires Consistent(m) && Printable(m) && (m.isUTC || m.offset != 0)
    ensures var s := Print(m) + rest;
            && HasPattern(s, 0) && ScanSeconds(s, 16).Some? && ScanSeconds(s, 16).value.second == m.second
            && Num(s[0..4]) == m.date.year && Num(s[5..7]) == m.date.month && Num(s[8..10]) == m.date.day
            && Num(s[11..13]) == m.hour && Num(s[14..16]) == m.minute
  {
    hide DaysSinceEpoch, WallSeconds, IsValidDate, Num, AllDigits, ScanSeconds, HasPattern, Head, FractionText,
      ZoneText,
      FractionDigits, Unsigned, Signed;
    var s, zone := Print(m) + rest, ZoneText(m.offset, m.isUTC) + rest;
    ZoneStart(m, rest);
    assert s == Head(m) + FractionText(m.fraction, m.precision) + zone;
    SecondsFound(m, s, zone);
    HeadIsFixed(m);
    assert s[..19] == Head(m);
    HeadParts(m, s);
  }

  lemma PrecisionShown(m: Moment)
    requires 0 <= m.fraction < NANOS && ExactFraction(m)
    ensures PrecisionOf(FractionDigits(m.fraction, m.precision)) == Shown(m).precision
  {
  }

  // ---------- any literal, any operations ----------

  /** An operation keeps the precision; it keeps the fraction, or clears it where addDays clamps. */
  predicate KeepsText(m: Moment, r: Moment) {
    r.precision == m.precision && (r.fraction == m.fraction || r.fraction == 0) && (SettableZone(m) ==> SettableZone(r))
  }

  lemma SameFraction(m: Moment, r: Moment)
    requires Consistent(m) && Consistent(r) && r.epoch == m.epoch
    ensures r.fraction == m.fraction
  {
    hide DaysSinceEpoch;
    var k := (WallSeconds(m) - m.offset) - (WallSeconds(r) - r.offset);
    assert k * NANOS == r.fraction - m.fraction;
  }

  lemma NoFractionAtZero(r: Moment)
    requires Consistent(r) && r.epoch == 0
    ensures r.fraction == 0
  {
    hide DaysSinceEpoch;
    assert (r.offset - WallSeconds(r)) * NANOS == r.fraction;
  }

  lemma DaysKeepText(m: Moment, n: int)
    requires Consistent(m) && DaysInRange(m, n)
    ensures KeepsText(m, DaysAdded(m, n))
  {
    hide Recalendared, EpochPlus, DaysSinceEpoch, IsValidDate, WallSeconds;
    var moved := m.(epoch := EpochPlus(m.epoch, n * DAY_NANOS));
    DaysAddedInstant(m, n);
    DaysAddedExactly(m, n);
    EpochPlusIsExact(m.epoch, n * DAY_NANOS);
    RecalendaredIsConsistent(moved);
    assert DaysAdded(m, n) == Recalendared(moved);
    hide DaysAdded, Signed, Consistent;
    if ClampsToZero(m, n) {
      NoFractionAtZero(DaysAdded(m, n));
    }
  }

  lemma ZoneKeepsText(m: Moment, z: Zone)
    requires Consistent(m) && ZoneSet(m, z).Ok?
    ensures KeepsText(m, ZoneSet(m, z).value)
  {
    hide DateOfDay, WholeSeconds, Remainder, DaysSinceEpoch, IsValidDate, WallSeconds;
    var r := ZoneSet(m, z).value;
    var shifted := m.(isUTC := r.isUTC, offset := r.offset);
    ZoneKeepsInstant(m, z);
    RecalendaredIsConsistent(shifted);
    assert r == Recalendared(shifted);
    SameFraction(m, r);
  }

  lemma PerformKeepsText(m: Moment, op: Operation)
    requires Consistent(m) && InRange(m, op) && Perform(m, op).Ok?
    ensures KeepsText(m, Perform(m, op).value)
  {
    match op
    case AddDays(n) => DaysKeepText(m, n);
    case SetZone(z) => ZoneKeepsText(m, z);
    case _ => hide DaysSinceEpoch, IsValidDate, MonthsOn, YearsOn;
  }

  lemma {:induction false} SequenceKeepsText(m: Moment, ops: seq<Operation>)
    requires Consistent(m) && SettableZone(m) && ExactFraction(m) && PerformAll(m, ops).Some?
    ensures var r := PerformAll(m, ops).value; Consistent(r) && SettableZone(r) && ExactFraction(r)
    decreases |ops|
  {
    hide Perform, Consistent, InRange, SettableZone;
    if ops != [] {
      PerformKeeps(m, ops[0]);
      PerformKeepsText(m, ops[0]);
      SequenceKeepsText(Perform(m, ops[0]).value, ops[1..]);
    }
  }

  /** The text of a date-time that began as a literal and went through any operations is read back as that very
      date-time exactly when its zone is UTC, marked as such, or a shift of at most fourteen hours that is not zero. */
  lemma AnySequenceReadsBack(s: string, i: nat, ops: seq<Operation>)
    requires Scan(s, i).Literal? && Consistent(LiteralMoment(s, i)) && PerformAll(LiteralMoment(s, i), ops).Some?
    ensures var r := PerformAll(LiteralMoment(s, i), ops).value;
            && Consistent(r) && Printable(r)
            && (Scan(Print(r), 0).Literal? && LiteralMoment(Print(r), 0) == Shown(r)
                <==> r.isUTC || (r.offset != 0 && Abs(r.offset) <= 14 * 3600))
  {
    LiteralParts(s, i);
    SequenceKeepsText(LiteralMoment(s, i), ops);
    var r := PerformAll(LiteralMoment(s, i), ops).value;
    YearsFit(r);
    RoundTripExactly(r);
    if ScannableZone(r) {
      PrintThenRead(r, []);
      assert Print(r) + [] == Print(r);
    } else if Scan(Print(r), 0).Literal? {
      LiteralRest(Print(r), 0);
    }
  }
}
