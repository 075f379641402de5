/** The text of a time zone as setZone reads it. */
module Zones {
  import opened Wrappers
  import opened Calendar
  import opened DateTime
  import opened DateTimeText
  import opened DateTimeLiterals
  import opened Decimal

  predicate IsSpace(c: char) {
    c == ' ' || '\t' <= c <= '\r'
  }

  /** std::stoi: white space, a sign, digits, and whatever follows ignored; no digits is an error. */
  function Stoi(t: string): Result<int> {
    if t != [] && IsSpace(t[0]) then Stoi(t[1..])
    else
      var signed := t != [] && (t[0] == '+' || t[0] == '-');
      var d := if signed then t[1..] else t;
      var n := DigitRun(d, 0);
      var v: int := Num(d[0..n]);
      if n == 0 then Err("stoi") else Ok(if signed && t[0] == '-' then -v else v)
  }

  function WithoutColon(t: string): string {
    if t == [] then []
    else if t[0] == ':' then t[1..]
    else [t[0]] + WithoutColon(t[1..])
  }

  /** UTC, Z, or a sign with up to four digits and a colon anywhere among them. */
  function ReadZone(text: string): Result<Zone> {
    if text == "UTC" || text == "Z" then Ok(UTC)
    else if |text| >= 3 && (text[0] == '+' || text[0] == '-') then
      var t := WithoutColon(text[1..]);
      var hours := if |t| >= 2 then Stoi(t[..2]) else Ok(0);
      var minutes := if |t| >= 4 then Stoi(t[2..4]) else Ok(0);
      if hours.Err? then Err(hours.message)
      else if minutes.Err? then Err(minutes.message)
      else Ok(Shift(text[0] == '+', hours.value, minutes.value))
    else Err("Invalid timezone format")
  }

  function ZoneSetTo(m: Moment, text: string): Result<Moment> {
    if ReadZone(text).Err? then Err(ReadZone(text).message) else ZoneSet(m, ReadZone(text).value)
  }

  // ---------- what it reads ----------

  lemma StoiOfDigits(n: nat)
    requires n < 100
    ensures Stoi(Digits(n, 2)) == Ok(n)
  {
    var d := Digits(n, 2);
    SmallNum(n, 2);
    assert IsDigit(d[0]);
    assert d[0..] == d && d[0..2] == d && d == d + [];
    RunFound(d, 0, d, []);
    hide Digits, Num, AllDigits;
  }

  /** The first colon goes, and nothing else does. */
  lemma {:induction false} FirstColonGone(a: string, b: string)
    requires ':' !in a
    ensures WithoutColon(a) == a && WithoutColon(a + ":" + b) == a + b
  {
    if a == [] {
      assert [] + ":" + b == ":" + b && (":" + b)[1..] == b;
    } else {
      FirstColonGone(a[1..], b);
      var t := a + ":" + b;
      assert t[0] == a[0] && t[1..] == a[1..] + ":" + b;
      assert a[0] in a;
      hide WithoutColon;
      assert [a[0]] + (a[1..] + b) == a + b && [a[0]] + a[1..] == a;
      OneCharOn(a);
      OneCharOn(t);
    }
  }

  lemma OneCharOn(t: string)
    requires t != [] && t[0] != ':'
    ensures WithoutColon(t) == [t[0]] + WithoutColon(t[1..])
  {
  }

  /** The three forms of a shift: +HH:MM, +HHMM and +HH. */
  lemma ReadsForms(positive: bool, h: nat, mi: nat)
    requires h < 100 && mi < 100
    ensures var sign := [if positive then '+' else '-'];
            && ReadZone(sign + Digits(h, 2) + ":" + Digits(mi, 2)) == Ok(Shift(positive, h, mi))
            && ReadZone(sign + Digits(h, 2) + Digits(mi, 2)) == Ok(Shift(positive, h, mi))
            && ReadZone(sign + Digits(h, 2)) == Ok(Shift(positive, h, 0))
  {
    StoiOfDigits(h);
    StoiOfDigits(mi);
    var a, b := Digits(h, 2), Digits(mi, 2);
    assert ':' !in a && ':' !in a + b;
    FirstColonGone(a, b);
    FirstColonGone(a + b, []);
    hide Digits, AllDigits, WithoutColon, Stoi, ReadZone;
    assert [if positive then '+' else '-'] + a + ":" + b == [if positive then '+' else '-'] + (a + ":" + b);
    assert [if positive then '+' else '-'] + a + b == [if positive then '+' else '-'] + (a + b);
    ShiftRead(positive, a + ":" + b, a, b, h, mi);
    ShiftRead(positive, a + b, a, b, h, mi);
    HoursRead(positive, a, h);
  }

  lemma ShiftRead(positive: bool, t: string, a: string, b: string, h: nat, mi: nat)
    requires |t| >= 2 && |a| == |b| == 2 && WithoutColon(t) == a + b && Stoi(a) == Ok(h) && Stoi(b) == Ok(mi)
    ensures ReadZone([if positive then '+' else '-'] + t) == Ok(Shift(positive, h, mi))
  {
    hide Stoi, WithoutColon;
    var text := [if positive then '+' else '-'] + t;
    assert text[1..] == t && text[0] == (if positive then '+' else '-');
    assert (a + b)[..2] == a && (a + b)[2..4] == b;
  }

  lemma HoursRead(positive: bool, a: string, h: nat)
    requires |a| == 2 && WithoutColon(a) == a && Stoi(a) == Ok(h)
    ensures ReadZone([if positive then '+' else '-'] + a) == Ok(Shift(positive, h, 0))
  {
    hide Stoi, WithoutColon;
    var text := [if positive then '+' else '-'] + a;
    assert text[1..] == a && text[0] == (if positive then '+' else '-') && a[..2] == a;
  }

  // ---------- what it does ----------

  /** What two characters are worth as a number, if anything. */
  function Pair(a: char, b: char): Option<int> {
    if IsDigit(a) && IsDigit(b) then Some(10 * DigitValue(a) + DigitValue(b))
    else if IsDigit(a) then Some(DigitValue(a))
    else if IsDigit(b) && (IsSpace(a) || a == '+') then Some(DigitValue(b))
    else if IsDigit(b) && a == '-' then (var d: int := DigitValue(b); Some(-d))
    else None
  }

  lemma NoDigits(d: string)
    ensures d == [] || !IsDigit(d[0]) ==> DigitRun(d, 0) == 0
  {
  }

  lemma LeadingDigit(d: string)
    requires 1 <= |d| <= 2 && IsDigit(d[0])
    ensures var n := DigitRun(d, 0);
            n > 0 && Num(d[0..n]) == if |d| == 2 && IsDigit(d[1]) then 10 * DigitValue(d[0]) + DigitValue(d[1])
                                     else DigitValue(d[0])
  {
    Num1(d[0]);
    var k := if |d| == 2 && IsDigit(d[1]) then 2 else 1;
    if k == 2 {
      Num2(d[0], d[1]);
    }
    assert d[0..1] == [d[0]] && (k == 2 ==> d[0..2] == [d[0], d[1]]);
    assert d[0..] == d[0..k] + d[k..];
    hide Num;
    RunFound(d, 0, d[0..k], d[k..]);
  }

  lemma Num1(a: char)
    requires IsDigit(a)
    ensures Num([a]) == DigitValue(a)
  {
    assert [a][..0] == [] && Num([]) == 0;
  }

  lemma StoiOfOne(a: char)
    ensures Stoi([a]) == if IsDigit(a) then Ok(DigitValue(a)) else Err("stoi")
  {
    assert [a][1..] == [];
    NoDigits([]);
    assert Stoi([]) == Err("stoi");
    if IsDigit(a) {
      LeadingDigit([a]);
    } else {
      NoDigits([a]);
    }
  }

  lemma StoiOfPair(t: string)
    requires |t| == 2
    ensures Stoi(t) == if Pair(t[0], t[1]).Some? then Ok(Pair(t[0], t[1]).value) else Err("stoi")
  {
    assert t == [t[0], t[1]] && t[1..] == [t[1]];
    StoiOfOne(t[1]);
    if IsDigit(t[0]) {
      LeadingDigit(t);
    } else if t[0] == '+' || t[0] == '-' {
      if IsDigit(t[1]) {
        LeadingDigit(t[1..]);
      } else {
        NoDigits(t[1..]);
      }
    } else {
      NoDigits(t);
    }
  }

  /** The number that stands at k of a shift without its colon; a text that ends before it stands for zero. */
  function Part(t: string, k: nat): Option<int> {
    if k + 2 <= |t| then Pair(t[k], t[k + 1]) else Some(0)
  }

  /** The texts that name a zone: UTC, Z, and a sign with hours below 24 and minutes below 60. */
  predicate Names(text: string) {
    || text == "UTC" || text == "Z"
    || (|text| >= 3 && (text[0] == '+' || text[0] == '-')
        && var t := WithoutColon(text[1..]);
           var h, mi := Part(t, 0), Part(t, 2);
           h.Some? && mi.Some? && 0 <= h.value < 24 && 0 <= mi.value < 60)
  }

  function NamedOffset(text: string): int
    requires Names(text)
  {
    if text == "UTC" || text == "Z" then 0
    else
      var t := WithoutColon(text[1..]);
      var seconds := Part(t, 0).value * 3600 + Part(t, 2).value * 60;
      if text[0] == '+' then seconds else -seconds
  }

  lemma ReadsExactly(text: string)
    ensures ReadZone("UTC") == ReadZone("Z") == Ok(UTC)
    ensures Names(text) <==> ReadZone(text).Ok? && (ReadZone(text).value.Shift? ==>
              0 <= ReadZone(text).value.hours <= 23 && 0 <= ReadZone(text).value.minutes <= 59)
    ensures Names(text) ==> var z := ReadZone(text).value;
              NamedOffset(text) == if z.UTC? then 0
                                   else if z.positive then z.hours * 3600 + z.minutes * 60
                                   else -(z.hours * 3600 + z.minutes * 60)
  {
    if |text| >= 3 && (text[0] == '+' || text[0] == '-') {
      var t := WithoutColon(text[1..]);
      hide Stoi, WithoutColon, Pair;
      if |t| >= 2 { StoiOfPair(t[..2]); }
      if |t| >= 4 { StoiOfPair(t[2..4]); }
    }
  }

  /** setZone succeeds exactly on the texts that name a zone; it keeps the instant and takes the offset named. */
  lemma SetZoneKeepsInstant(m: Moment, text: string)
    requires Consistent(m)
    ensures ZoneSetTo(m, text).Ok? <==> Names(text)
    ensures Names(text) ==>
              var r := ZoneSetTo(m, text).value;
              Consistent(r) && r.epoch == m.epoch && r.offset == NamedOffset(text) && SettableZone(r)
              && (r.isUTC <==> r.offset == 0)
  {
    ReadsExactly(text);
    hide ReadZone, ZoneSet, Consistent, Names, NamedOffset;
    if ReadZone(text).Ok? {
      ZoneKeepsInstant(m, ReadZone(text).value);
      if ZoneSet(m, ReadZone(text).value).Ok? {
        ZoneSetShape(m, ReadZone(text).value);
      }
    }
  }

  lemma ZoneSetShape(m: Moment, z: Zone)
    requires ZoneSet(m, z).Ok?
    ensures var r := ZoneSet(m, z).value; SettableZone(r) && (r.isUTC <==> r.offset == 0)
  {
    hide DateOfDay, WholeSeconds, Remainder;
  }

  /** The fields of a date-time are the only ones that agree with its instant and offset. */
  lemma RecalendaredChangesNothing(m: Moment)
    requires Consistent(m)
    ensures Recalendared(m) == m
  {
    RecalendaredIsConsistent(m);
    var r := Recalendared(m);
    SplitUnique(m, r, 0);
    DateOfItsDay(m.date);
    DateOfItsDay(r.date);
    assert r == m.(date := r.date, hour := r.hour, minute := r.minute, second := r.second, fraction := r.fraction);
    hide Recalendared, DaysSinceEpoch, DateOfDay, IsValidDate, Signed;
  }

  /** Setting the zone that is printed changes nothing, exactly when a zone is printed at all. */
  lemma OwnZoneExactly(m: Moment)
    requires Consistent(m) && SettableZone(m)
    ensures ZoneSetTo(m, ZoneText(m.offset, m.isUTC)) == Ok(m) <==> m.isUTC || m.offset != 0
  {
    RecalendaredChangesNothing(m);
    hide Recalendared, Consistent;
    if m.isUTC {
      assert m.offset == 0 && m.(isUTC := true, offset := 0) == m by { UTCIsZero(m); }
    } else if m.offset != 0 {
      OwnZoneRead(m.offset);
      hide ReadZone, ZoneText;
      assert m.(isUTC := false, offset := m.offset) == m;
    }
  }

  lemma UTCIsZero(m: Moment)
    requires Consistent(m) && m.isUTC
    ensures m.offset == 0
  {
    hide DaysSinceEpoch;
  }

  lemma OwnZoneRead(offset: int)
    requires offset != 0 && offset % 60 == 0 && -86400 < offset < 86400
    ensures var z := ReadZone(ZoneText(offset, false));
            && z.Ok? && z.value.Shift? && z.value.positive == (offset > 0)
            && 0 <= z.value.hours <= 23 && 0 <= z.value.minutes <= 59
            && z.value.hours * 3600 + z.value.minutes * 60 == Abs(offset)
  {
    var h, mi := Abs(offset) / 3600, Abs(offset) % 3600 / 60;
    assert h <= 23 && mi <= 59 && h * 3600 + mi * 60 == Abs(offset);
    ZoneIsFixed(offset);
    ReadsForms(offset > 0, h, mi);
    hide ReadZone, Digits, ZoneText;
  }
}
