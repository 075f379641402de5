/** The date-time object, updated field by field, and the lexer's cursor over a timestamp. */
module DateTimeObjects {
  import opened Wrappers
  import opened Calendar
  import opened DateTime
  import opened DateTimeText
  import opened Decimal
  import opened Zones

  class DateTimeValue {
    var literalText: string
    var year: int
    var month: int
    var day: int
    var hour: int
    var minute: int
    var second: int
    var fractionalNanoseconds: int
    var precision: Precision
    var tzOffsetSeconds: int
    var isUTC: bool
    var epochNanoseconds: int

    constructor (m: Moment, text: string)
      ensures View() == m && literalText == text
    {
      literalText := text;
      year, month, day := m.date.year, m.date.month, m.date.day;
      hour, minute, second, fractionalNanoseconds := m.hour, m.minute, m.second, m.fraction;
      precision, tzOffsetSeconds, isUTC, epochNanoseconds := m.precision, m.offset, m.isUTC, m.epoch;
    }

    function View(): Moment
      reads this
    {
      Moment(Date(year, month, day), hour, minute, second, fractionalNanoseconds, precision, tzOffsetSeconds, isUTC,
             epochNanoseconds)
    }

    method RecomputeCalendarFields()
      modifies this
      ensures View() == Recalendared(old(View())) && literalText == old(literalText)
      ensures 0 <= fractionalNanoseconds < NANOS
    {
      var adjusted := Signed(epochNanoseconds) + tzOffsetSeconds * NANOS;
      var totalSeconds := TruncDiv(adjusted, NANOS);
      var fraction := adjusted - totalSeconds * NANOS;
      if fraction < 0 {
        totalSeconds := totalSeconds - 1;
        fraction := fraction + NANOS;
      }
      var date, t := DateOfDay(totalSeconds / 86400), totalSeconds % 86400;
      year, month, day := date.year, date.month, date.day;
      hour, minute, second := t / 3600, t % 3600 / 60, t % 60;
      fractionalNanoseconds := fraction;
    }

    method RecomputeEpochFromFields() returns (ok: bool)
      requires 1 <= month <= 12
      modifies this`epochNanoseconds
      ensures ok <==> WithEpoch(old(View())).Ok?
      ensures View() == if ok then WithEpoch(old(View())).value else old(View())
    {
      var tt := DaysSinceEpoch(Date(year, month, day)) * 86400 + hour * 3600 + minute * 60 + second;
      if tt == -1 { return false; }
      var nanos := (tt - tzOffsetSeconds) * NANOS;
      epochNanoseconds := Unsigned(Unsigned(nanos) + fractionalNanoseconds);
      ok := true;
    }

    method FractionPart() returns (text: string)
      requires 0 <= fractionalNanoseconds
      ensures text == FractionText(fractionalNanoseconds, precision)
    {
      text := "";
      if fractionalNanoseconds > 0 {
        var micros := fractionalNanoseconds / 1000;
        var millis := micros / 1000;
        assert millis == fractionalNanoseconds / 1_000_000;
        match precision {
          case Millisecond => text := "." + Digits(millis, 3);
          case Microsecond => text := "." + Digits(micros, 6);
          case Nanosecond => text := "." + Digits(fractionalNanoseconds, 9);
          case Second =>
        }
      }
    }

    method ZonePart() returns (text: string)
      ensures text == ZoneText(tzOffsetSeconds, isUTC)
    {
      text := "";
      if isUTC {
        text := "Z";
      } else if tzOffsetSeconds != 0 {
        var offsetSec := if tzOffsetSeconds >= 0 then tzOffsetSeconds else -tzOffsetSeconds;
        var sign := if tzOffsetSeconds >= 0 then '+' else '-';
        text := [sign] + Padded(offsetSec / 3600, 2) + ":" + Padded(offsetSec % 3600 / 60, 2);
      }
    }

    method UpdateLiteralText()
      requires 0 <= fractionalNanoseconds < NANOS
      modifies this`literalText
      ensures literalText == Print(View())
    {
      hide Padded, FractionText, ZoneText;
      var head := Padded(year, 4) + "-" + Padded(month, 2) + "-" + Padded(day, 2) + "T"
                  + Padded(hour, 2) + ":" + Padded(minute, 2) + ":" + Padded(second, 2);
      var fraction := FractionPart();
      var zone := ZonePart();
      literalText := head + fraction + zone;
    }

    method AddDays(days: int) returns (r: DateTimeValue)
      ensures fresh(r) && r.View() == DaysAdded(View(), days)
      ensures 0 <= r.fractionalNanoseconds < NANOS && r.literalText == Print(r.View())
    {
      hide Print, Recalendared;
      r := new DateTimeValue(View(), literalText);
      var nanosToAdd := days * DAY_NANOS;
      if nanosToAdd >= 0 {
        r.epochNanoseconds := Unsigned(r.epochNanoseconds + nanosToAdd);
      } else if r.epochNanoseconds >= -nanosToAdd {
        r.epochNanoseconds := r.epochNanoseconds - -nanosToAdd;
      } else {
        r.epochNanoseconds := 0;
      }
      r.RecomputeCalendarFields();
      r.UpdateLiteralText();
    }

    /** Carries the month number into range twelve at a time, then steps the day down until the date is valid. */
    method AddMonths(months: int) returns (r: Result<DateTimeValue>)
      requires IsValidDate(View().date) && 0 <= fractionalNanoseconds < NANOS
      ensures r.Ok? <==> MonthsAdded(View(), months).Ok?
      ensures r.Ok? ==> fresh(r.value) && r.value.View() == MonthsAdded(View(), months).value
      ensures r.Ok? ==> r.value.literalText == Print(r.value.View())
    {
      hide Print, DaysSinceEpoch, WithEpoch;
      var d := new DateTimeValue(View(), literalText);
      var totalMonths, yearAdjust := d.month + months, 0;
      while totalMonths > 12
        invariant 12 * yearAdjust + totalMonths == month + months && (yearAdjust > 0 ==> totalMonths >= 1)
      {
        totalMonths := totalMonths - 12;
        yearAdjust := yearAdjust + 1;
      }
      while totalMonths < 1
        invariant 12 * yearAdjust + totalMonths == month + months && totalMonths <= 12
      {
        totalMonths := totalMonths + 12;
        yearAdjust := yearAdjust - 1;
      }
      assert (month + months - 1) / 12 == yearAdjust && (month + months - 1) % 12 + 1 == totalMonths;
      d.year, d.month := d.year + yearAdjust, totalMonths;
      ghost var target := MonthsOn(View().date, months);
      SameRules(target);
      SameRules(View().date);
      while !IsValidDate(Date(d.year, d.month, d.day))
        invariant d.year == target.year && d.month == target.month && target.day <= d.day
        invariant d.day <= day
        invariant d.View() == View().(date := Date(d.year, d.month, d.day))
        decreases d.day
      {
        SameRules(Date(d.year, d.month, d.day));
        d.day := d.day - 1;
      }
      SameRules(Date(d.year, d.month, d.day));
      assert Date(d.year, d.month, d.day) == target;
      var ok := d.RecomputeEpochFromFields();
      if !ok { return Err("Invalid date/time fields"); }
      d.UpdateLiteralText();
      r := Ok(d);
    }

    method AddYears(years: int) returns (r: Result<DateTimeValue>)
      requires 1 <= month <= 12 && 0 <= fractionalNanoseconds < NANOS
      ensures r.Ok? <==> YearsAdded(View(), years).Ok?
      ensures r.Ok? ==> fresh(r.value) && r.value.View() == YearsAdded(View(), years).value
      ensures r.Ok? ==> r.value.literalText == Print(r.value.View())
    {
      var d := new DateTimeValue(View(), literalText);
      d.year := d.year + years;
      if d.month == 2 && d.day == 29 {
        if !IsLeap(d.year) {
          d.day := 28;
        }
      }
      var ok := d.RecomputeEpochFromFields();
      if !ok { return Err("Invalid date/time fields"); }
      d.UpdateLiteralText();
      r := Ok(d);
    }

    method SetZone(zone: string) returns (r: Result<DateTimeValue>)
      ensures r.Ok? <==> ZoneSetTo(View(), zone).Ok?
      ensures r.Ok? ==> fresh(r.value) && r.value.View() == ZoneSetTo(View(), zone).value
      ensures r.Ok? ==> 0 <= r.value.fractionalNanoseconds < NANOS && r.value.literalText == Print(r.value.View())
    {
      hide Print, Recalendared, Stoi, WithoutColon;
      var d := new DateTimeValue(View(), literalText);
      if zone == "UTC" || zone == "Z" {
        d.isUTC, d.tzOffsetSeconds := true, 0;
      } else if |zone| >= 3 && (zone[0] == '+' || zone[0] == '-') {
        var offsetText := WithoutColon(zone[1..]);
        var hours, minutes := Ok(0), Ok(0);
        if |offsetText| >= 2 {
          hours := Stoi(offsetText[..2]);
          if hours.Err? { return Err(hours.message); }
        }
        if |offsetText| >= 4 {
          minutes := Stoi(offsetText[2..4]);
          if minutes.Err? { return Err(minutes.message); }
        }
        if hours.value < 0 || hours.value > 23 || minutes.value < 0 || minutes.value > 59 {
          return Err("Invalid timezone offset");
        }
        d.tzOffsetSeconds := hours.value * 3600 + minutes.value * 60;
        if zone[0] == '-' {
          d.tzOffsetSeconds := -d.tzOffsetSeconds;
        }
        d.isUTC := d.tzOffsetSeconds == 0;
      } else {
        return Err("Invalid timezone format");
      }
      d.RecomputeCalendarFields();
      d.UpdateLiteralText();
      r := Ok(d);
    }
  }

  /** The lexer's cursor, as far as timestamps use it. */
  class Scanner {
    const src: string
    var i: nat

    constructor (src: string)
      ensures this.src == src && i == 0
    {
      this.src := src;
      i := 0;
    }

    /** Reads exactly count digits, or fails. */
    method ScanDigits(count: nat) returns (value: Option<nat>)
      requires i <= |src|
      modifies this`i
      ensures value.Some? <==> DigitsAt(src, old(i), count)
      ensures value.Some? ==> i == old(i) + count && value.value == Num(src[old(i)..i])
    {
      var n, j := 0, 0;
      while j < count
        invariant j <= count && i == old(i) + j && DigitsAt(src, old(i), j) && n == Num(src[old(i)..i])
      {
        if i >= |src| || !IsDigit(src[i]) {
          return None;
        }
        n := n * 10 + DigitValue(src[i]);
        assert src[old(i)..i + 1] == src[old(i)..i] + [src[i]];
        i := i + 1;
        j := j + 1;
      }
      value := Some(n);
    }

    method ScanFractionDigits() returns (fraction: string)
      requires i <= |src|
      modifies this`i
      ensures i == old(i) + DigitRun(src, old(i)) && fraction == src[old(i)..i]
    {
      fraction := [];
      while i < |src| && IsDigit(src[i])
        invariant old(i) <= i <= |src| && fraction == src[old(i)..i]
        invariant DigitRun(src, old(i)) == i - old(i) + DigitRun(src, i)
      {
        fraction := fraction + [src[i]];
        i := i + 1;
      }
    }

    method ScanOptionalSeconds() returns (r: Option<(nat, string)>)
      requires i <= |src|
      modifies this`i
      ensures r.Some? <==> ScanSeconds(src, old(i)).Some?
      ensures r.Some? ==> var t := ScanSeconds(src, old(i)).value; r.value == (t.second, t.fraction) && i == t.end
    {
      if i >= |src| || src[i] != ':' { return Some((0, "")); }
      i := i + 1;
      var second := ScanDigits(2);
      if second.None? || second.value > 59 { return None; }
      if i >= |src| || src[i] != '.' { return Some((second.value, "")); }
      i := i + 1;
      if i >= |src| || !IsDigit(src[i]) { return None; }
      var fraction := ScanFractionDigits();
      r := Some((second.value, fraction));
    }

    method ScanTimezone() returns (r: Option<(int, bool)>)
      requires i <= |src|
      modifies this`i
      ensures r.Some? <==> ScanZone(src, old(i)).Some?
      ensures r.Some? ==> var z := ScanZone(src, old(i)).value; r.value == (z.offset, z.isUTC) && i == z.end
    {
      if i >= |src| { return None; }
      var tz := src[i];
      if tz == 'Z' {
        i := i + 1;
        return Some((0, true));
      }
      if tz != '+' && tz != '-' { return None; }
      i := i + 1;
      var hours := ScanDigits(2);
      if hours.None? { return None; }
      var minutes := Some(0);
      if i < |src| && src[i] == ':' {
        i := i + 1;
        minutes := ScanDigits(2);
      } else if i < |src| && IsDigit(src[i]) {
        minutes := ScanDigits(2);
      }
      if minutes.None? { return None; }
      if hours.value > 14 || (hours.value == 14 && minutes.value > 0) || minutes.value > 59 { return None; }
      var seconds: int := hours.value * 3600 + minutes.value * 60;
      r := Some((if tz == '+' then seconds else -seconds, false));
    }

    /** try_scan_datetime: leaves the cursor alone when there is no timestamp, and after it when there is one. */
    method TryScanDatetime() returns (r: Scanned)
      requires i <= |src|
      modifies this`i
      ensures r == Scan(src, old(i))
      ensures r == NotDatetime ==> i == old(i)
      ensures r.Literal? ==> i == r.end
    {
      hide Num, DaysSinceEpoch, ScanSeconds, ScanZone, FractionNanos, Unsigned;
      if !HasPattern(src, i) { return NotDatetime; }
      ghost var start := i;
      var year := ScanDigits(4);
      i := i + 1;
      var month := ScanDigits(2);
      i := i + 1;
      var day := ScanDigits(2);
      i := i + 1;
      var hour := ScanDigits(2);
      i := i + 1;
      var minute := ScanDigits(2);
      assert i == start + 16;
      var date := Date(year.value, month.value, day.value);
      if !LexerAccepts(date) || hour.value > 23 || minute.value > 59 { return Malformed; }
      var t := ScanOptionalSeconds();
      if t.None? { return Malformed; }
      var z := ScanTimezone();
      if z.None? { return Malformed; }
      var total := DaysSinceEpoch(date) * 86400 + hour.value * 3600 + minute.value * 60 + t.value.0 - z.value.0;
      var nanos := FractionNanos(t.value.1);
      r := Literal(Unsigned(Unsigned(total) * NANOS + nanos), nanos, PrecisionOf(t.value.1), z.value.0, z.value.1, i);
    }
  }
}
