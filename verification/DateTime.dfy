/** Date-times: an instant in nanoseconds, a zone offset, and calendar fields that must agree with both. */
module DateTime {
  import opened Wrappers
  import opened Calendar

  datatype Precision = Second | Millisecond | Microsecond | Nanosecond

  /** The fields of a DateTimeValue. The epoch is an unsigned 64-bit number read back as a signed one. */
  datatype Moment = Moment(
    date: Date, hour: int, minute: int, second: int, fraction: int,
    precision: Precision, offset: int, isUTC: bool, epoch: int)

  const NANOS := 1_000_000_000
  const DAY_NANOS := 86_400_000_000_000
  const TWO_63 := 0x8000_0000_0000_0000
  const TWO_64 := 0x1_0000_0000_0000_0000

  /** static_cast to uint64_t and back to int64_t. */
  function Unsigned(x: int): int {
    x % TWO_64
  }

  function Signed(u: int): int {
    if u < TWO_63 then u else u - TWO_64
  }

  predicate FitsInt64(x: int) {
    -TWO_63 <= x < TWO_63
  }

  lemma CastsInvert(x: int)
    requires FitsInt64(x)
    ensures Signed(Unsigned(x)) == x && 0 <= Unsigned(x) < TWO_64
  {
  }

  lemma CastsInvertExactly(x: int)
    ensures 0 <= Unsigned(x) < TWO_64 && (Signed(Unsigned(x)) == x <==> FitsInt64(x))
  {
  }

  lemma CastsAdd(a: int, b: int)
    ensures Unsigned(Unsigned(a) + b) == Unsigned(a + b)
  {
    assert a == (a / TWO_64) * TWO_64 + Unsigned(a);
    WrapAgain(Unsigned(a) + b, a / TWO_64);
  }

  lemma WrapAgain(x: int, k: int)
    ensures Unsigned(x + k * TWO_64) == Unsigned(x)
  {
    var q := x / TWO_64;
    assert x + k * TWO_64 == (q + k) * TWO_64 + Unsigned(x);
  }

  function WallSeconds(m: Moment): int
    requires 1 <= m.date.month <= 12
  {
    DaysSinceEpoch(m.date) * 86400 + m.hour * 3600 + m.minute * 60 + m.second
  }

  predicate TimeOk(m: Moment) {
    0 <= m.hour < 24 && 0 <= m.minute < 60 && 0 <= m.second < 60 && 0 <= m.fraction < NANOS
  }

  /** The calendar fields are the civil date-time of epoch plus offset. */
  predicate Consistent(m: Moment) {
    && IsValidDate(m.date) && TimeOk(m) && 0 <= m.epoch < TWO_64
    && WallSeconds(m) * NANOS + m.fraction == Signed(m.epoch) + m.offset * NANOS
    && (m.isUTC ==> m.offset == 0)
  }

  /** Whole seconds of an instant: C++'s quotient, put right when the remainder is negative. */
  function WholeSeconds(nanos: int): int {
    var q := TruncDiv(nanos, NANOS);
    if nanos - q * NANOS < 0 then q - 1 else q
  }

  function Remainder(nanos: int): int {
    var r := nanos - TruncDiv(nanos, NANOS) * NANOS;
    if r < 0 then r + NANOS else r
  }

  lemma FloorSplit(x: int)
    ensures WholeSeconds(x) * NANOS + Remainder(x) == x && 0 <= Remainder(x) < NANOS
  {
  }

  /** The calendar fields gmtime gives for a number of seconds. */
  function WithWall(m: Moment, seconds: int, fraction: int): Moment {
    var t := seconds % 86400;
    m.(date := DateOfDay(seconds / 86400), hour := t / 3600, minute := t % 3600 / 60, second := t % 60,
       fraction := fraction)
  }

  lemma WithWallSeconds(m: Moment, seconds: int, fraction: int)
    requires 0 <= fraction < NANOS
    ensures var r := WithWall(m, seconds, fraction);
            IsValidDate(r.date) && TimeOk(r) && WallSeconds(r) == seconds
  {
    DayOfDate(seconds / 86400);
    TimeOfDay(seconds % 86400);
    hide DateOfDay, DaysSinceEpoch, IsValidDate;
  }

  lemma TimeOfDay(t: int)
    requires 0 <= t < 86400
    ensures (t / 3600) * 3600 + (t % 3600 / 60) * 60 + t % 60 == t
    ensures 0 <= t / 3600 < 24 && 0 <= t % 3600 / 60 < 60 && 0 <= t % 60 < 60
  {
    assert t % 3600 % 60 == t % 60;
  }

  /** recompute_calendar_fields. */
  function Recalendared(m: Moment): Moment {
    var adjusted := Signed(m.epoch) + m.offset * NANOS;
    WithWall(m, WholeSeconds(adjusted), Remainder(adjusted))
  }

  lemma RecalendaredIsConsistent(m: Moment)
    requires 0 <= m.epoch < TWO_64 && (m.isUTC ==> m.offset == 0)
    ensures Consistent(Recalendared(m))
    ensures Recalendared(m).epoch == m.epoch && Recalendared(m).offset == m.offset
    ensures Recalendared(m).isUTC == m.isUTC && Recalendared(m).precision == m.precision
  {
    var adjusted := Signed(m.epoch) + m.offset * NANOS;
    FloorSplit(adjusted);
    WithWallSeconds(m, WholeSeconds(adjusted), Remainder(adjusted));
    hide TruncDiv, DateOfDay, DaysSinceEpoch, WholeSeconds, Remainder, WallSeconds, TimeOk, IsValidDate;
  }

  /** recompute_epoch_from_fields: timegm's -1 counts as failure, even where it is the answer. */
  function WithEpoch(m: Moment): Result<Moment>
    requires 1 <= m.date.month <= 12
  {
    var tt := WallSeconds(m);
    if tt == -1 then Err("Invalid date/time fields")
    else Ok(m.(epoch := Unsigned(Unsigned((tt - m.offset) * NANOS) + m.fraction)))
  }

  function InstantOfFields(m: Moment): int
    requires 1 <= m.date.month <= 12
  {
    (WallSeconds(m) - m.offset) * NANOS + m.fraction
  }

  lemma WithEpochIsConsistent(m: Moment)
    requires IsValidDate(m.date) && TimeOk(m) && (m.isUTC ==> m.offset == 0)
    requires WallSeconds(m) != -1 && FitsInt64(InstantOfFields(m))
    ensures Consistent(WithEpoch(m).value) && Signed(WithEpoch(m).value.epoch) == InstantOfFields(m)
  {
    CastsInvert(InstantOfFields(m));
    hide DaysSinceEpoch, WallSeconds, IsValidDate;
    CastsAdd((WallSeconds(m) - m.offset) * NANOS, m.fraction);
  }

  // ---------- the operations ----------

  /** Adds to an unsigned epoch; going back further than it reaches stops at zero. */
  function EpochPlus(epoch: int, nanos: int): int {
    if nanos >= 0 then Unsigned(epoch + nanos) else if epoch >= -nanos then epoch + nanos else 0
  }

  function DaysAdded(m: Moment, days: int): Moment {
    Recalendared(m.(epoch := EpochPlus(m.epoch, days * DAY_NANOS)))
  }

  /** The date that many months on, with the day stepped down into the month. */
  function MonthsOn(d: Date, months: int): Date {
    var total := d.month + months - 1;
    var y, month := d.year + total / 12, total % 12 + 1;
    Date(y, month, if d.day <= MaxDay(y, month) then d.day else MaxDay(y, month))
  }

  function MonthsAdded(m: Moment, months: int): Result<Moment> {
    WithEpoch(m.(date := MonthsOn(m.date, months)))
  }

  /** The date that many years on; a February 29 without a leap year becomes the 28th. */
  function YearsOn(d: Date, years: int): Date {
    var y := d.year + years;
    Date(y, d.month, if d.month == 2 && d.day == 29 && !IsLeap(y) then 28 else d.day)
  }

  function YearsAdded(m: Moment, years: int): Result<Moment>
    requires 1 <= m.date.month <= 12
  {
    WithEpoch(m.(date := YearsOn(m.date, years)))
  }

  /** A zone string after its text has been read: UTC, or a sign with hours and minutes. */
  datatype Zone = UTC | Shift(positive: bool, hours: int, minutes: int)

  function ZoneSet(m: Moment, z: Zone): Result<Moment> {
    if z.UTC? then Ok(Recalendared(m.(isUTC := true, offset := 0)))
    else if z.hours < 0 || z.hours > 23 || z.minutes < 0 || z.minutes > 59 then Err("Invalid timezone offset")
    else
      var seconds := z.hours * 3600 + z.minutes * 60;
      var offset := if z.positive then seconds else -seconds;
      Ok(Recalendared(m.(isUTC := offset == 0, offset := offset)))
  }

  // ---------- what they promise ----------

  lemma MonthsOnExactly(d: Date, months: int)
    requires IsValidDate(d)
    ensures var r := MonthsOn(d, months);
            && 12 * r.year + r.month == 12 * d.year + d.month + months && IsValidDate(r)
            && r.day == if IsValidDate(r.(day := d.day)) then d.day else MaxDay(r.year, r.month)
  {
    var total := d.month + months - 1;
    assert 12 * (total / 12) + total % 12 == total;
    SameRules(d);
    SameRules(MonthsOn(d, months));
    SameRules(MonthsOn(d, months).(day := d.day));
  }

  /** addMonths moves 12 * year + month by exactly that many, clamps the day to the month's length, and keeps the
      time of day, the fraction and the zone. It fails on one civil second only, the last one of 1969. */
  lemma MonthsAddedExactly(m: Moment, months: int)
    requires Consistent(m)
    ensures var target := m.(date := MonthsOn(m.date, months));
            var r := MonthsAdded(m, months);
            && 12 * target.date.year + target.date.month == 12 * m.date.year + m.date.month + months
            && IsValidDate(target.date)
            && target.date.day == (if IsValidDate(target.date.(day := m.date.day)) then m.date.day
                                   else MaxDay(target.date.year, target.date.month))
            && (r.Err? <==> WallSeconds(target) == -1)
            && (r.Ok? ==> r.value == target.(epoch := r.value.epoch))
            && (r.Ok? && FitsInt64(InstantOfFields(target)) ==> Consistent(r.value))
  {
    MonthsOnExactly(m.date, months);
    var target := m.(date := MonthsOn(m.date, months));
    hide DaysSinceEpoch, IsLeap, MonthsOn, MaxDay, IsValidDate;
    if WallSeconds(target) != -1 && FitsInt64(InstantOfFields(target)) {
      WithEpochIsConsistent(target);
    }
  }

  lemma YearsOnIsMonthsOn(d: Date, years: int)
    requires IsValidDate(d)
    ensures YearsOn(d, years) == MonthsOn(d, 12 * years)
  {
    var total := d.month + 12 * years - 1;
    assert total / 12 == years && total % 12 + 1 == d.month;
    SameRules(d);
  }

  /** addYears is addMonths by twelve times as many, February 29 included. */
  lemma YearsAreTwelveMonths(m: Moment, years: int)
    requires Consistent(m)
    ensures YearsAdded(m, years) == MonthsAdded(m, 12 * years)
  {
    YearsOnIsMonthsOn(m.date, years);
  }

  predicate ClampsToZero(m: Moment, days: int) {
    days < 0 && m.epoch < -days * DAY_NANOS
  }

  lemma EpochPlusIsExact(epoch: int, nanos: int)
    requires 0 <= epoch < TWO_64 && FitsInt64(Signed(epoch) + nanos)
    ensures 0 <= EpochPlus(epoch, nanos) < TWO_64
    ensures Signed(EpochPlus(epoch, nanos)) == if nanos < 0 && epoch < -nanos then 0 else Signed(epoch) + nanos
  {
    CastsInvert(Signed(epoch) + nanos);
    if epoch >= TWO_63 {
      WrapAgain(Signed(epoch) + nanos, 1);
    }
  }

  lemma DaysAddedInstant(m: Moment, days: int)
    requires Consistent(m) && FitsInt64(Signed(m.epoch) + days * DAY_NANOS)
    ensures var r := DaysAdded(m, days);
            0 <= r.epoch < TWO_64 && r.offset == m.offset && r.isUTC == m.isUTC && Consistent(r)
            && Signed(r.epoch) == if ClampsToZero(m, days) then 0 else Signed(m.epoch) + days * DAY_NANOS
  {
    EpochPlusIsExact(m.epoch, days * DAY_NANOS);
    RecalendaredIsConsistent(m.(epoch := EpochPlus(m.epoch, days * DAY_NANOS)));
    hide Recalendared, DaysSinceEpoch, EpochPlus, WallSeconds, IsValidDate;
  }

  predicate SameTimeOfDay(a: Moment, b: Moment) {
    (a.hour, a.minute, a.second, a.fraction) == (b.hour, b.minute, b.second, b.fraction)
  }

  lemma SplitUnique(a: Moment, b: Moment, days: int)
    requires Consistent(a) && Consistent(b)
    ensures WallSeconds(b) * NANOS + b.fraction == WallSeconds(a) * NANOS + a.fraction + days * DAY_NANOS
      <==> DaysSinceEpoch(b.date) == DaysSinceEpoch(a.date) + days && SameTimeOfDay(a, b)
  {
    hide DaysSinceEpoch;
    var x, y := DaysSinceEpoch(a.date) + days, DaysSinceEpoch(b.date);
    var s, t := a.hour * 3600 + a.minute * 60 + a.second, b.hour * 3600 + b.minute * 60 + b.second;
    if WallSeconds(b) * NANOS + b.fraction == WallSeconds(a) * NANOS + a.fraction + days * DAY_NANOS {
      assert (y * 86400 + t) * NANOS + b.fraction == (x * 86400 + s) * NANOS + a.fraction;
      assert y * 86400 + t == x * 86400 + s;
      assert x == y && s == t;
    }
  }

  /** Neither the nanoseconds added nor the sum leaves the 64-bit range. */
  predicate DaysInRange(m: Moment, days: int) {
    FitsInt64(days * DAY_NANOS) && FitsInt64(Signed(m.epoch) + days * DAY_NANOS)
  }

  /** addDays moves the day number by exactly n and keeps the time of day, exactly when it does not clamp; and it
      clamps exactly when it would carry an instant at or after the epoch to one before it. */
  lemma DaysAddedExactly(m: Moment, days: int)
    requires Consistent(m) && DaysInRange(m, days)
    ensures var r := DaysAdded(m, days);
            Consistent(r)
            && (!ClampsToZero(m, days) <==>
                  DaysSinceEpoch(r.date) == DaysSinceEpoch(m.date) + days && SameTimeOfDay(m, r))
            && (ClampsToZero(m, days) ==> r.epoch == 0)
    ensures ClampsToZero(m, days) <==> Signed(m.epoch) >= 0 && Signed(m.epoch) + days * DAY_NANOS < 0
  {
    DaysAddedInstant(m, days);
    SplitUnique(m, DaysAdded(m, days), days);
    hide Recalendared, DaysSinceEpoch, DaysAdded;
  }

  /** A day after the epoch, moved back two days, is the epoch and not the day before it. */
  lemma DaysAddedClamps()
    ensures var m := Moment(Date(1970, 1, 2), 0, 0, 0, 0, Second, 0, true, DAY_NANOS);
            && Consistent(m) && DaysInRange(m, -2)
            && DaysAdded(m, -2).date == Date(1970, 1, 1) && DateOfDay(DaysSinceEpoch(m.date) - 2) == Date(1969, 12, 31)
  {
    var m := Moment(Date(1970, 1, 2), 0, 0, 0, 0, Second, 0, true, DAY_NANOS);
    assert DaysSinceEpoch(m.date) == 1;
    assert DateOfDay(-1) == PrevDate(DateOfDay(0));
    assert DaysAdded(m, -2) == Recalendared(m.(epoch := 0));
  }

  /** setZone keeps the instant and takes the offset; it fails only on hours or minutes out of range. */
  lemma ZoneKeepsInstant(m: Moment, z: Zone)
    requires Consistent(m)
    ensures ZoneSet(m, z).Err? <==> z.Shift? && !(0 <= z.hours <= 23 && 0 <= z.minutes <= 59)
    ensures var r := ZoneSet(m, z);
            r.Ok? ==> Consistent(r.value) && r.value.epoch == m.epoch
                      && r.value.offset == (if z.UTC? then 0 else
                           (if z.positive then 1 else -1) * (z.hours * 3600 + z.minutes * 60))
  {
    if ZoneSet(m, z).Ok? {
      RecalendaredIsConsistent(m.(isUTC := ZoneSet(m, z).value.isUTC, offset := ZoneSet(m, z).value.offset));
    }
  }

  /** An instant of 64 bits, seen in any zone the program can set, has a year of four digits. */
  lemma YearsFit(m: Moment)
    requires Consistent(m) && -100 * 3600 < m.offset < 100 * 3600
    ensures 0 <= m.date.year <= 9999
  {
    hide DaysSinceEpoch;
    var first, last := Date(0, 1, 1), Date(9999, 12, 31);
    FirstAndLast();
    if m.date.year < 0 {
      Monotone(m.date, first);
    } else if m.date.year > 9999 {
      Monotone(last, m.date);
    }
    assert -110_000 < DaysSinceEpoch(m.date) < 110_000;
  }

  lemma FirstAndLast()
    ensures DaysSinceEpoch(Date(0, 1, 1)) == -719528 && DaysSinceEpoch(Date(9999, 12, 31)) == 2932896
  {
  }

  // ---------- any sequence of operations ----------

  datatype Operation = AddDays(n: int) | AddMonths(n: int) | AddYears(n: int) | SetZone(z: Zone)

  function Perform(m: Moment, op: Operation): Result<Moment>
    requires 1 <= m.date.month <= 12
  {
    match op
    case AddDays(n) => Ok(DaysAdded(m, n))
    case AddMonths(n) => MonthsAdded(m, n)
    case AddYears(n) => YearsAdded(m, n)
    case SetZone(z) => ZoneSet(m, z)
  }

  /** The operations one after the other, as long as none throws and no instant leaves the 64-bit range. */
  ghost function PerformAll(m: Moment, ops: seq<Operation>): Option<Moment>
    decreases |ops|
  {
    if ops == [] then Some(m)
    else if 1 <= m.date.month <= 12 && InRange(m, ops[0]) && Perform(m, ops[0]).Ok? then
      PerformAll(Perform(m, ops[0]).value, ops[1..])
    else None
  }

  ghost predicate InRange(m: Moment, op: Operation)
    requires 1 <= m.date.month <= 12
  {
    match op
    case AddDays(n) => DaysInRange(m, n)
    case AddMonths(n) => FitsInt64(InstantOfFields(m.(date := MonthsOn(m.date, n))))
    case AddYears(n) => FitsInt64(InstantOfFields(m.(date := YearsOn(m.date, n))))
    case SetZone(_) => true
  }

  lemma PerformKeeps(m: Moment, op: Operation)
    requires Consistent(m) && InRange(m, op) && Perform(m, op).Ok?
    ensures Consistent(Perform(m, op).value)
  {
    hide Recalendared, DaysSinceEpoch, EpochPlus, WallSeconds, IsValidDate, MonthsOn, YearsOn, WithEpoch;
    match op
    case AddDays(n) => DaysAddedExactly(m, n);
    case AddMonths(n) => MonthsAddedExactly(m, n);
    case AddYears(n) =>
      YearsOnIsMonthsOn(m.date, n);
      MonthsAddedExactly(m, 12 * n);
    case SetZone(z) => ZoneKeepsInstant(m, z);
  }

  /** Over any sequence of operations the calendar fields stay the civil date-time of the instant. */
  lemma {:induction false} StaysConsistent(m: Moment, ops: seq<Operation>)
    requires Consistent(m)
    ensures PerformAll(m, ops).Some? ==> Consistent(PerformAll(m, ops).value)
    decreases |ops|
  {
    hide Perform, Consistent, InRange;
    if PerformAll(m, ops).Some? && ops != [] {
      PerformKeeps(m, ops[0]);
      StaysConsistent(Perform(m, ops[0]).value, ops[1..]);
    }
  }
}
