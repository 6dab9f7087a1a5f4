/**
 * The calendar export of the engine (src/logic/engine.ts:188-220): the
 * iCalendar payload of `toICS` (RFC 5545, a single VEVENT whose DTSTART and
 * DTEND use the UTC DATE-TIME form of section 3.3.5) and the file name rule of
 * `downloadICS`.
 *
 * Instants are ECMAScript time values (integer milliseconds since the epoch);
 * `Date.prototype.toISOString` is modelled on the proleptic Gregorian
 * calendar, with the extended six-digit year outside 0000-9999.
 */
module Calendar {
  import opened Domain
  import opened Text

  /** The largest time value a `Date` can hold: 8.64e15 ms either side of the epoch. */
  const MAX_TIME: int := 8_640_000_000_000_000

  predicate ValidTime(t: int) {
    -MAX_TIME <= t <= MAX_TIME
  }

  const MINUTE_MS: int := 60 * 1000

  // ====================================================== civil calendar

  predicate IsLeap(y: int) {
    y % 4 == 0 && (y % 100 != 0 || y % 400 == 0)
  }

  function YearDays(y: int): int {
    if IsLeap(y) then 366 else 365
  }

  /** Days from 0000-01-01 to the first day of year `y`. */
  function DaysBeforeYear(y: int): int {
    365 * y + (y - 1) / 4 - (y - 1) / 100 + (y - 1) / 400 + 1
  }

  /** `DaysBeforeYear(1970)`: the day number of the epoch. */
  const EPOCH_DAY: int := 719528

  /** Consecutive years are a year's length apart. */
  lemma DaysBeforeYearStep(y: int)
    ensures DaysBeforeYear(y + 1) == DaysBeforeYear(y) + YearDays(y)
  {
    DivStep(y, 4);
    DivStep(y, 100);
    DivStep(y, 400);
    DivisorChain(y);
  }

  /** Every multiple of 400 is one of 100, and every multiple of 100 one of 4. */
  lemma DivisorChain(y: int)
    ensures y % 400 == 0 ==> y % 100 == 0
    ensures y % 100 == 0 ==> y % 4 == 0
  {
    if y % 400 == 0 {
      DivUnique(y, 100, 4 * (y / 400), 0);
    }
    if y % 100 == 0 {
      DivUnique(y, 4, 25 * (y / 100), 0);
    }
  }

  lemma DivStep(y: int, k: int)
    requires k > 0
    ensures y / k - (y - 1) / k == if y % k == 0 then 1 else 0
  {
    var q, r := (y - 1) / k, (y - 1) % k;
    assert y - 1 == k * q + r && 0 <= r < k;
    if r == k - 1 {
      assert y == k * (q + 1);
      DivUnique(y, k, q + 1, 0);
    } else {
      assert y == k * q + (r + 1);
      DivUnique(y, k, q, r + 1);
    }
  }

  lemma DivUnique(x: int, k: int, q: int, r: int)
    requires k > 0 && 0 <= r < k && x == k * q + r
    ensures x / k == q && x % k == r
  {
    var q', r' := x / k, x % k;
    assert x == k * q' + r';
    if q' > q {
      MulMonotone(k, q + 1, q');
    } else if q' < q {
      MulMonotone(k, q' + 1, q);
    }
  }

  /** The calendar repeats every 400 years, which last 146097 days. */
  lemma DaysBeforeYearCycle(q: int, y: int)
    ensures DaysBeforeYear(400 * q + y) == 146097 * q + DaysBeforeYear(y)
  {
    DivUnique(400 * q + y - 1, 4, 100 * q + (y - 1) / 4, (y - 1) % 4);
    DivUnique(400 * q + y - 1, 100, 4 * q + (y - 1) / 100, (y - 1) % 100);
    DivUnique(400 * q + y - 1, 400, q + (y - 1) / 400, (y - 1) % 400);
  }

  /** The year of a 400-year cycle holding day `r` of the cycle, searched from year `y` on. */
  function YearInCycle(r: int, y: int): (yr: int)
    requires 0 <= y < 400 && DaysBeforeYear(y) <= r < 146097
    ensures y <= yr < 400 && DaysBeforeYear(yr) <= r < DaysBeforeYear(yr + 1)
    decreases 400 - y
  {
    DaysBeforeYearStep(y);
    if r < DaysBeforeYear(y + 1) then y
    else
      assert DaysBeforeYear(400) == 146097;
      YearInCycle(r, y + 1)
  }

  /** The year holding day `n`, counted from 0000-01-01. */
  function YearOf(n: int): (y: int)
    ensures DaysBeforeYear(y) <= n < DaysBeforeYear(y + 1)
  {
    var q := CycleOf(n);
    CycleStartsYear();
    var yy := YearInCycle(n - 146097 * q, 0);
    YearOfCycle(n, q, yy);
    400 * q + yy
  }

  lemma CycleStartsYear()
    ensures DaysBeforeYear(0) == 0
  {
  }

  /** The 400-year cycle holding day `n`: `n / 146097`. */
  function CycleOf(n: int): (q: int)
    ensures 146097 * q <= n < 146097 * q + 146097
    decreases if n < 0 then 146097 - n else n
  {
    if n < 0 then CycleOf(n + 146097) - 1
    else if n < 146097 then 0
    else CycleOf(n - 146097) + 1
  }

  lemma YearOfCycle(n: int, q: int, yy: int)
    requires DaysBeforeYear(yy) <= n - 146097 * q < DaysBeforeYear(yy + 1)
    ensures DaysBeforeYear(400 * q + yy) <= n < DaysBeforeYear(400 * q + yy + 1)
  {
    DaysBeforeYearCycle(q, yy);
    DaysBeforeYearCycle(q, yy + 1);
    assert 400 * q + yy + 1 == 400 * q + (yy + 1);
  }

  function MonthDays(y: int, m: int): int
    requires 1 <= m <= 12
  {
    if m == 2 then (if IsLeap(y) then 29 else 28)
    else if m == 4 || m == 6 || m == 9 || m == 11 then 30
    else 31
  }

  /** Days of year `y` before the first of month `m` (13 stands for the next January). */
  function DaysBeforeMonth(y: int, m: int): int
    requires 1 <= m <= 13
  {
    if m == 1 then 0 else DaysBeforeMonth(y, m - 1) + MonthDays(y, m - 1)
  }

  lemma MonthsFillYear(y: int)
    ensures DaysBeforeMonth(y, 13) == YearDays(y)
  {
    assert DaysBeforeMonth(y, 2) == 31;
    assert DaysBeforeMonth(y, 3) == 31 + MonthDays(y, 2);
    assert DaysBeforeMonth(y, 4) == DaysBeforeMonth(y, 3) + 31;
    assert DaysBeforeMonth(y, 5) == DaysBeforeMonth(y, 3) + 61;
    assert DaysBeforeMonth(y, 6) == DaysBeforeMonth(y, 3) + 92;
    assert DaysBeforeMonth(y, 7) == DaysBeforeMonth(y, 3) + 122;
    assert DaysBeforeMonth(y, 8) == DaysBeforeMonth(y, 3) + 153;
    assert DaysBeforeMonth(y, 9) == DaysBeforeMonth(y, 3) + 184;
    assert DaysBeforeMonth(y, 10) == DaysBeforeMonth(y, 3) + 214;
    assert DaysBeforeMonth(y, 11) == DaysBeforeMonth(y, 3) + 245;
    assert DaysBeforeMonth(y, 12) == DaysBeforeMonth(y, 3) + 275;
  }

  /** The month holding day `d` (from 0) of year `y`, searched from month `m` on. */
  function MonthOf(y: int, d: int, m: int): (mo: int)
    requires 1 <= m <= 12 && DaysBeforeMonth(y, m) <= d < YearDays(y)
    ensures m <= mo <= 12 && DaysBeforeMonth(y, mo) <= d < DaysBeforeMonth(y, mo + 1)
    decreases 12 - m
  {
    if d < DaysBeforeMonth(y, m + 1) then m
    else
      MonthsFillYear(y);
      MonthOf(y, d, m + 1)
  }

  /** The broken-down UTC fields `toISOString` prints. */
  datatype DateTime = DateTime(year: int, month: int, day: int, hour: int, minute: int, second: int, millisecond: int)

  predicate WellFormed(dt: DateTime) {
    1 <= dt.month <= 12 && 1 <= dt.day <= MonthDays(dt.year, dt.month)
    && 0 <= dt.hour < 24 && 0 <= dt.minute < 60 && 0 <= dt.second < 60
    && 0 <= dt.millisecond < 1000
  }

  /** ECMAScript's `MakeDate(MakeDay(y, m, d), MakeTime(h, min, s, ms))` for fields in range. */
  function InstantOf(dt: DateTime): int
    requires 1 <= dt.month <= 12
  {
    (DaysBeforeYear(dt.year) - EPOCH_DAY + DaysBeforeMonth(dt.year, dt.month) + dt.day - 1) * DAY_MS
    + dt.hour * HOUR_MS + dt.minute * MINUTE_MS + dt.second * SECOND_MS + dt.millisecond
  }

  /**
   * The UTC fields of instant `t`: the well-formed fields that denote `t`.
   * There is exactly one such DateTime (`FieldsUnique`), and `CivilFields`
   * computes it (`ToDateTimeComputed`).
   */
  ghost function ToDateTime(t: int): (dt: DateTime)
    ensures WellFormed(dt)
    ensures InstantOf(dt) == t
  {
    assert WellFormed(CivilFields(t)) && InstantOf(CivilFields(t)) == t;
    var dt :| WellFormed(dt) && InstantOf(dt) == t;
    dt
  }

  /**
   * The UTC fields of instant `t` as ECMAScript derives them: the day number
   * and the time within the day, then the year, the month and the date.
   */
  function CivilFields(t: int): (dt: DateTime)
    ensures WellFormed(dt)
    ensures InstantOf(dt) == t
  {
    var days, msOfDay := t / DAY_MS, t % DAY_MS;
    var n := days + EPOCH_DAY;
    var y := YearOf(n);
    var dayOfYear := n - DaysBeforeYear(y);
    DaysBeforeYearStep(y);
    var m := MonthOf(y, dayOfYear, 1);
    var secs, ms := msOfDay / 1000, msOfDay % 1000;
    var mins, s := secs / 60, secs % 60;
    var h, mi := mins / 60, mins % 60;
    SplitDay(t, days, msOfDay);
    SplitTime(msOfDay, secs, mins, h, mi, s, ms);
    MonthDaysStep(y, m);
    DateTime(y, m, dayOfYear - DaysBeforeMonth(y, m) + 1, h, mi, s, ms)
  }

  /** The fields are determined by the instant they denote. */
  lemma FieldsUnique(a: DateTime, b: DateTime)
    requires WellFormed(a) && WellFormed(b) && InstantOf(a) == InstantOf(b)
    ensures a == b
  {
    SameDayAndTime(a, b);
    ClockUnique(a, b);
    DateUnique(a, b);
  }

  /** Equal instants fall on the same day at the same time of day. */
  lemma SameDayAndTime(a: DateTime, b: DateTime)
    requires WellFormed(a) && WellFormed(b) && InstantOf(a) == InstantOf(b)
    ensures DayNumber(a) == DayNumber(b) && TimeOfDay(a) == TimeOfDay(b)
  {
    InstantSplit(a);
    InstantSplit(b);
    DivUnique(InstantOf(a), DAY_MS, DayNumber(a) - EPOCH_DAY, TimeOfDay(a));
    DivUnique(InstantOf(a), DAY_MS, DayNumber(b) - EPOCH_DAY, TimeOfDay(b));
  }

  lemma InstantSplit(dt: DateTime)
    requires WellFormed(dt)
    ensures InstantOf(dt) == (DayNumber(dt) - EPOCH_DAY) * DAY_MS + TimeOfDay(dt)
    ensures 0 <= TimeOfDay(dt) < DAY_MS
  {
  }

  /** Equal day numbers have equal year, month and date. */
  lemma DateUnique(a: DateTime, b: DateTime)
    requires WellFormed(a) && WellFormed(b) && DayNumber(a) == DayNumber(b)
    ensures a.year == b.year && a.month == b.month && a.day == b.day
  {
    DayInYear(a);
    DayInYear(b);
    assert a.year == b.year by {
      if a.year < b.year {
        DaysBeforeYearMono(a.year + 1, b.year);
      } else if b.year < a.year {
        DaysBeforeYearMono(b.year + 1, a.year);
      }
    }
    assert a.month == b.month by {
      if a.month < b.month {
        DaysBeforeMonthMono(a.year, a.month + 1, b.month);
      } else if b.month < a.month {
        DaysBeforeMonthMono(a.year, b.month + 1, a.month);
      }
    }
  }

  /** Days from 0000-01-01 to the date of `dt`. */
  function DayNumber(dt: DateTime): int
    requires 1 <= dt.month <= 12
  {
    DaysBeforeYear(dt.year) + DaysBeforeMonth(dt.year, dt.month) + dt.day - 1
  }

  /** Milliseconds since midnight. */
  function TimeOfDay(dt: DateTime): int {
    dt.hour * HOUR_MS + dt.minute * MINUTE_MS + dt.second * SECOND_MS + dt.millisecond
  }

  /** Equal times of day have equal hours, minutes, seconds and milliseconds. */
  lemma ClockUnique(a: DateTime, b: DateTime)
    requires WellFormed(a) && WellFormed(b)
    ensures TimeOfDay(a) == TimeOfDay(b) ==>
      a.hour == b.hour && a.minute == b.minute && a.second == b.second && a.millisecond == b.millisecond
  {
    if TimeOfDay(a) == TimeOfDay(b) {
      var x := TimeOfDay(a);
      DivUnique(x, 1000, a.second + 60 * (a.minute + 60 * a.hour), a.millisecond);
      DivUnique(x, 1000, b.second + 60 * (b.minute + 60 * b.hour), b.millisecond);
      var secs := x / 1000;
      DivUnique(secs, 60, a.minute + 60 * a.hour, a.second);
      DivUnique(secs, 60, b.minute + 60 * b.hour, b.second);
      var mins := secs / 60;
      DivUnique(mins, 60, a.hour, a.minute);
      DivUnique(mins, 60, b.hour, b.minute);
    }
  }

  /** The date of `dt` lies within its year and within its month. */
  lemma DayInYear(dt: DateTime)
    requires WellFormed(dt)
    ensures DaysBeforeYear(dt.year) <= DayNumber(dt) < DaysBeforeYear(dt.year + 1)
    ensures DaysBeforeMonth(dt.year, dt.month) <= DayNumber(dt) - DaysBeforeYear(dt.year)
                                               < DaysBeforeMonth(dt.year, dt.month + 1)
  {
    MonthDaysStep(dt.year, dt.month);
    DaysBeforeMonthMono(dt.year, 1, dt.month);
    DaysBeforeMonthMono(dt.year, dt.month + 1, 13);
    MonthsFillYear(dt.year);
    DaysBeforeYearStep(dt.year);
  }

  lemma DaysBeforeYearMono(a: int, b: int)
    requires a <= b
    ensures DaysBeforeYear(a) <= DaysBeforeYear(b)
    decreases b - a
  {
    if a < b {
      DaysBeforeYearStep(a);
      DaysBeforeYearMono(a + 1, b);
    }
  }

  lemma DaysBeforeMonthMono(y: int, a: int, b: int)
    requires 1 <= a <= b <= 13
    ensures DaysBeforeMonth(y, a) <= DaysBeforeMonth(y, b)
    decreases b - a
  {
    if a < b {
      DaysBeforeMonthMono(y, a + 1, b);
    }
  }

  /** `CivilFields` computes the fields of `ToDateTime`. */
  lemma ToDateTimeComputed(t: int)
    ensures ToDateTime(t) == CivilFields(t)
  {
    FieldsUnique(ToDateTime(t), CivilFields(t));
  }

  lemma SplitDay(t: int, days: int, msOfDay: int)
    requires days == t / DAY_MS && msOfDay == t % DAY_MS
    ensures t == days * DAY_MS + msOfDay && 0 <= msOfDay < DAY_MS
  {
  }

  lemma SplitTime(msOfDay: int, secs: int, mins: int, h: int, mi: int, s: int, ms: int)
    requires 0 <= msOfDay < DAY_MS
    requires secs == msOfDay / 1000 && ms == msOfDay % 1000
    requires mins == secs / 60 && s == secs % 60
    requires h == mins / 60 && mi == mins % 60
    ensures 0 <= h < 24 && 0 <= mi < 60 && 0 <= s < 60 && 0 <= ms < 1000
    ensures msOfDay == h * HOUR_MS + mi * MINUTE_MS + s * SECOND_MS + ms
  {
    assert msOfDay == 1000 * secs + ms;
    assert secs == 60 * mins + s;
    assert mins == 60 * h + mi;
    assert secs < 86400;
    assert mins < 1440;
  }

  lemma MonthDaysStep(y: int, m: int)
    requires 1 <= m <= 12
    ensures DaysBeforeMonth(y, m + 1) == DaysBeforeMonth(y, m) + MonthDays(y, m)
  {
  }

  // ======================================================= ISO-8601 text

  /** `n` in at least six digits: the extended year of `toISOString`. */
  function SixDigits(n: nat): string {
    if n < Pow10(6) then PadDigits(n, 6) else NatToString(n)
  }

  function YearText(y: int): string {
    if 0 <= y <= 9999 then PadDigits(y, 4)
    else if y < 0 then "-" + SixDigits(-y)
    else "+" + SixDigits(y)
  }

  /** The ISO-8601 text of broken-down fields: `YYYY-MM-DDTHH:mm:ss.sssZ`. */
  function IsoText(dt: DateTime): string
    requires WellFormed(dt)
  {
    YearText(dt.year) + "-" + PadDigits(dt.month, 2) + "-" + PadDigits(dt.day, 2)
    + "T" + PadDigits(dt.hour, 2) + ":" + PadDigits(dt.minute, 2) + ":" + PadDigits(dt.second, 2)
    + "." + PadDigits(dt.millisecond, 3) + "Z"
  }

  /** `new Date(t).toISOString()` for a valid time value. */
  ghost function IsoString(t: int): string {
    IsoText(ToDateTime(t))
  }

  /** `s.replace(/[-:]/g, '')`. */
  function DropDashColon(s: string): (r: string)
    ensures |r| <= |s|
  {
    if s == [] then []
    else (if s[0] == '-' || s[0] == ':' then [] else [s[0]]) + DropDashColon(s[1..])
  }

  /** `s.split('.')[0]`: everything before the first dot. */
  function BeforeDot(s: string): (r: string)
    ensures r <= s
  {
    if s == [] || s[0] == '.' then [] else [s[0]] + BeforeDot(s[1..])
  }

  /** `iso.replace(/[-:]/g, '').split('.')[0] + 'Z'`. */
  function Compact(iso: string): string {
    BeforeDot(DropDashColon(iso)) + "Z"
  }

  /** The stamp the engine writes for instant `t`. */
  ghost function Stamp(t: int): string {
    Compact(IsoString(t))
  }

  lemma {:induction false} DropDashColonConcat(a: string, b: string)
    ensures DropDashColon(a + b) == DropDashColon(a) + DropDashColon(b)
  {
    if a == [] {
      assert a + b == b;
    } else {
      assert (a + b)[1..] == a[1..] + b;
      DropDashColonConcat(a[1..], b);
    }
  }

  lemma {:induction false} DropDashColonDigits(s: string)
    requires AllDigits(s)
    ensures DropDashColon(s) == s
  {
    if s != [] {
      DropDashColonDigits(s[1..]);
    }
  }

  lemma {:induction false} BeforeDotConcat(a: string, b: string)
    requires forall i :: 0 <= i < |a| ==> a[i] != '.'
    ensures BeforeDot(a + "." + b) == a
  {
    if a != [] {
      assert (a + "." + b)[1..] == a[1..] + "." + b;
      BeforeDotConcat(a[1..], b);
    }
  }

  /** Compacting ISO fields written with four-digit years gives `YYYYMMDDTHHMMSSZ`. */
  lemma CompactFields(y: string, mo: string, d: string, h: string, mi: string, s: string, ms: string)
    requires AllDigits(y) && AllDigits(mo) && AllDigits(d) && AllDigits(h) && AllDigits(mi) && AllDigits(s)
    requires AllDigits(ms)
    ensures Compact(y + "-" + mo + "-" + d + "T" + h + ":" + mi + ":" + s + "." + ms + "Z")
         == y + mo + d + "T" + h + mi + s + "Z"
  {
    var compact := y + mo + d + "T" + h + mi + s;
    DropFields(y, mo, d, h, mi, s, ms);
    assert forall i :: 0 <= i < |compact| ==> compact[i] != '.';
    assert compact + "." + ms + "Z" == compact + "." + (ms + "Z");
    BeforeDotConcat(compact, ms + "Z");
  }

  /** The separators `-` and `:` are dropped; `T`, `.` and `Z` are kept. */
  lemma DropSeparators()
    ensures DropDashColon("-") == [] && DropDashColon(":") == []
    ensures DropDashColon("T") == "T" && DropDashColon(".") == "." && DropDashColon("Z") == "Z"
  {
  }

  /** Dropping the separators of ISO fields keeps the digits, the `T`, the dot and the `Z`. */
  lemma DropFields(y: string, mo: string, d: string, h: string, mi: string, s: string, ms: string)
    requires AllDigits(y) && AllDigits(mo) && AllDigits(d) && AllDigits(h) && AllDigits(mi) && AllDigits(s)
    requires AllDigits(ms)
    ensures DropDashColon(y + "-" + mo + "-" + d + "T" + h + ":" + mi + ":" + s + "." + ms + "Z")
         == y + mo + d + "T" + h + mi + s + "." + ms + "Z"
  {
    DropSeparators();
    var p1 := y + "-";
    assert DropDashColon(p1) == y by { DropDashColonConcat(y, "-"); DropDashColonDigits(y); }
    var p2 := p1 + mo;
    assert DropDashColon(p2) == y + mo by { DropDashColonConcat(p1, mo); DropDashColonDigits(mo); }
    var p3 := p2 + "-";
    assert DropDashColon(p3) == y + mo by { DropDashColonConcat(p2, "-"); }
    var p4 := p3 + d;
    assert DropDashColon(p4) == y + mo + d by { DropDashColonConcat(p3, d); DropDashColonDigits(d); }
    var p5 := p4 + "T";
    assert DropDashColon(p5) == y + mo + d + "T" by { DropDashColonConcat(p4, "T"); }
    var p6 := p5 + h;
    assert DropDashColon(p6) == y + mo + d + "T" + h by { DropDashColonConcat(p5, h); DropDashColonDigits(h); }
    var p7 := p6 + ":";
    assert DropDashColon(p7) == y + mo + d + "T" + h by { DropDashColonConcat(p6, ":"); }
    var p8 := p7 + mi;
    assert DropDashColon(p8) == y + mo + d + "T" + h + mi by { DropDashColonConcat(p7, mi); DropDashColonDigits(mi); }
    var p9 := p8 + ":";
    assert DropDashColon(p9) == y + mo + d + "T" + h + mi by { DropDashColonConcat(p8, ":"); }
    var p10 := p9 + s;
    assert DropDashColon(p10) == y + mo + d + "T" + h + mi + s by { DropDashColonConcat(p9, s); DropDashColonDigits(s); }
    var p11 := p10 + ".";
    assert DropDashColon(p11) == y + mo + d + "T" + h + mi + s + "." by { DropDashColonConcat(p10, "."); }
    var p12 := p11 + ms;
    assert DropDashColon(p12) == y + mo + d + "T" + h + mi + s + "." + ms by {
      DropDashColonConcat(p11, ms);
      DropDashColonDigits(ms);
    }
    DropDashColonConcat(p12, "Z");
  }

  /** The sixteen-character UTC DATE-TIME of RFC 5545 section 3.3.5 (`YYYYMMDDTHHMMSSZ`). */
  function StampText(dt: DateTime): string
    requires 0 <= dt.year <= 9999 && WellFormed(dt)
  {
    PadDigits(dt.year, 4) + PadDigits(dt.month, 2) + PadDigits(dt.day, 2) + "T"
    + PadDigits(dt.hour, 2) + PadDigits(dt.minute, 2) + PadDigits(dt.second, 2) + "Z"
  }

  /** For a year of four digits the stamp is exactly the RFC 5545 form, milliseconds dropped. */
  lemma StampFormat(t: int)
    requires 0 <= ToDateTime(t).year <= 9999
    ensures Stamp(t) == StampText(ToDateTime(t))
    ensures |Stamp(t)| == 16
  {
    var dt := ToDateTime(t);
    CompactFields(PadDigits(dt.year, 4), PadDigits(dt.month, 2), PadDigits(dt.day, 2),
                  PadDigits(dt.hour, 2), PadDigits(dt.minute, 2), PadDigits(dt.second, 2),
                  PadDigits(dt.millisecond, 3));
  }

  // ================================================== reading a stamp back

  /** The value of the digits `s[i..j]`. */
  function Field(s: string, i: nat, j: nat): nat
    requires i <= j <= |s|
  {
    DigitsValue(s[i..j])
  }

  /**
   * The instant a `YYYYMMDDTHHMMSSZ` stamp denotes, as a calendar reader would
   * take it: `None` for text of another shape or fields out of range.
   */
  function ParseStamp(s: string): Option<int> {
    if |s| != 16 || s[8] != 'T' || s[15] != 'Z' || !AllDigits(s[..8]) || !AllDigits(s[9..15]) then None
    else
      var dt := DateTime(Field(s, 0, 4), Field(s, 4, 6), Field(s, 6, 8),
                         Field(s, 9, 11), Field(s, 11, 13), Field(s, 13, 15), 0);
      if WellFormed(dt) then Some(InstantOf(dt)) else None
  }

  /** A stamp reads back as its fields at the whole second. */
  lemma StampTextRoundTrip(dt: DateTime)
    requires 0 <= dt.year <= 9999 && WellFormed(dt)
    ensures ParseStamp(StampText(dt)) == Some(InstantOf(dt.(millisecond := 0)))
  {
    var y, mo, d := PadDigits(dt.year, 4), PadDigits(dt.month, 2), PadDigits(dt.day, 2);
    var h, mi, sec := PadDigits(dt.hour, 2), PadDigits(dt.minute, 2), PadDigits(dt.second, 2);
    StampSlices(y, mo, d, h, mi, sec);
    PadDigitsRoundTrip(dt.year, 4);
    PadDigitsRoundTrip(dt.month, 2);
    PadDigitsRoundTrip(dt.day, 2);
    PadDigitsRoundTrip(dt.hour, 2);
    PadDigitsRoundTrip(dt.minute, 2);
    PadDigitsRoundTrip(dt.second, 2);
  }

  /** The fields of a `YYYYMMDDTHHMMSSZ` text sit at fixed offsets. */
  lemma StampSlices(y: string, mo: string, d: string, h: string, mi: string, sec: string)
    requires |y| == 4 && |mo| == 2 && |d| == 2 && |h| == 2 && |mi| == 2 && |sec| == 2
    requires AllDigits(y) && AllDigits(mo) && AllDigits(d) && AllDigits(h) && AllDigits(mi) && AllDigits(sec)
    ensures var s := y + mo + d + "T" + h + mi + sec + "Z";
      && |s| == 16 && s[8] == 'T' && s[15] == 'Z' && AllDigits(s[..8]) && AllDigits(s[9..15])
      && s[0..4] == y && s[4..6] == mo && s[6..8] == d
      && s[9..11] == h && s[11..13] == mi && s[13..15] == sec
  {
    var s := y + mo + d + "T" + h + mi + sec + "Z";
    assert s[..8] == y + mo + d;
    assert s[9..15] == h + mi + sec;
  }

  /** Reading the stamp of `t` back gives `t` truncated to the whole second. */
  lemma StampRoundTrip(t: int)
    requires 0 <= ToDateTime(t).year <= 9999
    ensures ParseStamp(Stamp(t)).Some?
    ensures var p := ParseStamp(Stamp(t)).value; p <= t < p + 1000 && p % 1000 == 0
  {
    var dt := ToDateTime(t);
    StampFormat(t);
    StampTextRoundTrip(dt);
    WholeSecond(dt, t);
  }

  /** Zeroing the milliseconds of the fields of `t` truncates `t` to the whole second. */
  lemma WholeSecond(dt: DateTime, t: int)
    requires WellFormed(dt) && InstantOf(dt) == t
    ensures var p := InstantOf(dt.(millisecond := 0)); p <= t < p + 1000 && p % 1000 == 0
  {
    var days := DaysBeforeYear(dt.year) - EPOCH_DAY + DaysBeforeMonth(dt.year, dt.month) + dt.day - 1;
    assert InstantOf(dt.(millisecond := 0)) == days * DAY_MS + dt.hour * HOUR_MS + dt.minute * MINUTE_MS + dt.second * SECOND_MS;
    SecondMultiple(days, dt.hour, dt.minute, dt.second);
  }

  lemma SecondMultiple(days: int, h: int, mi: int, s: int)
    ensures (days * DAY_MS + h * HOUR_MS + mi * MINUTE_MS + s * SECOND_MS) % 1000 == 0
  {
    assert days * DAY_MS + h * HOUR_MS + mi * MINUTE_MS + s * SECOND_MS == 1000 * (days * 86400 + h * 3600 + mi * 60 + s);
  }

  /** DTEND, one hour after the event's start, reads back exactly 3600 s after DTSTART. */
  lemma EndIsOneHourLater(t: int)
    requires 0 <= ToDateTime(t).year <= 9999 && 0 <= ToDateTime(t + HOUR_MS).year <= 9999
    ensures ParseStamp(Stamp(t)).Some? && ParseStamp(Stamp(t + HOUR_MS)).Some?
    ensures ParseStamp(Stamp(t + HOUR_MS)).value == ParseStamp(Stamp(t)).value + 3600 * SECOND_MS
  {
    StampRoundTrip(t);
    StampRoundTrip(t + HOUR_MS);
    var p1, p2 := ParseStamp(Stamp(t)).value, ParseStamp(Stamp(t + HOUR_MS)).value;
    SameSecond(p1, p2, t);
  }

  lemma SameSecond(p: int, q: int, t: int)
    requires p <= t < p + 1000 && p % 1000 == 0
    requires q <= t + HOUR_MS < q + 1000 && q % 1000 == 0
    ensures q == p + 3600 * SECOND_MS
  {
    var a, b := p / 1000, q / 1000;
    assert p == 1000 * a && q == 1000 * b;
  }

  // ============================================================ payload

  datatype IcsError = InvalidTimeValue

  datatype IcsResult = Ok(text: string) | Err(error: IcsError)

  /** `lines.join('\n')`. */
  function JoinLines(lines: seq<string>): string
    requires |lines| >= 1
  {
    if |lines| == 1 then lines[0] else lines[0] + "\n" + JoinLines(lines[1..])
  }

  /** `s.split('\n')`. */
  function SplitLines(s: string): (r: seq<string>)
    ensures |r| >= 1
  {
    if s == [] then [""]
    else if s[0] == '\n' then [""] + SplitLines(s[1..])
    else
      var rest := SplitLines(s[1..]);
      [[s[0]] + rest[0]] + rest[1..]
  }

  predicate SingleLine(s: string) {
    forall i :: 0 <= i < |s| ==> s[i] != '\n'
  }

  lemma {:induction false} SplitSingle(a: string)
    requires SingleLine(a)
    ensures SplitLines(a) == [a]
  {
    if a != [] {
      SplitSingle(a[1..]);
      assert [a[0]] + a[1..] == a;
    }
  }

  lemma {:induction false} SplitAtNewline(a: string, b: string)
    requires SingleLine(a)
    ensures SplitLines(a + "\n" + b) == [a] + SplitLines(b)
  {
    if a == [] {
      assert a + "\n" + b == "\n" + b;
    } else {
      assert (a + "\n" + b)[1..] == a[1..] + "\n" + b;
      SplitAtNewline(a[1..], b);
      assert [a[0]] + a[1..] == a;
    }
  }

  /** Lines free of line breaks survive joining and splitting. */
  lemma {:induction false} SplitJoin(lines: seq<string>)
    requires |lines| >= 1
    requires forall i :: 0 <= i < |lines| ==> SingleLine(lines[i])
    ensures SplitLines(JoinLines(lines)) == lines
  {
    if |lines| == 1 {
      SplitSingle(lines[0]);
    } else {
      SplitJoin(lines[1..]);
      SplitAtNewline(lines[0], JoinLines(lines[1..]));
    }
  }

  /** The LOCATION line: present only for a non-empty location, otherwise an empty line. */
  function LocationLine(location: Option<string>): string {
    if location.Some? && location.value != "" then "LOCATION:" + location.value else ""
  }

  /** The lines of the payload, in the order of the template, around the three stamps. */
  function IcsLines(title: string, description: string, uid: string, stamp: string, start: string, end: string,
                    location: Option<string>): seq<string> {
    ["BEGIN:VCALENDAR",
     "VERSION:2.0",
     "PRODID:-//International Student Hub//EN",
     "BEGIN:VEVENT",
     "UID:" + uid + "@studenthub.app",
     "DTSTAMP:" + stamp,
     "DTSTART:" + start,
     "DTEND:" + end,
     "SUMMARY:" + title,
     "DESCRIPTION:" + description,
     LocationLine(location),
     "STATUS:CONFIRMED",
     "END:VEVENT",
     "END:VCALENDAR"]
  }

  /** The payload text for an event starting at `t`. */
  ghost function Payload(title: string, description: string, t: int, location: Option<string>, nowMs: int): string {
    JoinLines(IcsLines(title, description, IntToString(nowMs), Stamp(nowMs), Stamp(t), Stamp(t + HOUR_MS), location))
  }

  /**
   * `toICS(title, description, date, location)`. `date` is the time value
   * `new Date(date)` parses, `None` when the text is not a date; `nowMs` is the
   * one clock reading behind the UID and DTSTAMP. An invalid start or end
   * makes `toISOString` throw a RangeError.
   */
  ghost function ToICS(title: string, description: string, date: Option<int>, location: Option<string>, nowMs: int): (r: IcsResult)
    requires ValidTime(nowMs)
    ensures r.Err? <==> date.None? || !ValidTime(date.value) || !ValidTime(date.value + HOUR_MS)
    ensures r.Ok? ==> r.text == Payload(title, description, date.value, location, nowMs)
  {
    if date.None? || !ValidTime(date.value) || !ValidTime(date.value + HOUR_MS) then Err(InvalidTimeValue)
    else Ok(Payload(title, description, date.value, location, nowMs))
  }

  lemma SingleLineDigits(s: string)
    requires AllDigits(s)
    ensures SingleLine(s)
  {
  }

  /** No stamp contains a line break. */
  lemma StampSingleLine(t: int)
    ensures SingleLine(Stamp(t))
  {
    var dt := ToDateTime(t);
    YearTextSingle(dt.year);
    IsoFieldsSingle(YearText(dt.year), PadDigits(dt.month, 2), PadDigits(dt.day, 2), PadDigits(dt.hour, 2),
                    PadDigits(dt.minute, 2), PadDigits(dt.second, 2), PadDigits(dt.millisecond, 3));
    DropDashColonKeeps(IsoString(t));
  }

  lemma YearTextSingle(y: int)
    ensures SingleLine(YearText(y))
  {
  }

  lemma IsoFieldsSingle(yt: string, mo: string, d: string, h: string, mi: string, s: string, ms: string)
    requires SingleLine(yt) && AllDigits(mo) && AllDigits(d) && AllDigits(h) && AllDigits(mi) && AllDigits(s) && AllDigits(ms)
    ensures SingleLine(yt + "-" + mo + "-" + d + "T" + h + ":" + mi + ":" + s + "." + ms + "Z")
  {
    var x := yt + "-" + mo + "-" + d + "T" + h + ":" + mi + ":" + s + "." + ms + "Z";
    forall i | 0 <= i < |x| ensures x[i] != '\n' {
    }
  }

  lemma {:induction false} DropDashColonKeeps(s: string)
    requires SingleLine(s)
    ensures SingleLine(BeforeDot(DropDashColon(s)) + "Z")
  {
    var r := DropDashColon(s);
    DropDashColonSubset(s);
    assert SingleLine(BeforeDot(r)) by {
      var b := BeforeDot(r);
      forall i | 0 <= i < |b| ensures b[i] != '\n' {
        assert b[i] == r[i];
      }
    }
  }

  lemma {:induction false} DropDashColonSubset(s: string)
    requires SingleLine(s)
    ensures SingleLine(DropDashColon(s))
  {
    if s != [] {
      DropDashColonSubset(s[1..]);
    }
  }

  /**
   * When the caller's text holds no line break, the payload is exactly fourteen
   * lines: the calendar wrapper around one VEVENT, the start and end stamps, and
   * a LOCATION line only for a non-empty location.
   */
  lemma IcsStructure(title: string, description: string, t: int, location: Option<string>, nowMs: int)
    requires SingleLine(title) && SingleLine(description)
    requires location.Some? ==> SingleLine(location.value)
    ensures SplitLines(Payload(title, description, t, location, nowMs))
         == IcsLines(title, description, IntToString(nowMs), Stamp(nowMs), Stamp(t), Stamp(t + HOUR_MS), location)
  {
    var uid := IntToString(nowMs);
    assert SingleLine(uid) by {
      if nowMs < 0 {
        SingleLineDigits(NatToString(-nowMs));
      } else {
        SingleLineDigits(NatToString(nowMs));
      }
    }
    var s1, s2, s3 := Stamp(nowMs), Stamp(t), Stamp(t + HOUR_MS);
    StampSingleLine(nowMs);
    StampSingleLine(t);
    StampSingleLine(t + HOUR_MS);
    PayloadLines(title, description, uid, s1, s2, s3, location);
  }

  /** The payload text splits back into its lines, of which the fixed ones frame one VEVENT. */
  lemma PayloadLines(title: string, description: string, uid: string, stamp: string, start: string, end: string,
                     location: Option<string>)
    requires SingleLine(title) && SingleLine(description) && SingleLine(uid)
    requires SingleLine(stamp) && SingleLine(start) && SingleLine(end)
    requires location.Some? ==> SingleLine(location.value)
    ensures var lines := IcsLines(title, description, uid, stamp, start, end, location);
      SplitLines(JoinLines(lines)) == lines
      && |lines| == 14
      && lines[0] == "BEGIN:VCALENDAR" && lines[3] == "BEGIN:VEVENT"
      && lines[12] == "END:VEVENT" && lines[13] == "END:VCALENDAR"
      && lines[6] == "DTSTART:" + start && lines[7] == "DTEND:" + end
      && lines[8] == "SUMMARY:" + title && lines[9] == "DESCRIPTION:" + description
      && (lines[10] != "" <==> location.Some? && location.value != "")
      && (lines[10] != "" ==> lines[10] == "LOCATION:" + location.value)
  {
    var lines := IcsLines(title, description, uid, stamp, start, end, location);
    IcsLinesSingle(title, description, uid, stamp, start, end, location);
    SplitJoin(lines);
  }

  lemma SingleLineConcat(a: string, b: string)
    requires SingleLine(a) && SingleLine(b)
    ensures SingleLine(a + b)
  {
  }

  lemma TemplateLinesSingle()
    ensures SingleLine("BEGIN:VCALENDAR") && SingleLine("VERSION:2.0")
    ensures SingleLine("PRODID:-//International Student Hub//EN") && SingleLine("BEGIN:VEVENT")
    ensures SingleLine("STATUS:CONFIRMED") && SingleLine("END:VEVENT") && SingleLine("END:VCALENDAR")
  {
  }

  lemma IcsLinesSingle(title: string, description: string, uid: string, stamp: string, start: string, end: string,
                       location: Option<string>)
    requires SingleLine(title) && SingleLine(description) && SingleLine(uid)
    requires SingleLine(stamp) && SingleLine(start) && SingleLine(end)
    requires location.Some? ==> SingleLine(location.value)
    ensures var lines := IcsLines(title, description, uid, stamp, start, end, location);
      forall i :: 0 <= i < |lines| ==> SingleLine(lines[i])
  {
    var lines := IcsLines(title, description, uid, stamp, start, end, location);
    TemplateLinesSingle();
    SingleLineConcat("UID:", uid);
    SingleLineConcat("UID:" + uid, "@studenthub.app");
    SingleLineConcat("DTSTAMP:", stamp);
    SingleLineConcat("DTSTART:", start);
    SingleLineConcat("DTEND:", end);
    SingleLineConcat("SUMMARY:", title);
    SingleLineConcat("DESCRIPTION:", description);
    if location.Some? {
      SingleLineConcat("LOCATION:", location.value);
    }
  }

  // ============================================================ file name

  /** JavaScript's `\s`: the white space and line terminator characters. */
  predicate IsSpace(c: char) {
    var n := c as int;
    (0x09 <= n <= 0x0D) || n == 0x20 || n == 0xA0 || n == 0x1680
    || (0x2000 <= n <= 0x200A) || n == 0x2028 || n == 0x2029 || n == 0x202F
    || n == 0x205F || n == 0x3000 || n == 0xFEFF
  }

  predicate NoSpace(s: string) {
    forall i :: 0 <= i < |s| ==> !IsSpace(s[i])
  }

  /** The text after the run of white space at the front of `s`. */
  function SkipSpaces(s: string): (r: string)
    ensures |r| <= |s| && r == s[|s| - |r|..]
    ensures r == [] || !IsSpace(r[0])
  {
    if s != [] && IsSpace(s[0]) then SkipSpaces(s[1..]) else s
  }

  /** `s.replace(/\s+/g, '_')`. */
  function CollapseSpaces(s: string): string
    decreases |s|
  {
    if s == [] then []
    else if IsSpace(s[0]) then "_" + CollapseSpaces(SkipSpaces(s[1..]))
    else [s[0]] + CollapseSpaces(s[1..])
  }

  /** The download name of `downloadICS` (src/logic/engine.ts:215). */
  function IcsFileName(title: string): (name: string)
    ensures NoSpace(name)
    ensures |name| >= 4 && name[|name| - 4..] == ".ics"
  {
    CollapseLeavesNoSpace(title);
    NoSpaceConcat(CollapseSpaces(title), ".ics");
    CollapseSpaces(title) + ".ics"
  }

  /** No white space is left. */
  lemma {:induction false} CollapseLeavesNoSpace(s: string)
    ensures NoSpace(CollapseSpaces(s))
    decreases |s|
  {
    if s != [] {
      if IsSpace(s[0]) {
        var t := CollapseSpaces(SkipSpaces(s[1..]));
        CollapseLeavesNoSpace(SkipSpaces(s[1..]));
        assert CollapseSpaces(s) == ['_'] + t;
        NoSpaceCons('_', t);
      } else {
        var t := CollapseSpaces(s[1..]);
        CollapseLeavesNoSpace(s[1..]);
        assert CollapseSpaces(s) == [s[0]] + t;
        NoSpaceCons(s[0], t);
      }
    }
  }

  lemma NoSpaceConcat(a: string, b: string)
    requires NoSpace(a) && NoSpace(b)
    ensures NoSpace(a + b)
  {
    forall i | |a| <= i < |a + b| ensures !IsSpace((a + b)[i]) {
      assert (a + b)[i] == b[i - |a|];
    }
  }

  lemma NoSpaceCons(c: char, t: string)
    requires !IsSpace(c) && NoSpace(t)
    ensures NoSpace([c] + t)
  {
    forall i | 1 <= i < |[c] + t| ensures !IsSpace(([c] + t)[i]) {
      assert ([c] + t)[i] == t[i - 1];
    }
  }

  /** A title without white space is kept as it is. */
  lemma {:induction false} CollapseKeepsPlain(s: string)
    requires NoSpace(s)
    ensures CollapseSpaces(s) == s
  {
    if s != [] {
      CollapseKeepsPlain(s[1..]);
      assert [s[0]] + s[1..] == s;
    }
  }

  /** Renaming twice is renaming once. */
  lemma CollapseIdempotent(s: string)
    ensures CollapseSpaces(CollapseSpaces(s)) == CollapseSpaces(s)
  {
    CollapseLeavesNoSpace(s);
    CollapseKeepsPlain(CollapseSpaces(s));
  }

  /** A whole run of white space between two words becomes one underscore. */
  lemma {:induction false} CollapseRun(word: string, run: string, rest: string)
    requires NoSpace(word) && run != [] && (forall i :: 0 <= i < |run| ==> IsSpace(run[i]))
    requires rest == [] || !IsSpace(rest[0])
    ensures CollapseSpaces(word + run + rest) == word + "_" + CollapseSpaces(rest)
  {
    if word == [] {
      assert word + run + rest == run + rest;
      CollapseLeadingRun(run, rest);
    } else {
      assert (word + run + rest)[1..] == word[1..] + run + rest;
      CollapseRun(word[1..], run, rest);
    }
  }

  /** A run of white space in front collapses to one underscore. */
  lemma CollapseLeadingRun(run: string, rest: string)
    requires run != [] && (forall i :: 0 <= i < |run| ==> IsSpace(run[i]))
    requires rest == [] || !IsSpace(rest[0])
    ensures CollapseSpaces(run + rest) == "_" + CollapseSpaces(rest)
  {
    assert (run + rest)[0] == run[0];
    assert (run + rest)[1..] == run[1..] + rest;
    SkipRun(run[1..], rest);
  }

  lemma {:induction false} SkipRun(run: string, rest: string)
    requires forall i :: 0 <= i < |run| ==> IsSpace(run[i])
    requires rest == [] || !IsSpace(rest[0])
    ensures SkipSpaces(run + rest) == rest
  {
    if run == [] {
      assert run + rest == rest;
    } else {
      assert (run + rest)[1..] == run[1..] + rest;
      SkipRun(run[1..], rest);
    }
  }

}
