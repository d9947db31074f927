/**
 * When a ride happens, relative to the passenger's clock: the expiry test that gates
 * booking, and the "starts in / completed ago" caption of a ride card.
 *
 * Time is local milliseconds counted from 1970-01-01 00:00, with no time zone and no
 * daylight-saving shift. The ride's date text is read either as `D/M` of the current
 * year or by the browser's `Date` parser, which the caller supplies as `parseDate`
 * (None for an Invalid Date). Only the calendar day of a parsed date matters, because
 * the ride time then overwrites hours, minutes, seconds and milliseconds.
 */
module RideTime {
  import opened Wrappers
  import opened Strings
  import opened Domain

  const MinuteMs := 60000
  const HourMs := 3600000
  const DayMs := 86400000

  /** The arguments of `new Date(year, monthIndex, day)`: the month counts from 0 and
      either field may overflow into the next month or year. */
  datatype CivilDate = CivilDate(year: int, monthIndex: int, day: int)

  /** Days from 0000-03-01 to the 1st of March of year `yy + 1` in the proleptic Gregorian calendar. */
  function YearDays(yy: int): int {
    365 * yy + yy / 4 - yy / 100 + yy / 400
  }

  /** Days from the 1st of March to the 1st of the month `mp` months later (`mp < 12`). */
  function MonthOffset(mp: int): int {
    (153 * mp + 2) / 5
  }

  /** Days from 1970-01-01 to the day `new Date(year, monthIndex, day)` denotes: the month
      is carried into the year first, then the day counts from the 1st of that month. */
  function DayNumber(d: CivilDate): int {
    var y := d.year + d.monthIndex / 12;
    var m := d.monthIndex % 12;
    var yy := if m < 2 then y - 1 else y;
    YearDays(yy) + MonthOffset((m + 10) % 12) + d.day - 1 - 719468
  }

  /** The Gregorian leap-year rule. */
  predicate IsLeapYear(y: int) {
    (y % 4 == 0 && y % 100 != 0) || y % 400 == 0
  }

  /** The length of month `m` (0 for January) of year `y`. */
  function DaysInMonth(y: int, m: int): int
    requires 0 <= m < 12
  {
    if m == 1 then (if IsLeapYear(y) then 29 else 28)
    else if m == 3 || m == 5 || m == 8 || m == 10 then 30
    else 31
  }

  /** Consecutive 1sts of the month are a month's length apart, December into the next
      January included; with `DayNumberEpoch` this fixes every day number. */
  lemma MonthLength(y: int, m: int)
    requires 0 <= m < 12
    ensures DayNumber(CivilDate(y, m + 1, 1)) == DayNumber(CivilDate(y, m, 1)) + DaysInMonth(y, m)
  {
    if m == 11 {
      DecemberLength(y);
    } else if m == 1 {
      FebruaryLength(y);
    } else {
      WithinYearLength(y, m);
    }
  }

  /** Every month but February and December starts and ends within one March-based year. */
  lemma WithinYearLength(y: int, m: int)
    requires m == 0 || 2 <= m < 11
    ensures DayNumber(CivilDate(y, m + 1, 1)) == DayNumber(CivilDate(y, m, 1)) + DaysInMonth(y, m)
  {
    var i := if m == 0 then 10 else m - 2;
    var yy := if m == 0 then y - 1 else y;
    StartOfMonth(y, m);
    StartOfMonth(y, m + 1);
    if m == 0 {
      assert (m + 10) % 12 == i && (m + 11) % 12 == i + 1;
    } else {
      MarchBasedIndex(m);
      MarchBasedIndex(m + 1);
    }
    assert DayNumber(CivilDate(y, m, 1)) == YearDays(yy) + MonthOffset(i) - 719468;
    assert DayNumber(CivilDate(y, m + 1, 1)) == YearDays(yy) + MonthOffset(i + 1) - 719468;
    MonthOffsetStep(i);
  }

  /** The length of the March-based month `i`, March being 0. */
  lemma MonthOffsetStep(i: int)
    requires 0 <= i < 11
    ensures MonthOffset(i + 1) - MonthOffset(i) == (if i == 1 || i == 3 || i == 6 || i == 8 then 30 else 31)
  {
    MonthOffsetSteps();
    if i == 0 {} else if i == 1 {} else if i == 2 {} else if i == 3 {} else if i == 4 {}
    else if i == 5 {} else if i == 6 {} else if i == 7 {} else if i == 8 {} else if i == 9 {} else {}
  }

  /** From March on, the March-based month index is the month less two. */
  lemma MarchBasedIndex(m: int)
    requires 2 <= m < 12
    ensures (m + 10) % 12 == m - 2
  {
    assert m + 10 == 12 + (m - 2);
  }

  /** The 1st of month `m` (0 for January) of year `y`, without month overflow. */
  lemma StartOfMonth(y: int, m: int)
    requires 0 <= m < 12
    ensures DayNumber(CivilDate(y, m, 1)) == YearDays(if m < 2 then y - 1 else y) + MonthOffset((m + 10) % 12) - 719468
  {
    assert m / 12 == 0 && m % 12 == m;
  }

  /** December runs into January of the next year, which `new Date` reaches by month overflow. */
  lemma DecemberLength(y: int)
    ensures DayNumber(CivilDate(y, 12, 1)) == DayNumber(CivilDate(y, 11, 1)) + DaysInMonth(y, 11)
  {
    DayNumberMonthOverflow(y, 0, 1);
    DayNumberNewYear(y);
    DayNumberDayOverflow(y, 11, 31);
  }

  lemma MonthOffsetSteps()
    ensures MonthOffset(0) == 0 && MonthOffset(1) == 31 && MonthOffset(2) == 61 && MonthOffset(3) == 92
    ensures MonthOffset(4) == 122 && MonthOffset(5) == 153 && MonthOffset(6) == 184 && MonthOffset(7) == 214
    ensures MonthOffset(8) == 245 && MonthOffset(9) == 275 && MonthOffset(10) == 306 && MonthOffset(11) == 337
  {
  }

  /** February ends where the March-based year ends, so its length is the length of
      that year less the eleven months from March to January. */
  lemma FebruaryLength(y: int)
    ensures DayNumber(CivilDate(y, 2, 1)) == DayNumber(CivilDate(y, 1, 1)) + DaysInMonth(y, 1)
  {
    StartOfMonth(y, 1);
    StartOfMonth(y, 2);
    assert (1 + 10) % 12 == 11 && (2 + 10) % 12 == 0;
    assert MonthOffset(11) == 337 && MonthOffset(0) == 0;
    YearLength(y);
  }

  /** The March-based year ending in year `y` has 366 days exactly when `y` is a leap year. */
  lemma YearLength(y: int)
    ensures YearDays(y) - YearDays(y - 1) == if IsLeapYear(y) then 366 else 365
  {
    DivStep(y, 4);
    DivStep(y, 100);
    DivStep(y, 400);
  }

  lemma DivStep(y: int, k: int)
    requires k == 4 || k == 100 || k == 400
    ensures y / k - (y - 1) / k == if y % k == 0 then 1 else 0
  {
  }

  /** 1 January 1970 is day 0. */
  lemma DayNumberEpoch()
    ensures DayNumber(CivilDate(1970, 0, 1)) == 0
  {
    assert YearDays(1969) == 719162;
  }

  /** `new Date` counts an overflowing day on from the 1st of the month. */
  lemma DayNumberDayOverflow(y: int, m: int, d: int)
    ensures DayNumber(CivilDate(y, m, d + 1)) == DayNumber(CivilDate(y, m, d)) + 1
    ensures DayNumber(CivilDate(y, m, d)) == DayNumber(CivilDate(y, m, 1)) + d - 1
  {
  }

  /** `new Date` carries twelve months into one year. */
  lemma DayNumberMonthOverflow(y: int, m: int, d: int)
    ensures DayNumber(CivilDate(y, m + 12, d)) == DayNumber(CivilDate(y + 1, m, d))
  {
    assert (m + 12) / 12 == m / 12 + 1 && (m + 12) % 12 == m % 12;
  }

  /** New Year's Day follows 31 December. */
  lemma DayNumberNewYear(y: int)
    ensures DayNumber(CivilDate(y + 1, 0, 1)) == DayNumber(CivilDate(y, 11, 31)) + 1
  {
    assert MonthOffset(9) == 275 && MonthOffset(10) == 306;
  }

  /** `date.setHours(h, min, 0, 0)` on a date of day `d`. */
  function LocalMs(d: CivilDate, h: int, min: int): int {
    DayNumber(d) * 86400000 + h * 3600000 + min * 60000
  }

  /** `new Date()`: the current instant and the year `getFullYear()` reports. The year is
      taken as given alongside the instant; `ValidClock` says when it is the year that
      contains the instant, which only the New Year lemmas need. */
  datatype Clock = Clock(ms: int, year: int)

  /** The year of the clock is the year containing its instant. */
  predicate ValidClock(c: Clock) {
    DayNumber(CivilDate(c.year, 0, 1)) * DayMs <= c.ms < DayNumber(CivilDate(c.year + 1, 0, 1)) * DayMs
  }

  /** The day and month of a date matching `/^\d{1,2}\/\d{1,2}$/`, None for any other text. */
  function DayMonthParts(s: string): (r: Option<(string, string)>)
    ensures r.Some? ==> s == r.value.0 + "/" + r.value.1
    ensures r.Some? ==> 1 <= |r.value.0| <= 2 && AllDigits(r.value.0)
    ensures r.Some? ==> 1 <= |r.value.1| <= 2 && AllDigits(r.value.1)
  {
    var day := BeforeFirst(s, '/');
    var rest := AfterFirst(s, '/');
    if rest.Some? && 1 <= |day| <= 2 && AllDigits(day) && 1 <= |rest.value| <= 2 && AllDigits(rest.value)
    then Some((day, rest.value))
    else None
  }

  /** `BeforeFirst` stops at the first separator. */
  lemma {:induction false} BeforeFirstOf(x: string, sep: char, rest: string)
    requires sep !in x
    requires rest == [] || rest[0] == sep
    ensures BeforeFirst(x + rest, sep) == x
  {
    if x != [] {
      assert (x + rest)[1..] == x[1..] + rest;
      BeforeFirstOf(x[1..], sep, rest);
    } else {
      assert x + rest == rest;
    }
  }

  lemma DigitsHaveNo(s: string, c: char)
    requires AllDigits(s) && !IsDigit(c)
    ensures c !in s
  {
  }

  /** Every text of the `D/M` shape is recognised, with its two fields. */
  lemma DayMonthPartsComplete(day: string, month: string)
    requires 1 <= |day| <= 2 && AllDigits(day)
    requires 1 <= |month| <= 2 && AllDigits(month)
    ensures DayMonthParts(day + "/" + month) == Some((day, month))
  {
    var s := day + "/" + month;
    DigitsHaveNo(day, '/');
    BeforeFirstOf(day, '/', "/" + month);
    assert s == day + ("/" + month);
    var rest := AfterFirst(s, '/');
    assert rest.Some?;
    assert s == day + "/" + rest.value;
    assert rest.value == s[|day| + 1..];
  }

  /** `rideTime.split(':')` read with `parseInt`: hours and minutes, None when either is NaN
      (no digits, or no `:` so that the minutes are `undefined`). */
  function ClockTime(rideTime: string): (r: Option<(int, int)>)
    ensures r.Some? ==> ':' in rideTime
  {
    var hours := ParseInt(BeforeFirst(rideTime, ':'));
    var rest := AfterFirst(rideTime, ':');
    var minutes := if rest.Some? then ParseInt(BeforeFirst(rest.value, ':')) else None;
    if hours.Some? && minutes.Some? then Some((hours.value, minutes.value)) else None
  }

  /** `HH:MM`, and `HH:MM:SS` as the backend sends it, give those hours and minutes;
      any seconds are ignored. */
  lemma ClockTimeOfDigits(h: string, min: string, seconds: string)
    requires h != [] && AllDigits(h) && min != [] && AllDigits(min)
    requires seconds == [] || seconds[0] == ':'
    ensures ClockTime(h + ":" + min + seconds) == Some((DigitsValue(h) as int, DigitsValue(min) as int))
  {
    DigitsHaveNo(h, ':');
    DigitsHaveNo(min, ':');
    assert h + ":" + min + seconds == h + [':'] + (min + seconds);
    SplitAtFirst(h, ':', min + seconds);
    BeforeFirstOf(min, ':', seconds);
    ParseIntOfDigits(h);
    ParseIntOfDigits(min);
  }

  lemma ClockTimeOfHourMinute(h: string, min: string)
    requires h != [] && AllDigits(h) && min != [] && AllDigits(min)
    ensures ClockTime(h + ":" + min) == Some((DigitsValue(h) as int, DigitsValue(min) as int))
  {
    ClockTimeOfDigits(h, min, []);
    assert h + ":" + min + [] == h + ":" + min;
  }

  /** Splitting at the first separator gives back the two sides. */
  lemma {:induction false} SplitAtFirst(x: string, sep: char, rest: string)
    requires sep !in x
    ensures BeforeFirst(x + [sep] + rest, sep) == x
    ensures AfterFirst(x + [sep] + rest, sep) == Some(rest)
  {
    if x != [] {
      assert (x + [sep] + rest)[1..] == x[1..] + [sep] + rest;
      SplitAtFirst(x[1..], sep, rest);
    } else {
      assert x + [sep] + rest == [sep] + rest;
    }
  }

  /** The day `isRideExpired` reads from the date text: `D/M` in the clock's year
      (`parseInt(month) - 1`, `parseInt(day)`), other text through the `Date` parser. */
  function ExpiryDay(rideDate: string, clock: Clock, parseDate: string -> Option<CivilDate>): Option<CivilDate> {
    match DayMonthParts(rideDate)
    case Some((day, month)) => Some(CivilDate(clock.year, DigitsValue(month) - 1, DigitsValue(day)))
    case None => parseDate(rideDate)
  }

  /** The instant a day and a time text give after `setHours`; None for NaN. */
  function AtTime(day: Option<CivilDate>, rideTime: string): (t: Option<int>)
    ensures t.Some? <==> day.Some? && ClockTime(rideTime).Some?
  {
    var time := ClockTime(rideTime);
    if day.Some? && time.Some? then Some(LocalMs(day.value, time.value.0, time.value.1)) else None
  }

  /** `isRideExpired(rideDate, rideTime)`. */
  function IsRideExpired(rideDate: Option<string>, rideTime: Option<string>, clock: Clock,
                         parseDate: string -> Option<CivilDate>): (expired: bool)
    ensures !TruthyText(rideDate) || !TruthyText(rideTime) ==> !expired
  {
    if !TruthyText(rideDate) || !TruthyText(rideTime) then false
    else
      var t := AtTime(ExpiryDay(rideDate.value, clock, parseDate), rideTime.value);
      t.Some? && t.value < clock.ms
  }

  /** A `D/M` date with an `HH:MM` time, whose fields denote the numbers `dd`, `mm`, `hh`
      and `mi`, is day `dd` of month `mm` of the current year at `hh:mi`, seconds zeroed,
      and the ride is expired exactly when that instant is before now. */
  lemma DayMonthRideExpiry(day: string, month: string, h: string, min: string, clock: Clock,
                           parseDate: string -> Option<CivilDate>, dd: int, mm: int, hh: int, mi: int)
    requires 1 <= |day| <= 2 && AllDigits(day) && 1 <= |month| <= 2 && AllDigits(month)
    requires h != [] && AllDigits(h) && min != [] && AllDigits(min)
    requires dd == DigitsValue(day) && mm == DigitsValue(month) && hh == DigitsValue(h) && mi == DigitsValue(min)
    ensures IsRideExpired(Some(day + "/" + month), Some(h + ":" + min), clock, parseDate)
      <==> LocalMs(CivilDate(clock.year, mm - 1, dd), hh, mi) < clock.ms
  {
    var rideDate := day + "/" + month;
    var rideTime := h + ":" + min;
    DayMonthDay(day, month, rideDate, clock, parseDate, dd, mm);
    HourMinuteTime(h, min, rideTime, hh, mi);
    ExpiryOfKnownParts(rideDate, rideTime, clock, parseDate, CivilDate(clock.year, mm - 1, dd), hh, mi);
  }

  lemma DayMonthDay(day: string, month: string, rideDate: string, clock: Clock,
                    parseDate: string -> Option<CivilDate>, dd: int, mm: int)
    requires 1 <= |day| <= 2 && AllDigits(day) && 1 <= |month| <= 2 && AllDigits(month)
    requires rideDate == day + "/" + month && dd == DigitsValue(day) && mm == DigitsValue(month)
    ensures rideDate != "" && ExpiryDay(rideDate, clock, parseDate) == Some(CivilDate(clock.year, mm - 1, dd))
  {
    ExpiryDayOfDayMonth(day, month, clock, parseDate);
  }

  lemma HourMinuteTime(h: string, min: string, rideTime: string, hh: int, mi: int)
    requires h != [] && AllDigits(h) && min != [] && AllDigits(min)
    requires rideTime == h + ":" + min && hh == DigitsValue(h) && mi == DigitsValue(min)
    ensures rideTime != "" && ClockTime(rideTime) == Some((hh, mi))
  {
    ClockTimeOfHourMinute(h, min);
  }

  lemma ExpiryOfKnownParts(rideDate: string, rideTime: string, clock: Clock, parseDate: string -> Option<CivilDate>,
                           d: CivilDate, hh: int, mi: int)
    requires rideDate != "" && rideTime != ""
    requires ExpiryDay(rideDate, clock, parseDate) == Some(d) && ClockTime(rideTime) == Some((hh, mi))
    ensures IsRideExpired(Some(rideDate), Some(rideTime), clock, parseDate) <==> LocalMs(d, hh, mi) < clock.ms
  {
    ExpiryOfParts(rideDate, rideTime, clock, parseDate);
  }

  lemma ExpiryDayOfDayMonth(day: string, month: string, clock: Clock, parseDate: string -> Option<CivilDate>)
    requires 1 <= |day| <= 2 && AllDigits(day) && 1 <= |month| <= 2 && AllDigits(month)
    ensures ExpiryDay(day + "/" + month, clock, parseDate)
      == Some(CivilDate(clock.year, DigitsValue(month) - 1, DigitsValue(day)))
  {
    DayMonthPartsComplete(day, month);
  }

  lemma ExpiryOfParts(rideDate: string, rideTime: string, clock: Clock, parseDate: string -> Option<CivilDate>)
    requires rideDate != "" && rideTime != ""
    requires ExpiryDay(rideDate, clock, parseDate).Some? && ClockTime(rideTime).Some?
    ensures var d := ExpiryDay(rideDate, clock, parseDate).value;
      var time := ClockTime(rideTime).value;
      IsRideExpired(Some(rideDate), Some(rideTime), clock, parseDate) <==> LocalMs(d, time.0, time.1) < clock.ms
  {
  }

  /** The test is strict: at the minute a ride starts it is not yet expired, one
      millisecond later it is. */
  lemma ExpiryIsStrict(rideDate: string, rideTime: string, clock: Clock,
                       parseDate: string -> Option<CivilDate>)
    requires rideDate != "" && rideTime != ""
    requires AtTime(ExpiryDay(rideDate, clock, parseDate), rideTime) == Some(clock.ms)
    ensures !IsRideExpired(Some(rideDate), Some(rideTime), clock, parseDate)
    ensures IsRideExpired(Some(rideDate), Some(rideTime), Clock(clock.ms + 1, clock.year), parseDate)
  {
  }

  /** A date text the `Date` parser rejects never expires. */
  lemma InvalidDateNeverExpires(rideDate: string, rideTime: Option<string>, clock: Clock,
                                parseDate: string -> Option<CivilDate>)
    requires DayMonthParts(rideDate).None? && parseDate(rideDate).None?
    ensures !IsRideExpired(Some(rideDate), rideTime, clock, parseDate)
  {
  }

  /** "10/01" is read as 10 January of the clock's year. */
  lemma TenthOfJanuaryDay(clock: Clock, parseDate: string -> Option<CivilDate>)
    ensures ExpiryDay("10/01", clock, parseDate) == Some(CivilDate(clock.year, 0, 10))
  {
    assert DigitsValue("01") == 1;
    assert DigitsValue("10") == 10;
    assert "10" + "/" + "01" == "10/01";
    ExpiryDayOfDayMonth("10", "01", clock, parseDate);
  }

  /** "09:00" is read as 9 hours and 0 minutes. */
  lemma NineOClock()
    ensures ClockTime("09:00") == Some((9, 0))
  {
    assert DigitsValue("09") == 9;
    assert DigitsValue("00") == 0;
    assert "09" + ":" + "00" + [] == "09:00";
    ClockTimeOfDigits("09", "00", []);
  }

  /** "10/01" at "09:00" expires at 09:00 on 10 January of the clock's year. */
  lemma TenthOfJanuary(clock: Clock, parseDate: string -> Option<CivilDate>)
    ensures IsRideExpired(Some("10/01"), Some("09:00"), clock, parseDate)
      <==> LocalMs(CivilDate(clock.year, 0, 10), 9, 0) < clock.ms
  {
    TenthOfJanuaryDay(clock, parseDate);
    NineOClock();
    ExpiryOfParts("10/01", "09:00", clock, parseDate);
  }

  /** 23:00 on 31 December 2025 and the hour after it, as clocks. */
  lemma NewYearClocks()
    ensures ValidClock(Clock(LocalMs(CivilDate(2025, 11, 31), 23, 0), 2025))
    ensures ValidClock(Clock(LocalMs(CivilDate(2026, 0, 1), 0, 0), 2026))
    ensures LocalMs(CivilDate(2026, 0, 1), 0, 0) == LocalMs(CivilDate(2025, 11, 31), 23, 0) + HourMs
  {
    assert YearDays(2024) == 739251 && YearDays(2025) == 739616 && YearDays(2026) == 739981;
    assert MonthOffset(9) == 275 && MonthOffset(10) == 306;
    assert DayNumber(CivilDate(2025, 0, 1)) == 20089;
    assert DayNumber(CivilDate(2025, 11, 31)) == 20453;
    assert DayNumber(CivilDate(2026, 0, 1)) == 20454;
    assert DayNumber(CivilDate(2027, 0, 1)) == 20819;
  }

  /** Because `D/M` is read in the current year, a ride on 10 January at 09:00 that is
      expired at 23:00 on 31 December 2025 is bookable again an hour later, on
      1 January 2026 (for the next 10 January). */
  lemma DayMonthRideRevivesAtNewYear(parseDate: string -> Option<CivilDate>)
    ensures IsRideExpired(Some("10/01"), Some("09:00"), Clock(LocalMs(CivilDate(2025, 11, 31), 23, 0), 2025), parseDate)
    ensures !IsRideExpired(Some("10/01"), Some("09:00"), Clock(LocalMs(CivilDate(2026, 0, 1), 0, 0), 2026), parseDate)
  {
    NewYearClocks();
    ExpiredOnNewYearsEve(parseDate);
    BookableOnNewYearsDay(parseDate);
  }

  lemma ExpiredOnNewYearsEve(parseDate: string -> Option<CivilDate>)
    ensures IsRideExpired(Some("10/01"), Some("09:00"), Clock(LocalMs(CivilDate(2025, 11, 31), 23, 0), 2025), parseDate)
  {
    var clock := Clock(LocalMs(CivilDate(2025, 11, 31), 23, 0), 2025);
    TenthOfJanuary(clock, parseDate);
    LastDayOf2025();
    LaterInstant(CivilDate(2025, 11, 31), CivilDate(2025, 0, 10), 355, 23, 9);
  }

  lemma LastDayOf2025()
    ensures DayNumber(CivilDate(2025, 11, 31)) == DayNumber(CivilDate(2025, 0, 10)) + 355
  {
    assert YearDays(2024) == 739251;
    assert YearDays(2025) == 739616;
  }

  lemma BookableOnNewYearsDay(parseDate: string -> Option<CivilDate>)
    ensures !IsRideExpired(Some("10/01"), Some("09:00"), Clock(LocalMs(CivilDate(2026, 0, 1), 0, 0), 2026), parseDate)
  {
    var clock := Clock(LocalMs(CivilDate(2026, 0, 1), 0, 0), 2026);
    TenthOfJanuary(clock, parseDate);
    DayNumberDayOverflow(2026, 0, 10);
    LaterInstant(CivilDate(2026, 0, 10), CivilDate(2026, 0, 1), 9, 9, 0);
  }

  /** An instant `k >= 1` days later is later whatever the hours of the day. */
  lemma LaterInstant(later: CivilDate, earlier: CivilDate, k: int, lateHour: int, earlyHour: int)
    requires k >= 1 && DayNumber(later) == DayNumber(earlier) + k
    requires 0 <= lateHour < 24 && 0 <= earlyHour < 24
    ensures LocalMs(earlier, earlyHour, 0) < LocalMs(later, lateHour, 0)
  {
  }

  datatype Direction = StartsIn | CompletedAgo

  datatype Unit = Minutes | Hours | Days

  /** What `getRideTimeStatus` says: nothing, the NaN caption of an invalid date, or a
      whole number of minutes, hours or days to or since the start. */
  datatype TimeStatus = NoTimes | NaNTime | Span(direction: Direction, amount: nat, unit: Unit)

  /** The bucket of a difference `start - now` in milliseconds; the floating-point
      divisions of the source are taken as exact. */
  function ClassifyDiff(diff: int): (s: TimeStatus)
    ensures s.Span?
    ensures s.direction == StartsIn <==> diff > 0
    ensures var a := if diff > 0 then diff else -diff;
      && (s.unit == Minutes <==> a < HourMs)
      && (s.unit == Hours <==> HourMs <= a < DayMs)
      && (s.unit == Days <==> DayMs <= a)
      && (var unitMs := if s.unit == Minutes then MinuteMs else if s.unit == Hours then HourMs else DayMs;
          s.amount * unitMs <= a < (s.amount + 1) * unitMs)
  {
    var direction := if diff > 0 then StartsIn else CompletedAgo;
    var a := if diff > 0 then diff else -diff;
    if a < HourMs then Span(direction, a / MinuteMs, Minutes)
    else if a < DayMs then Span(direction, a / HourMs, Hours)
    else Span(direction, a / DayMs, Days)
  }

  /** Each unit covers its own range: under an hour at most 59 minutes, then 1 to 23
      hours, then at least one day. */
  lemma ClassifyDiffRanges(diff: int)
    ensures var s := ClassifyDiff(diff);
      && (s.unit == Minutes ==> s.amount < 60)
      && (s.unit == Hours ==> 1 <= s.amount < 24)
      && (s.unit == Days ==> 1 <= s.amount)
  {
  }

  /** The caption text of a status. */
  function Render(s: TimeStatus): (text: string)
    ensures text == "" <==> s.NoTimes?
    ensures s.Span? && s.direction == StartsIn ==> "Starts in " <= text
    ensures s.Span? && s.direction == CompletedAgo ==> "Completed " <= text
    ensures s.NaNTime? ==> "Completed " <= text
  {
    match s
    case NoTimes => ""
    case NaNTime => "Completed NaN day ago"
    case Span(direction, n, unit) =>
      (if direction == StartsIn then "Starts in " else "Completed ") + NatToString(n) + CaptionTail(direction, n, unit)
  }

  /** The words after the amount: the unit, plural except for a single day, then " ago"
      for a past ride. */
  function CaptionTail(direction: Direction, n: nat, unit: Unit): string {
    (match unit
     case Minutes => " minutes"
     case Hours => " hours"
     case Days => if n > 1 then " days" else " day")
    + (if direction == CompletedAgo then " ago" else "")
  }

  /** Every caption of a span is its direction's prefix, the amount as decimal text
      (which `parseInt` reads back), then the unit word and " ago" exactly for a past
      ride: " minutes" and " hours" always plural, " day" only for one day. */
  lemma {:induction false} SpanCaption(direction: Direction, n: nat, unit: Unit)
    ensures var text := Render(Span(direction, n, unit));
      var prefix := if direction == StartsIn then "Starts in " else "Completed ";
      && prefix <= text
      && text[|prefix|..] == NatToString(n) + CaptionTail(direction, n, unit)
      && ParseInt(text[|prefix|..]) == Some(n)
  {
    var text := Render(Span(direction, n, unit));
    var prefix := if direction == StartsIn then "Starts in " else "Completed ";
    var tail := CaptionTail(direction, n, unit);
    CaptionIsPrefixed(direction, n, unit, text, prefix, tail);
    assert text[|prefix|..] == NatToString(n) + tail;
    CaptionTailWords(direction, n, unit);
    TailReadsBack(n, tail);
  }

  lemma CaptionIsPrefixed(direction: Direction, n: nat, unit: Unit, text: string, prefix: string, tail: string)
    requires text == Render(Span(direction, n, unit))
    requires prefix == (if direction == StartsIn then "Starts in " else "Completed ")
    requires tail == CaptionTail(direction, n, unit)
    ensures text == prefix + (NatToString(n) + tail)
  {
  }

  lemma TailReadsBack(n: nat, tail: string)
    requires tail != [] && tail[0] == ' '
    ensures ParseInt(NatToString(n) + tail) == Some(n)
  {
    ParseIntOfDigitsThen(NatToString(n), tail);
    DigitsValueOfNatToString(n);
  }

  /** The tail names the unit and ends in " ago" exactly for a past ride. */
  lemma CaptionTailWords(direction: Direction, n: nat, unit: Unit)
    ensures var tail := CaptionTail(direction, n, unit);
      var ago := if direction == CompletedAgo then " ago" else "";
      && tail[0] == ' '
      && (unit == Minutes ==> tail == " minutes" + ago)
      && (unit == Hours ==> tail == " hours" + ago)
      && (unit == Days ==> tail == (if n > 1 then " days" else " day") + ago)
      && (|tail| >= 4 && tail[|tail| - 4..] == " ago" <==> direction == CompletedAgo)
  {
    var tail := CaptionTail(direction, n, unit);
    var word := match unit
      case Minutes => " minutes"
      case Hours => " hours"
      case Days => if n > 1 then " days" else " day";
    assert |word| >= 4 && word[|word| - 1] != 'o';
    if direction == CompletedAgo {
      assert tail == word + " ago";
      assert tail[|tail| - 4..] == " ago";
    } else {
      assert tail == word;
      assert tail[|tail| - 1] != 'o';
    }
  }

  /** A ride with both fields and a valid instant is captioned by the bucket of its
      distance from now. */
  lemma CaptionOfInstant(rideDate: string, rideTime: string, clock: Clock,
                         parseDate: string -> Option<CivilDate>, t: int)
    requires rideDate != "" && rideTime != "" && StatusInstant(rideDate, rideTime, parseDate) == Some(t)
    ensures GetRideTimeStatus(Some(rideDate), Some(rideTime), clock, parseDate) == Render(ClassifyDiff(t - clock.ms))
  {
    var s := RideTimeStatus(Some(rideDate), Some(rideTime), clock, parseDate);
    assert StatusInstant(rideDate, rideTime, parseDate).Some?;
    assert s.Span?;
    assert s == ClassifyDiff(t - clock.ms);
  }

  /** The instant `getRideTimeStatus` computes: every date text through the `Date` parser. */
  function StatusInstant(rideDate: string, rideTime: string, parseDate: string -> Option<CivilDate>): (t: Option<int>)
    ensures t.Some? <==> parseDate(rideDate).Some? && ClockTime(rideTime).Some?
    ensures t.Some? ==> t.value == LocalMs(parseDate(rideDate).value, ClockTime(rideTime).value.0, ClockTime(rideTime).value.1)
  {
    AtTime(parseDate(rideDate), rideTime)
  }

  function RideTimeStatus(rideDate: Option<string>, rideTime: Option<string>, clock: Clock,
                          parseDate: string -> Option<CivilDate>): (s: TimeStatus)
    ensures s.NoTimes? <==> !TruthyText(rideDate) || !TruthyText(rideTime)
    ensures s.NaNTime? <==> TruthyText(rideDate) && TruthyText(rideTime)
                            && StatusInstant(rideDate.value, rideTime.value, parseDate).None?
    ensures s.Span? ==> s == ClassifyDiff(StatusInstant(rideDate.value, rideTime.value, parseDate).value - clock.ms)
  {
    if !TruthyText(rideDate) || !TruthyText(rideTime) then NoTimes
    else
      var t := StatusInstant(rideDate.value, rideTime.value, parseDate);
      if t.None? then NaNTime else ClassifyDiff(t.value - clock.ms)
  }

  /** `getRideTimeStatus(rideDate, rideTime)`. */
  function GetRideTimeStatus(rideDate: Option<string>, rideTime: Option<string>, clock: Clock,
                             parseDate: string -> Option<CivilDate>): (text: string)
    ensures text == "" <==> !TruthyText(rideDate) || !TruthyText(rideTime)
  {
    Render(RideTimeStatus(rideDate, rideTime, clock, parseDate))
  }

  /** The caption says "Starts in" exactly for a start strictly in the future, and
      "Completed" for every other ride with both fields, an invalid date included. */
  lemma StartsInIffFuture(rideDate: string, rideTime: string, clock: Clock,
                          parseDate: string -> Option<CivilDate>)
    requires rideDate != "" && rideTime != ""
    ensures var text := GetRideTimeStatus(Some(rideDate), Some(rideTime), clock, parseDate);
      var t := StatusInstant(rideDate, rideTime, parseDate);
      && ("Starts in " <= text <==> t.Some? && t.value > clock.ms)
      && ("Completed " <= text <==> !(t.Some? && t.value > clock.ms))
  {
    var text := GetRideTimeStatus(Some(rideDate), Some(rideTime), clock, parseDate);
    assert "Starts in "[0] != "Completed "[0];
    if "Starts in " <= text {
      assert text[0] == 'S';
    }
    if "Completed " <= text {
      assert text[0] == 'C';
    }
  }

  /** A date text the `Date` parser rejects is captioned as completed NaN days ago. */
  lemma InvalidDateCaption(rideDate: string, rideTime: string, clock: Clock,
                           parseDate: string -> Option<CivilDate>)
    requires rideDate != "" && rideTime != "" && parseDate(rideDate).None?
    ensures GetRideTimeStatus(Some(rideDate), Some(rideTime), clock, parseDate) == "Completed NaN day ago"
  {
  }

  /** For a date text that is not `D/M` both functions read the same instant; then an
      expired ride is captioned "Completed", a ride captioned "Starts in" is bookable,
      and at the very minute of the start it is captioned "Completed 0 minutes ago"
      while it can still be booked. */
  lemma CaptionAgreesWithExpiry(rideDate: string, rideTime: string, clock: Clock,
                                parseDate: string -> Option<CivilDate>)
    requires rideDate != "" && rideTime != "" && DayMonthParts(rideDate).None?
    ensures var text := GetRideTimeStatus(Some(rideDate), Some(rideTime), clock, parseDate);
      var expired := IsRideExpired(Some(rideDate), Some(rideTime), clock, parseDate);
      && (expired ==> "Completed " <= text)
      && ("Starts in " <= text ==> !expired)
      && (StatusInstant(rideDate, rideTime, parseDate) == Some(clock.ms) ==>
            !expired && text == "Completed 0 minutes ago")
  {
    StartsInIffFuture(rideDate, rideTime, clock, parseDate);
    ExpiryReadsStatusInstant(rideDate, rideTime, clock, parseDate);
    if StatusInstant(rideDate, rideTime, parseDate) == Some(clock.ms) {
      CaptionAtStart(rideDate, rideTime, clock, parseDate);
    }
  }

  lemma ExpiryReadsStatusInstant(rideDate: string, rideTime: string, clock: Clock,
                                 parseDate: string -> Option<CivilDate>)
    requires rideDate != "" && rideTime != "" && DayMonthParts(rideDate).None?
    ensures var t := StatusInstant(rideDate, rideTime, parseDate);
      IsRideExpired(Some(rideDate), Some(rideTime), clock, parseDate) <==> t.Some? && t.value < clock.ms
  {
    assert ExpiryDay(rideDate, clock, parseDate) == parseDate(rideDate);
  }

  lemma CaptionAtStart(rideDate: string, rideTime: string, clock: Clock,
                       parseDate: string -> Option<CivilDate>)
    requires rideDate != "" && rideTime != ""
    requires StatusInstant(rideDate, rideTime, parseDate) == Some(clock.ms)
    ensures GetRideTimeStatus(Some(rideDate), Some(rideTime), clock, parseDate) == "Completed 0 minutes ago"
  {
    StatusAtStart(rideDate, rideTime, clock, parseDate);
    ZeroMinutesAgo();
  }

  lemma StatusAtStart(rideDate: string, rideTime: string, clock: Clock,
                      parseDate: string -> Option<CivilDate>)
    requires rideDate != "" && rideTime != ""
    requires StatusInstant(rideDate, rideTime, parseDate) == Some(clock.ms)
    ensures RideTimeStatus(Some(rideDate), Some(rideTime), clock, parseDate) == Span(CompletedAgo, 0, Minutes)
  {
  }

  lemma ZeroMinutesAgo()
    ensures Render(Span(CompletedAgo, 0, Minutes)) == "Completed 0 minutes ago"
  {
    assert NatToString(0) == "0";
    assert NatToString(0) + " minutes" == "0 minutes";
    assert "Completed " + "0 minutes" + " ago" == "Completed 0 minutes ago";
  }
}
