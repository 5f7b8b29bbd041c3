/** The proleptic Gregorian calendar of the on-disk segment tree.

    Two programs compute it: the qualification script with flooring division
    and the layout crate with truncating division. */
module Calendar {
  const MICROS_PER_DAY: int := 86_400_000_000

  lemma MicrosPerDay()
    ensures MICROS_PER_DAY == 24 * 60 * 60 * 1_000_000
  {
  }

  datatype Date = Date(year: int, month: int, day: int)

  // ---- The reference calendar: leap years, month lengths, the next day ----

  predicate IsLeap(year: int) {
    year % 4 == 0 && (year % 100 != 0 || year % 400 == 0)
  }

  function MonthLength(year: int, month: int): (n: int)
    requires 1 <= month <= 12
    ensures 28 <= n <= 31
  {
    if month == 2 then (if IsLeap(year) then 29 else 28)
    else if month == 4 || month == 6 || month == 9 || month == 11 then 30
    else 31
  }

  predicate IsDate(d: Date) {
    1 <= d.month <= 12 && 1 <= d.day <= MonthLength(d.year, d.month)
  }

  function NextDay(d: Date): (next: Date)
    requires IsDate(d)
    ensures IsDate(next)
  {
    if d.day < MonthLength(d.year, d.month) then Date(d.year, d.month, d.day + 1)
    else if d.month < 12 then Date(d.year, d.month + 1, 1)
    else Date(d.year + 1, 1, 1)
  }

  const EPOCH := Date(1970, 1, 1)

  // ---- Counting days up to a date ----

  /** Days from 0000-01-01 to `year`-01-01. */
  function DaysBeforeYear(year: int): int {
    365 * year + (year - 1) / 4 - (year - 1) / 100 + (year - 1) / 400 + 1
  }

  function DaysBeforeMonth(year: int, month: int): int
    requires 1 <= month <= 12
  {
    if month == 1 then 0
    else DaysBeforeMonth(year, month - 1) + MonthLength(year, month - 1)
  }

  /** Days from the Unix epoch to a date. */
  function DaysFromCivil(d: Date): int
    requires 1 <= d.month <= 12
  {
    DaysBeforeYear(d.year) + DaysBeforeMonth(d.year, d.month) + d.day - 1 - 719_528
  }

  /** Passing a multiple of `divisor` advances the quotient, nothing else does. */
  lemma QuotientStep(n: int, divisor: int)
    requires divisor > 1
    ensures n / divisor - (n - 1) / divisor == if n % divisor == 0 then 1 else 0
  {
    var q, r := n / divisor, n % divisor;
    assert n == divisor * q + r;
    if r == 0 {
      QuotientUnique(n - 1, divisor, q - 1, divisor - 1);
    } else {
      QuotientUnique(n - 1, divisor, q, r - 1);
    }
  }

  lemma ProductSign(a: int, b: int)
    requires a > 0
    ensures b >= 1 ==> a * b >= a
    ensures b <= -1 ==> a * b <= -a
  {
  }

  lemma QuotientUnique(n: int, divisor: int, q: int, r: int)
    requires divisor > 0 && 0 <= r < divisor && n == divisor * q + r
    ensures n / divisor == q && n % divisor == r
  {
    var p := n / divisor;
    assert n == divisor * p + n % divisor;
    assert divisor * (p - q) == r - n % divisor;
    ProductSign(divisor, p - q);
  }

  lemma YearLength(year: int)
    ensures DaysBeforeYear(year + 1) - DaysBeforeYear(year) == if IsLeap(year) then 366 else 365
  {
    QuotientStep(year, 4);
    QuotientStep(year, 100);
    QuotientStep(year, 400);
  }

  lemma MonthTable(year: int)
    ensures DaysBeforeMonth(year, 1) == 0
    ensures DaysBeforeMonth(year, 2) == 31
    ensures var leap := if IsLeap(year) then 1 else 0;
            && DaysBeforeMonth(year, 3) == 59 + leap && DaysBeforeMonth(year, 4) == 90 + leap
            && DaysBeforeMonth(year, 5) == 120 + leap && DaysBeforeMonth(year, 6) == 151 + leap
            && DaysBeforeMonth(year, 7) == 181 + leap && DaysBeforeMonth(year, 8) == 212 + leap
            && DaysBeforeMonth(year, 9) == 243 + leap && DaysBeforeMonth(year, 10) == 273 + leap
            && DaysBeforeMonth(year, 11) == 304 + leap && DaysBeforeMonth(year, 12) == 334 + leap
  {
    assert DaysBeforeMonth(year, 4) == DaysBeforeMonth(year, 3) + 31;
    assert DaysBeforeMonth(year, 6) == DaysBeforeMonth(year, 5) + 31;
    assert DaysBeforeMonth(year, 8) == DaysBeforeMonth(year, 7) + 31;
    assert DaysBeforeMonth(year, 10) == DaysBeforeMonth(year, 9) + 30;
  }

  /** Counting agrees with the successor: the next day is one day later. */
  lemma NextDayAddsOne(d: Date)
    requires IsDate(d)
    ensures DaysFromCivil(NextDay(d)) == DaysFromCivil(d) + 1
  {
    MonthTable(d.year);
    if d.month == 12 && d.day == 31 {
      YearLength(d.year);
    }
  }

  lemma DayInYear(d: Date)
    requires IsDate(d)
    ensures 0 <= DaysBeforeMonth(d.year, d.month) + d.day - 1 < if IsLeap(d.year) then 366 else 365
  {
    MonthTable(d.year);
  }

  lemma DayInMonthUnique(a: Date, b: Date)
    requires IsDate(a) && IsDate(b) && a.year == b.year
    requires DaysBeforeMonth(a.year, a.month) + a.day == DaysBeforeMonth(b.year, b.month) + b.day
    ensures a == b
  {
    MonthTable(a.year);
  }

  lemma YearsAreOrdered(y: int, z: int)
    requires y < z
    ensures DaysBeforeYear(y + 1) <= DaysBeforeYear(z)
  {
    assert (y + 1 - 1) / 4 <= (z - 1) / 4 && (y + 1 - 1) / 400 <= (z - 1) / 400;
    assert (z - 1) / 100 - (y + 1 - 1) / 100 <= z - y;
  }

  /** No two dates share a day number. */
  lemma DaysFromCivilInjective(a: Date, b: Date)
    requires IsDate(a) && IsDate(b) && DaysFromCivil(a) == DaysFromCivil(b)
    ensures a == b
  {
    DayInYear(a);
    DayInYear(b);
    YearLength(a.year);
    YearLength(b.year);
    if a.year < b.year {
      YearsAreOrdered(a.year, b.year);
    } else if b.year < a.year {
      YearsAreOrdered(b.year, a.year);
    } else {
      DayInMonthUnique(a, b);
    }
  }

  // ---- The division formula ----

  /** Year of a 400-year era that starts on 1 March. */
  function YearOfEra(dayOfEra: int): int {
    (dayOfEra - dayOfEra / 1_460 + dayOfEra / 36_524 - dayOfEra / 146_096) / 365
  }

  /** Days before a March-based year of the era. */
  function EraYearStart(year: int): int {
    365 * year + year / 4 - year / 100
  }

  /** The month and day of a day offset from 1 March; January and February
      belong to the next calendar year. */
  function FromMarchYear(year: int, dayOfYear: int): Date {
    var monthPrime := (5 * dayOfYear + 2) / 153;
    var day := dayOfYear - (153 * monthPrime + 2) / 5 + 1;
    var month := monthPrime + (if monthPrime < 10 then 3 else -9);
    Date(if month <= 2 then year + 1 else year, month, day)
  }

  function FromDayOfEra(era: int, dayOfEra: int): Date {
    var yearOfEra := YearOfEra(dayOfEra);
    FromMarchYear(yearOfEra + era * 400, dayOfEra - EraYearStart(yearOfEra))
  }

  function CivilFromDays(days: int): Date {
    var shifted := days + 719_468;
    var era := shifted / 146_097;
    FromDayOfEra(era, shifted - era * 146_097)
  }

  /** Inside one century the correction terms select the year exactly. */
  lemma CenturyYear(c: int, r: int)
    requires 0 <= c <= 3 && 0 <= r < 36_524
    ensures var k := (r - (24 * c + r) / 1_460) / 365;
            0 <= k <= 99 && 365 * k + k / 4 <= r < 365 * (k + 1) + (k + 1) / 4
  {
    var j, s := r / 1_461, r % 1_461;
    var q := (24 * c + r) / 1_460;
    var e := if 24 * c + j + s < 1_460 then 0 else 1;
    assert q == j + e;
    assert r - q == 1_460 * j + (s - e);
    var m := (s - e) / 365;
    assert 0 <= m <= 3;
    assert (r - q) / 365 == 4 * j + m;
    var k := 4 * j + m;
    assert k / 4 == j;
    assert (k + 1) / 4 == if m == 3 then j + 1 else j;
  }

  lemma YearOfEraBrackets(dayOfEra: int)
    requires 0 <= dayOfEra < 146_097
    ensures var y := YearOfEra(dayOfEra);
            && 0 <= y <= 399 && EraYearStart(y) <= dayOfEra
            && (dayOfEra < EraYearStart(y + 1) || (y == 399 && dayOfEra == 146_096))
  {
    if dayOfEra < 146_096 {
      var c, r := dayOfEra / 36_524, dayOfEra % 36_524;
      CenturyYear(c, r);
      var k := (r - (24 * c + r) / 1_460) / 365;
      assert dayOfEra / 1_460 == 25 * c + (24 * c + r) / 1_460;
      assert YearOfEra(dayOfEra) == 100 * c + k;
      assert (100 * c + k) / 100 == c && (100 * c + k) / 4 == 25 * c + k / 4;
      if k == 99 {
        assert (100 * c + k + 1) / 100 == c + 1;
      } else {
        assert (100 * c + k + 1) / 100 == c;
      }
      assert (100 * c + k + 1) / 4 == 25 * c + (k + 1) / 4;
    }
  }

  /** What the year arithmetic leaves is a day offset inside one March-based year. */
  lemma DayOfMarchYear(era: int, dayOfEra: int) returns (y: int, doy: int)
    requires 0 <= dayOfEra < 146_097
    ensures y == YearOfEra(dayOfEra) && dayOfEra == EraYearStart(y) + doy
    ensures 0 <= y <= 399 && 0 <= doy <= 365 && (doy == 365 ==> IsLeap(y + era * 400 + 1))
  {
    YearOfEraBrackets(dayOfEra);
    y := YearOfEra(dayOfEra);
    doy := dayOfEra - EraYearStart(y);
    QuotientStep(y + 1, 4);
    QuotientStep(y + 1, 100);
    if doy == 365 {
      EraYearLeap(era, y + 1);
    }
  }

  /** Whole eras do not change the remainders that decide a leap year. */
  lemma EraQuotients(era: int, y: int)
    requires 0 <= y <= 400
    ensures var year := y + era * 400;
            && year / 4 == 100 * era + y / 4 && year % 4 == y % 4
            && year / 100 == 4 * era + y / 100 && year % 100 == y % 100
            && year / 400 == era + y / 400 && year % 400 == y % 400
  {
    QuotientUnique(y + era * 400, 4, 100 * era + y / 4, y % 4);
    QuotientUnique(y + era * 400, 100, 4 * era + y / 100, y % 100);
    QuotientUnique(y + era * 400, 400, era + y / 400, y % 400);
  }

  lemma EraYearLeap(era: int, y: int)
    requires 0 <= y <= 400 && y % 4 == 0 && (y % 100 != 0 || y == 400)
    ensures IsLeap(y + era * 400)
  {
    EraQuotients(era, y);
  }

  /** March to December belong to the year in which the March year starts. */
  lemma MarchToDecember(year: int, doy: int)
    requires 0 <= doy <= 305
    ensures var d := FromMarchYear(year, doy);
            && IsDate(d)
            && DaysFromCivil(d) == DaysBeforeYear(year) + (if IsLeap(year) then 60 else 59) + doy - 719_528
  {
    MonthTable(year);
    var monthPrime := (5 * doy + 2) / 153;
    assert monthPrime == 0 || monthPrime == 1 || monthPrime == 2 || monthPrime == 3 || monthPrime == 4
        || monthPrime == 5 || monthPrime == 6 || monthPrime == 7 || monthPrime == 8 || monthPrime == 9;
  }

  /** January and February belong to the next one. */
  lemma JanuaryToFebruary(year: int, doy: int)
    requires 306 <= doy <= 365 && (doy == 365 ==> IsLeap(year + 1))
    ensures var d := FromMarchYear(year, doy);
            && IsDate(d)
            && DaysFromCivil(d) == DaysBeforeYear(year) + (if IsLeap(year) then 60 else 59) + doy - 719_528
  {
    MonthTable(year + 1);
    YearLength(year);
    var monthPrime := (5 * doy + 2) / 153;
    assert monthPrime == 10 || monthPrime == 11;
  }

  lemma MarchMonth(year: int, doy: int)
    requires 0 <= doy <= 365 && (doy == 365 ==> IsLeap(year + 1))
    ensures var d := FromMarchYear(year, doy);
            && IsDate(d)
            && DaysFromCivil(d) == DaysBeforeYear(year) + (if IsLeap(year) then 60 else 59) + doy - 719_528
  {
    if doy <= 305 {
      MarchToDecember(year, doy);
    } else {
      JanuaryToFebruary(year, doy);
    }
  }

  lemma EraDays(era: int, y: int)
    requires 0 <= y <= 399
    ensures var year := y + era * 400;
            DaysBeforeYear(year) + (if IsLeap(year) then 60 else 59) == 146_097 * era + EraYearStart(y) + 60
  {
    var year := y + era * 400;
    EraQuotients(era, y);
    QuotientStep(year, 4);
    QuotientStep(year, 100);
    QuotientStep(year, 400);
  }

  lemma MarchYearIsInverse(era: int, y: int, doy: int)
    requires 0 <= y <= 399 && 0 <= doy <= 365 && (doy == 365 ==> IsLeap(y + era * 400 + 1))
    ensures var d := FromMarchYear(y + era * 400, doy);
            IsDate(d) && DaysFromCivil(d) == 146_097 * era + EraYearStart(y) + doy - 719_468
  {
    MarchMonth(y + era * 400, doy);
    EraDays(era, y);
  }

  lemma FromDayOfEraIsInverse(era: int, dayOfEra: int)
    requires 0 <= dayOfEra < 146_097
    ensures var d := FromDayOfEra(era, dayOfEra);
            IsDate(d) && DaysFromCivil(d) == 146_097 * era + dayOfEra - 719_468
  {
    var y, doy := DayOfMarchYear(era, dayOfEra);
    MarchYearIsInverse(era, y, doy);
    assert FromDayOfEra(era, dayOfEra) == FromMarchYear(y + era * 400, doy);
  }

  /** For every day number the formula yields a real date, and counting the days
      up to that date gives the number back. */
  lemma CivilFromDaysIsInverse(days: int)
    ensures IsDate(CivilFromDays(days))
    ensures DaysFromCivil(CivilFromDays(days)) == days
  {
    var shifted := days + 719_468;
    var era := shifted / 146_097;
    FromDayOfEraIsInverse(era, shifted - era * 146_097);
  }

  /** The other direction: every date is what the formula yields for its day number. */
  lemma DaysFromCivilIsInverse(d: Date)
    requires IsDate(d)
    ensures CivilFromDays(DaysFromCivil(d)) == d
  {
    var days := DaysFromCivil(d);
    CivilFromDaysIsInverse(days);
    DaysFromCivilInjective(CivilFromDays(days), d);
  }

  /** The formula is the calendar: it starts at the epoch and each day number
      moves it to the next day. */
  lemma ConsecutiveDays(days: int)
    ensures CivilFromDays(0) == EPOCH
    ensures IsDate(CivilFromDays(days))
    ensures CivilFromDays(days + 1) == NextDay(CivilFromDays(days))
  {
    assert DaysFromCivil(EPOCH) == 0;
    DaysFromCivilIsInverse(EPOCH);
    CivilFromDaysIsInverse(days);
    var today := CivilFromDays(days);
    NextDayAddsOne(today);
    DaysFromCivilIsInverse(NextDay(today));
  }

  // ---- The layout crate's truncating variant ----

  /** Division that rounds toward zero, as `/` does on `i64`. */
  function TruncDiv(a: int, b: int): int
    requires b > 0
  {
    if a >= 0 then a / b else -((-a) / b)
  }

  function LayoutEra(shifted: int): int {
    TruncDiv(if shifted >= 0 then shifted else shifted - 146_096, 146_097)
  }

  function LayoutYearOfEra(dayOfEra: int): int {
    TruncDiv(dayOfEra - TruncDiv(dayOfEra, 1_460) + TruncDiv(dayOfEra, 36_524) - TruncDiv(dayOfEra, 146_096), 365)
  }

  function LayoutFromMarchYear(year: int, dayOfYear: int): Date {
    var monthPrime := TruncDiv(5 * dayOfYear + 2, 153);
    var day := dayOfYear - TruncDiv(153 * monthPrime + 2, 5) + 1;
    var month := monthPrime + (if monthPrime < 10 then 3 else -9);
    Date(if month <= 2 then year + 1 else year, month, day)
  }

  function LayoutFromDayOfEra(era: int, dayOfEra: int): Date {
    var y := LayoutYearOfEra(dayOfEra);
    LayoutFromMarchYear(y + era * 400, dayOfEra - (365 * y + TruncDiv(y, 4) - TruncDiv(y, 100)))
  }

  function LayoutCivilFromDays(days: int): Date {
    var shifted := days + 719_468;
    var era := LayoutEra(shifted);
    LayoutFromDayOfEra(era, shifted - era * 146_097)
  }

  lemma LayoutEraAgrees(shifted: int)
    ensures LayoutEra(shifted) == shifted / 146_097
  {
    if shifted < 0 {
      var q := (146_096 - shifted) / 146_097;
      QuotientUnique(shifted, 146_097, -q, shifted + 146_097 * q);
    }
  }

  lemma LayoutDayAgrees(era: int, dayOfEra: int)
    requires 0 <= dayOfEra < 146_097
    ensures LayoutFromDayOfEra(era, dayOfEra) == FromDayOfEra(era, dayOfEra)
  {
    var _, _ := DayOfMarchYear(era, dayOfEra);
    assert dayOfEra - dayOfEra / 1_460 >= 0;
    assert LayoutYearOfEra(dayOfEra) == YearOfEra(dayOfEra);
  }

  /** The collector's writer and the qualification script place a segment in the
      same directory, on both sides of the epoch. */
  lemma LayoutAgrees(days: int)
    ensures LayoutCivilFromDays(days) == CivilFromDays(days)
  {
    var shifted := days + 719_468;
    LayoutEraAgrees(shifted);
    var dayOfEra := shifted - (shifted / 146_097) * 146_097;
    assert 0 <= dayOfEra < 146_097;
    LayoutDayAgrees(shifted / 146_097, dayOfEra);
  }

  // ---- The id range of the layout ----

  /** A segment id is representable when its UTC year has four digits. */
  predicate InLayout(id: int) {
    0 <= CivilFromDays(id / MICROS_PER_DAY).year <= 9_999
  }

  const MIN_ID: int := -719_528 * MICROS_PER_DAY
  const MAX_ID: int := 2_932_897 * MICROS_PER_DAY - 1

  lemma YearsOrderDays(a: Date, b: Date)
    requires IsDate(a) && IsDate(b) && a.year < b.year
    ensures DaysFromCivil(a) < DaysFromCivil(b)
  {
    DayInYear(a);
    DayInYear(b);
    YearLength(a.year);
    YearsAreOrdered(a.year, b.year);
  }

  /** The representable ids are one closed interval of microseconds. */
  lemma LayoutRange(id: int)
    ensures InLayout(id) <==> MIN_ID <= id <= MAX_ID
  {
    var days := id / MICROS_PER_DAY;
    var d := CivilFromDays(days);
    CivilFromDaysIsInverse(days);
    var first, last := Date(0, 1, 1), Date(9_999, 12, 31);
    MonthTable(9_999);
    assert DaysFromCivil(first) == -719_528 && DaysFromCivil(last) == 2_932_896;
    if d.year < 0 {
      YearsOrderDays(d, first);
    } else if d.year > 9_999 {
      YearsOrderDays(last, d);
    } else {
      DayInYear(d);
      YearLength(d.year);
      if d.year > 0 {
        YearsOrderDays(first, d);
      }
      if d.year < 9_999 {
        YearsOrderDays(d, last);
      }
    }
  }
}
