/** Proleptic Gregorian calendar dates as Python's `datetime.date` has them:
    years 1 to 9999, day ordinals counted from 0001-01-01 (ordinal 1, a
    Monday), weekdays numbered from Monday = 0, the one-day step
    `d + timedelta(days=1)`, and the `YYYY-MM-DD` text form (the `full-date`
    of section 5.6 of RFC 3339) that `strftime("%Y-%m-%d")` writes. */
module Calendar {
  import opened Wrappers
  import opened Text

  const MinYear := 1
  const MaxYear := 9999

  datatype Date = Date(year: int, month: int, day: int)

  /** The first date, 0001-01-01, a Monday. */
  const MinDate := Date(MinYear, 1, 1)

  /** The last date Python can represent; stepping past it raises OverflowError. */
  const MaxDate := Date(MaxYear, 12, 31)

  /** `date.max.toordinal()`. */
  const MaxOrdinal := 3652059

  predicate IsLeap(y: int) {
    y % 4 == 0 && (y % 100 != 0 || y % 400 == 0)
  }

  function DaysInMonth(y: int, m: int): (n: int)
    requires 1 <= m <= 12
    ensures 28 <= n <= 31
  {
    if m == 2 then (if IsLeap(y) then 29 else 28)
    else if m == 4 || m == 6 || m == 9 || m == 11 then 30
    else 31
  }

  predicate ValidDate(d: Date) {
    MinYear <= d.year <= MaxYear && 1 <= d.month <= 12 && 1 <= d.day <= DaysInMonth(d.year, d.month)
  }

  /** The day before `d`. */
  function Prev(d: Date): (e: Date)
    requires ValidDate(d) && d != MinDate
    ensures ValidDate(e)
  {
    if d.day > 1 then Date(d.year, d.month, d.day - 1)
    else if d.month > 1 then Date(d.year, d.month - 1, DaysInMonth(d.year, d.month - 1))
    else Date(d.year - 1, 12, 31)
  }

  /** `d.toordinal()`: how many days from 0001-01-01 up to and including `d`. */
  function Ordinal(d: Date): (k: int)
    requires ValidDate(d)
    ensures k >= 1
    decreases d.year, d.month, d.day
  {
    if d == MinDate then 1 else Ordinal(Prev(d)) + 1
  }

  /** `d.weekday()`, computed as `(d.toordinal() + 6) % 7`: Monday is 0 and
      Sunday is 6, and day 1 is a Monday. */
  function Weekday(d: Date): (w: int)
    requires ValidDate(d)
    ensures 0 <= w < 7
  {
    OrdinalWeekday(Ordinal(d))
  }

  /** The weekday of the day with ordinal `k`. */
  function OrdinalWeekday(k: int): (w: int)
    ensures 0 <= w < 7
  {
    (k + 6) % 7
  }

  /** The weekday after `w`. */
  function NextWeekday(w: int): int {
    if w == 6 then 0 else w + 1
  }

  /** `d + timedelta(days=1)`: the next calendar day, defined for every date
      but the last one Python can represent. */
  function Next(d: Date): (e: Date)
    requires ValidDate(d) && d != MaxDate
    ensures ValidDate(e)
  {
    if d.day < DaysInMonth(d.year, d.month) then Date(d.year, d.month, d.day + 1)
    else if d.month < 12 then Date(d.year, d.month + 1, 1)
    else Date(d.year + 1, 1, 1)
  }

  /** The next day is one day later, and the day before it is where the
      step started. */
  lemma NextSteps(d: Date)
    requires ValidDate(d) && d != MaxDate
    ensures Next(d) != MinDate && Prev(Next(d)) == d
    ensures Ordinal(Next(d)) == Ordinal(d) + 1
  {
  }

  /** Stepping back and then forward returns to the same day. */
  lemma NextOfPrev(d: Date)
    requires ValidDate(d) && d != MinDate
    ensures Prev(d) != MaxDate && Next(Prev(d)) == d
  {
  }

  /** The day after day `k` falls one weekday later. */
  lemma OrdinalWeekdayStep(k: int)
    ensures OrdinalWeekday(k + 1) == NextWeekday(OrdinalWeekday(k))
  {
    var q, r := (k + 6) / 7, (k + 6) % 7;
    assert k + 7 == 7 * q + (r + 1);
    if r == 6 {
      assert k + 7 == 7 * (q + 1);
    }
  }

  /** `date.fromordinal(k)`: the date `k - 1` days after 0001-01-01, for
      1 <= k <= 3652059 (Python raises ValueError outside that range). */
  function FromOrdinal(k: int): (d: Date)
    requires 1 <= k <= MaxOrdinal
    ensures ValidDate(d)
    decreases k, 0
  {
    if k == 1 then MinDate
    else
      var e := FromOrdinal(k - 1);
      OrdinalOfFromOrdinal(k - 1);
      OrdinalOfMaxDate(e);
      Next(e)
  }

  /** `date.fromordinal(k).toordinal() == k`. */
  lemma {:induction false} OrdinalOfFromOrdinal(k: int)
    requires 1 <= k <= MaxOrdinal
    ensures Ordinal(FromOrdinal(k)) == k
    decreases k, 1
  {
    if k > 1 {
      OrdinalOfFromOrdinal(k - 1);
      OrdinalOfMaxDate(FromOrdinal(k - 1));
      NextSteps(FromOrdinal(k - 1));
    }
  }

  /** Every date's ordinal is at most that of 9999-12-31. */
  lemma OrdinalAtMostMax(d: Date)
    requires ValidDate(d)
    ensures Ordinal(d) <= MaxOrdinal
  {
    if d.year < MaxYear {
      OrdinalBeforeLastYear(d);
    } else {
      OrdinalFormula(d);
      DaysBeforeMonthBound(d.year, d.month);
      assert DaysBeforeYear(MaxYear) + DaysBeforeMonth(MaxYear, 12) + 31 == MaxOrdinal;
    }
  }

  /** `date.fromordinal(d.toordinal()) == d`. */
  lemma {:induction false} FromOrdinalOfOrdinal(d: Date)
    requires ValidDate(d)
    ensures Ordinal(d) <= MaxOrdinal && FromOrdinal(Ordinal(d)) == d
    decreases d.year, d.month, d.day
  {
    OrdinalAtMostMax(d);
    if d != MinDate {
      FromOrdinalOfOrdinal(Prev(d));
      NextOfPrev(d);
      OrdinalOfFromOrdinal(Ordinal(d) - 1);
    }
  }

  /** Different dates have different ordinals. */
  lemma OrdinalInjective(d: Date, e: Date)
    requires ValidDate(d) && ValidDate(e) && Ordinal(d) == Ordinal(e)
    ensures d == e
  {
    FromOrdinalOfOrdinal(d);
    FromOrdinalOfOrdinal(e);
  }

  // ---- the ordinal as Python computes it ----

  /** `_days_before_year`: days in the years before `y`. */
  function DaysBeforeYear(y: int): int {
    var y1 := y - 1;
    y1 * 365 + y1 / 4 - y1 / 100 + y1 / 400
  }

  /** `_days_before_month`: days in the months of year `y` before month `m`. */
  function DaysBeforeMonth(y: int, m: int): int
    requires 1 <= m <= 12
  {
    var leap := if m > 2 && IsLeap(y) then 1 else 0;
    leap + (
      if m == 1 then 0 else if m == 2 then 31 else if m == 3 then 59
      else if m == 4 then 90 else if m == 5 then 120 else if m == 6 then 151
      else if m == 7 then 181 else if m == 8 then 212 else if m == 9 then 243
      else if m == 10 then 273 else if m == 11 then 304 else 334)
  }

  lemma MonthStep(y: int, m: int)
    requires 1 <= m < 12
    ensures DaysBeforeMonth(y, m + 1) == DaysBeforeMonth(y, m) + DaysInMonth(y, m)
  {
  }

  /** Counting multiples of 4, 100 and 400: one more than `x` adds one
      exactly when it is itself a multiple. */
  lemma DivStep4(x: int)
    ensures (x + 1) / 4 == x / 4 + (if (x + 1) % 4 == 0 then 1 else 0)
  {
  }

  lemma DivStep100(x: int)
    ensures (x + 1) / 100 == x / 100 + (if (x + 1) % 100 == 0 then 1 else 0)
  {
  }

  lemma DivStep400(x: int)
    ensures (x + 1) / 400 == x / 400 + (if (x + 1) % 400 == 0 then 1 else 0)
  {
  }

  lemma MultipleOf400(x: int)
    ensures x % 400 == 0 ==> x % 100 == 0
    ensures x % 100 == 0 ==> x % 4 == 0
  {
    if x % 400 == 0 {
      var k := 4 * (x / 400);
      assert x == 100 * k;
    }
    if x % 100 == 0 {
      var k := 25 * (x / 100);
      assert x == 4 * k;
    }
  }

  /** A year has 366 days when it is a leap year and 365 otherwise. */
  lemma YearStep(y: int)
    ensures DaysBeforeYear(y + 1) == DaysBeforeYear(y) + DaysBeforeMonth(y, 12) + 31
  {
    DivStep4(y - 1);
    DivStep100(y - 1);
    DivStep400(y - 1);
    MultipleOf400(y);
  }

  /** Python's `toordinal` formula agrees with counting the days. */
  lemma {:induction false} OrdinalFormula(d: Date)
    requires ValidDate(d)
    ensures Ordinal(d) == DaysBeforeYear(d.year) + DaysBeforeMonth(d.year, d.month) + d.day
    decreases d.year, d.month, d.day
  {
    if d != MinDate {
      OrdinalFormula(Prev(d));
      FormulaStep(d);
    }
  }

  lemma FormulaStep(d: Date)
    requires ValidDate(d) && d != MinDate
    ensures var p := Prev(d);
      DaysBeforeYear(d.year) + DaysBeforeMonth(d.year, d.month) + d.day ==
      DaysBeforeYear(p.year) + DaysBeforeMonth(p.year, p.month) + p.day + 1
  {
    if d.day == 1 {
      if d.month > 1 {
        MonthStep(d.year, d.month - 1);
      } else {
        YearStep(d.year - 1);
      }
    }
  }

  lemma {:induction false} DaysBeforeYearMonotone(y: int, z: int)
    requires y <= z
    ensures DaysBeforeYear(y) + DaysBeforeMonth(y, 12) + 31 <= DaysBeforeYear(z + 1)
    decreases z - y
  {
    YearStep(y);
    if y < z {
      DaysBeforeYearMonotone(y + 1, z);
    }
  }

  /** 9999-12-31 is day 3652059. */
  lemma OrdinalOfMaxDate(d: Date)
    requires ValidDate(d)
    ensures d == MaxDate ==> Ordinal(d) == MaxOrdinal
  {
    if d == MaxDate {
      OrdinalFormula(d);
    }
  }

  /** Every date before the last year is more than a year from the end. */
  lemma OrdinalBeforeLastYear(d: Date)
    requires ValidDate(d) && d.year < MaxYear
    ensures Ordinal(d) + 365 <= MaxOrdinal
  {
    OrdinalFormula(d);
    DaysBeforeYearMonotone(d.year, MaxYear - 1);
    DaysBeforeMonthBound(d.year, d.month);
  }

  lemma DaysBeforeMonthBound(y: int, m: int)
    requires 1 <= m <= 12
    ensures DaysBeforeMonth(y, m) + DaysInMonth(y, m) <= DaysBeforeMonth(y, 12) + 31
  {
  }

  /** The months of a year follow one another: month `a` ends before a later
      month `b` begins. */
  lemma MonthsInOrder(y: int, a: int, b: int)
    requires 1 <= a < b <= 12
    ensures DaysBeforeMonth(y, a) + DaysInMonth(y, a) <= DaysBeforeMonth(y, b)
  {
  }

  /** `d < e` on Python dates: by year, then month, then day. */
  predicate Before(d: Date, e: Date) {
    d.year < e.year || (d.year == e.year && (d.month < e.month || (d.month == e.month && d.day < e.day)))
  }

  /** A date earlier in the calendar has a smaller day number. */
  lemma OrdinalMonotone(d: Date, e: Date)
    requires ValidDate(d) && ValidDate(e) && Before(d, e)
    ensures Ordinal(d) < Ordinal(e)
  {
    OrdinalFormula(d);
    OrdinalFormula(e);
    FormulaMonotone(d, e);
  }

  /** `OrdinalMonotone` on Python's formula. */
  lemma FormulaMonotone(d: Date, e: Date)
    requires ValidDate(d) && ValidDate(e) && Before(d, e)
    ensures DaysBeforeYear(d.year) + DaysBeforeMonth(d.year, d.month) + d.day
      < DaysBeforeYear(e.year) + DaysBeforeMonth(e.year, e.month) + e.day
  {
    if d.year < e.year {
      DaysBeforeMonthBound(d.year, d.month);
      DaysBeforeYearMonotone(d.year, e.year - 1);
      assert DaysBeforeYear(d.year) + DaysBeforeMonth(d.year, 12) + 31 <= DaysBeforeYear(e.year);
      assert DaysBeforeMonth(e.year, e.month) >= 0;
    } else if d.month < e.month {
      MonthsInOrder(d.year, d.month, e.month);
    }
  }

  // ---- the YYYY-MM-DD text form ----

  function Pow10(k: nat): (p: nat)
    ensures p >= 1
  {
    if k == 0 then 1 else 10 * Pow10(k - 1)
  }

  /** The last `width` decimal digits of `n`, zero-padded on the left, as the
      `%04d`-style fields of `strftime` write them. */
  function PadDigits(n: nat, width: nat): (s: string)
    ensures |s| == width && AllDigits(s)
  {
    if width == 0 then [] else PadDigits(n / 10, width - 1) + [DigitChar(n % 10)]
  }

  /** A number below `10^width` reads back from its padded digits. */
  lemma {:induction false} PadDigitsValue(n: nat, width: nat)
    requires n < Pow10(width)
    ensures DigitsValue(PadDigits(n, width)) == n
  {
    if width > 0 {
      PadDigitsValue(n / 10, width - 1);
      var s := PadDigits(n, width);
      assert s[..width - 1] == PadDigits(n / 10, width - 1);
      assert DigitValue(DigitChar(n % 10)) == n % 10;
    }
  }

  /** Every digit string is the padded form of its own value. */
  lemma {:induction false} PadDigitsOfValue(s: string)
    requires AllDigits(s)
    ensures DigitsValue(s) < Pow10(|s|)
    ensures PadDigits(DigitsValue(s), |s|) == s
  {
    if s != [] {
      var init, last := s[..|s| - 1], s[|s| - 1];
      PadDigitsOfValue(init);
      var v := DigitsValue(s);
      assert v == DigitsValue(init) * 10 + DigitValue(last);
      assert v / 10 == DigitsValue(init) && v % 10 == DigitValue(last);
      assert s == init + [last];
    }
  }

  /** `d.strftime("%Y-%m-%d")` with the year written as four digits. */
  function IsoDate(d: Date): (s: string)
    requires ValidDate(d)
    ensures |s| == 10 && s[4] == '-' && s[7] == '-'
  {
    PadDigits(d.year, 4) + "-" + PadDigits(d.month, 2) + "-" + PadDigits(d.day, 2)
  }

  /** The shape `DDDD-DD-DD`, digits everywhere but the two hyphens. */
  predicate IsoShape(s: string) {
    |s| == 10 && s[4] == '-' && s[7] == '-' &&
    AllDigits(s[..4]) && AllDigits(s[5..7]) && AllDigits(s[8..])
  }

  /** `date.fromisoformat(s)` for the `YYYY-MM-DD` form: the shape must match
      and the fields must name a real date. */
  function ParseIsoDate(s: string): (r: Option<Date>)
    ensures r.Some? ==> ValidDate(r.value)
  {
    if !IsoShape(s) then None
    else
      var d := Date(DigitsValue(s[..4]), DigitsValue(s[5..7]), DigitsValue(s[8..]));
      if ValidDate(d) then Some(d) else None
  }

  /** Reading a date key back gives the date it was written from. */
  lemma ParseIsoDateOfIsoDate(d: Date)
    requires ValidDate(d)
    ensures ParseIsoDate(IsoDate(d)) == Some(d)
  {
    var s := IsoDate(d);
    assert s[..4] == PadDigits(d.year, 4) && s[5..7] == PadDigits(d.month, 2) && s[8..] == PadDigits(d.day, 2);
    PadDigitsValue(d.year, 4);
    PadDigitsValue(d.month, 2);
    PadDigitsValue(d.day, 2);
  }

  /** Every string that parses as a date is that date's key: the text form is
      canonical. */
  lemma IsoDateOfParseIsoDate(s: string)
    requires ParseIsoDate(s).Some?
    ensures IsoDate(ParseIsoDate(s).value) == s
  {
    PadDigitsOfValue(s[..4]);
    PadDigitsOfValue(s[5..7]);
    PadDigitsOfValue(s[8..]);
    assert s == s[..4] + "-" + s[5..7] + "-" + s[8..];
  }

  /** Different dates have different keys. */
  lemma IsoDateInjective(d: Date, e: Date)
    requires ValidDate(d) && ValidDate(e)
    ensures IsoDate(d) == IsoDate(e) ==> d == e
  {
    ParseIsoDateOfIsoDate(d);
    ParseIsoDateOfIsoDate(e);
  }
}
