/**
 * The birth-date step of `run_survey`: an eight-digit `DDMMYYYY` string is
 * split, shown as `DD.MM.<year>` and turned into an age on a given day; any
 * other input is passed through with no age.
 */
module BirthDates {
  import opened Wrappers
  import opened Errors
  import opened Digits

  datatype Date = Date(year: int, month: int, day: int)

  /** Python's `(a1, a2) < (b1, b2)` on pairs of integers. */
  predicate PairLess(a1: int, a2: int, b1: int, b2: int) {
    a1 < b1 || (a1 == b1 && a2 < b2)
  }

  /** Calendar order: year, then month, then day. */
  predicate Before(x: Date, y: Date) {
    x.year < y.year || (x.year == y.year && PairLess(x.month, x.day, y.month, y.day))
  }

  predicate NotAfter(x: Date, y: Date) {
    x == y || Before(x, y)
  }

  /** Gregorian leap years, as `datetime` uses them. */
  predicate IsLeapYear(y: int) {
    y % 4 == 0 && (y % 100 != 0 || y % 400 == 0)
  }

  function DaysInMonth(year: int, month: int): (n: int)
    requires 1 <= month <= 12
    ensures 28 <= n <= 31
  {
    if month == 2 then (if IsLeapYear(year) then 29 else 28)
    else if month in {4, 6, 9, 11} then 30
    else 31
  }

  /** What `datetime(year, month, day)` accepts: years 1 to 9999 and a day of that month. */
  predicate IsValidDate(d: Date) {
    1 <= d.year <= 9999 && 1 <= d.month <= 12 && 1 <= d.day <= DaysInMonth(d.year, d.month)
  }

  /**
   * `today.year - birth.year - ((today.month, today.day) < (birth.month, birth.day))`:
   * the number of birthdays that have come by `today`.
   */
  function Age(birth: Date, today: Date): (age: int)
    ensures NotAfter(Date(birth.year + age, birth.month, birth.day), today)
    ensures Before(today, Date(birth.year + age + 1, birth.month, birth.day))
  {
    today.year - birth.year - (if PairLess(today.month, today.day, birth.month, birth.day) then 1 else 0)
  }

  /** Age never decreases as `today` advances. */
  lemma AgeMonotone(birth: Date, earlier: Date, later: Date)
    requires NotAfter(earlier, later)
    ensures Age(birth, earlier) <= Age(birth, later)
  {
  }

  /** On any day of the birthday's year before the birthday, the age is one less than on the birthday. */
  lemma AgeBeforeBirthday(birth: Date, before: Date, year: int)
    requires before.year == year && PairLess(before.month, before.day, birth.month, birth.day)
    ensures Age(birth, before) == Age(birth, Date(year, birth.month, birth.day)) - 1
  {
  }

  /** The age is non-negative exactly from the birth date on. */
  lemma AgeNonNegative(birth: Date, today: Date)
    ensures Age(birth, today) >= 0 <==> NotAfter(birth, today)
  {
  }

  /** The guard `birth_date_str and len(birth_date_str) == 8 and birth_date_str.isdigit()`, on ASCII digits. */
  predicate IsEightDigits(raw: Option<string>) {
    raw.Some? && |raw.value| == 8 && IsDigits(raw.value)
  }

  /** The date that `DDMMYYYY` reads as: day `[0:2]`, month `[2:4]`, year `[4:8]`. */
  function DateOf(s: string): (d: Date)
    requires |s| == 8 && IsDigits(s)
    ensures 0 <= d.day < 100 && 0 <= d.month < 100 && 0 <= d.year < 10000
  {
    ValueOfTwo(s[0..2]);
    ValueOfTwo(s[2..4]);
    ValueOfFour(s[4..8]);
    Date(Value(s[4..8]), Value(s[2..4]), Value(s[0..2]))
  }

  /** The date of an eight-digit string, digit by digit. */
  lemma DateOfDigits(s: string)
    requires |s| == 8 && IsDigits(s)
    ensures DateOf(s).day == DigitValue(s[0]) * 10 + DigitValue(s[1])
    ensures DateOf(s).month == DigitValue(s[2]) * 10 + DigitValue(s[3])
    ensures DateOf(s).year == DigitValue(s[4]) * 1000 + DigitValue(s[5]) * 100 + DigitValue(s[6]) * 10 + DigitValue(s[7])
  {
    ValueOfTwo(s[0..2]);
    ValueOfTwo(s[2..4]);
    ValueOfFour(s[4..8]);
  }

  /** `f"{day:02d}.{month:02d}.{year}"`. */
  function Display(d: Date): string
    requires 0 <= d.day < 100 && 0 <= d.month < 100 && 0 <= d.year
  {
    Pad2(d.day) + "." + Pad2(d.month) + "." + Decimal(d.year)
  }

  /** The two outputs of the birth-date step: the display string and the age, each possibly None. */
  datatype BirthInfo = BirthInfo(display: Option<string>, age: Option<int>)

  /**
   * Lines 86-97 of `run_survey`, with `today` given: eight digits that form a
   * calendar date give its display and age; eight digits that do not raise
   * ValueError; anything else is passed through with no age.
   */
  function ParseBirthDate(raw: Option<string>, today: Date): (r: Result<BirthInfo, Error>)
    ensures !IsEightDigits(raw) ==> r == Success(BirthInfo(raw, None))
    ensures IsEightDigits(raw) ==> (r.Success? <==> IsValidDate(DateOf(raw.value)))
    ensures r.Failure? ==> r.error == InvalidDate
  {
    if IsEightDigits(raw) then
      var birth := DateOf(raw.value);
      if IsValidDate(birth) then Success(BirthInfo(Some(Display(birth)), Some(Age(birth, today))))
      else Failure(InvalidDate)
    else
      Success(BirthInfo(raw, None))
  }

  /**
   * The display keeps the day and month digits as typed and writes the year
   * without its leading zeros; the age is the number of birthdays by `today`.
   */
  lemma ParsedBirthDate(s: string, today: Date)
    requires IsEightDigits(Some(s)) && IsValidDate(DateOf(s))
    ensures var yyyy := StripLeadingZeros(s[4..8]);
      ParseBirthDate(Some(s), today) == Success(BirthInfo(
        Some(s[0..2] + "." + s[2..4] + "." + (if yyyy == [] then "0" else yyyy)),
        Some(Age(DateOf(s), today))))
  {
    Pad2OfDigits(s[0..2]);
    Pad2OfDigits(s[2..4]);
    DecimalOfDigits(s[4..8]);
  }

  /** Reading the display back, field by field, gives the parsed day, month and year. */
  lemma DisplayRoundTrip(d: Date)
    requires 0 <= d.day < 100 && 0 <= d.month < 100 && 0 <= d.year
    ensures var text := Display(d);
      |text| >= 7 && text[2] == '.' && text[5] == '.'
      && IsDigits(text[0..2]) && Value(text[0..2]) == d.day
      && IsDigits(text[3..5]) && Value(text[3..5]) == d.month
      && IsDigits(text[6..]) && Value(text[6..]) == d.year
  {
    var text := Display(d);
    assert text[0..2] == Pad2(d.day);
    assert text[3..5] == Pad2(d.month);
    assert text[6..] == Decimal(d.year);
  }

  /** "15031999" is shown as "15.03.1999"; on 14 March 2024 the age is 24, on 16 March 25. */
  lemma ExampleMidMarch()
    ensures ParseBirthDate(Some("15031999"), Date(2024, 3, 14)) == Success(BirthInfo(Some("15.03.1999"), Some(24)))
    ensures ParseBirthDate(Some("15031999"), Date(2024, 3, 16)) == Success(BirthInfo(Some("15.03.1999"), Some(25)))
  {
    MidMarchDate();
    assert Age(Date(1999, 3, 15), Date(2024, 3, 14)) == 24;
    assert Age(Date(1999, 3, 15), Date(2024, 3, 16)) == 25;
  }

  /** "15031999" is 15 March 1999 and is displayed as "15.03.1999". */
  lemma MidMarchDate()
    ensures IsEightDigits(Some("15031999")) && DateOf("15031999") == Date(1999, 3, 15)
    ensures Display(Date(1999, 3, 15)) == "15.03.1999"
  {
    DateOfDigits("15031999");
    assert Pad2(15) == "15" && Pad2(3) == "03";
    assert Decimal(1999) == "1999";
  }

  /** The year is not zero-padded: "01010099" is shown as "01.01.99" (the year 99). */
  lemma ExampleShortYear()
    ensures ParseBirthDate(Some("01010099"), Date(2024, 1, 1)) == Success(BirthInfo(Some("01.01.99"), Some(1925)))
  {
    var s := "01010099";
    DateOfDigits(s);
    var birth := DateOf(s);
    assert birth == Date(99, 1, 1);
    assert Pad2(1) == "01";
    assert Decimal(99) == "99";
    assert Display(birth) == "01.01.99";
    assert Age(birth, Date(2024, 1, 1)) == 1925;
  }

  /** Inputs the guard rejects pass through unchanged. */
  lemma ExamplesPassedThrough(today: Date)
    ensures ParseBirthDate(None, today) == Success(BirthInfo(None, None))
    ensures ParseBirthDate(Some(""), today) == Success(BirthInfo(Some(""), None))
    ensures ParseBirthDate(Some("1503199"), today) == Success(BirthInfo(Some("1503199"), None))
    ensures ParseBirthDate(Some("1503199x"), today) == Success(BirthInfo(Some("1503199x"), None))
  {
    assert !IsDigit("1503199x"[7]);
  }

  /** Eight digits that are no calendar date raise ValueError: day 31 of February, or the year 0. */
  lemma ExamplesInvalidDates(today: Date)
    ensures ParseBirthDate(Some("31022000"), today) == Failure(InvalidDate)
    ensures ParseBirthDate(Some("01010000"), today) == Failure(InvalidDate)
  {
    DateOfDigits("31022000");
    assert DateOf("31022000") == Date(2000, 2, 31);
    DateOfDigits("01010000");
    assert DateOf("01010000") == Date(0, 1, 1);
  }

  /** 29 February exists only in leap years: "29022023" raises ValueError, "29022024" is a date. */
  lemma ExamplesLeapDay(today: Date)
    ensures ParseBirthDate(Some("29022023"), today) == Failure(InvalidDate)
    ensures ParseBirthDate(Some("29022024"), today).Success?
  {
    DateOfDigits("29022023");
    assert DateOf("29022023") == Date(2023, 2, 29);
    DateOfDigits("29022024");
    assert DateOf("29022024") == Date(2024, 2, 29);
  }
}
