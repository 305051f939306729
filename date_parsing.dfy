/** `parseDate`: a statistics date is an integer whose zero-padded eight
    digits read as day, month and year (`ddMMyyyy`). */
module DateParsing {
  import opened Wrappers
  import opened Models
  import opened Decimal

  /** The proleptic Gregorian leap-year rule. */
  predicate IsLeapYear(year: nat) {
    (year % 4 == 0 && year % 100 != 0) || year % 400 == 0
  }

  function DaysInMonth(month: nat, year: nat): (days: nat)
    requires 1 <= month <= 12
    ensures 28 <= days <= 31
  {
    if month == 2 then (if IsLeapYear(year) then 29 else 28)
    else if month == 4 || month == 6 || month == 9 || month == 11 then 30
    else 31
  }

  /** A day the calendar has (years from 1 on). */
  predicate IsValidDate(day: nat, month: nat, year: nat) {
    1 <= month <= 12 && 1 <= year && 1 <= day <= DaysInMonth(month, year)
  }

  /** The value a `%d` conversion reads from a 64-bit `Int`: its low 32 bits,
      as a signed number. */
  function ToInt32(i: int): (r: int)
    ensures -0x8000_0000 <= r < 0x8000_0000
    ensures -0x8000_0000 <= i < 0x8000_0000 ==> r == i
  {
    (i + 0x8000_0000) % 0x1_0000_0000 - 0x8000_0000
  }

  /** `DateFormatter` with format "ddMMyyyy": exactly eight digits, read as
      two for the day, two for the month and four for the year, naming a day
      the calendar has. */
  function ParseDayMonthYear(text: string): (d: Option<Date>)
    ensures d.Some? ==> IsValidDate(d.value.day, d.value.month, d.value.year)
  {
    if |text| == 8 && AllDigits(text) then
      var day := DigitsValue(text[..2]);
      var month := DigitsValue(text[2..4]);
      var year := DigitsValue(text[4..]);
      if IsValidDate(day, month, year) then Some(Date(day, month, year)) else None
    else None
  }

  /** `parseDate(_:)`: `String(format: "%08d", dateInt)`, then the formatter. */
  function ParseDate(dateInt: int): (d: Option<Date>)
    ensures d.Some? ==> IsValidDate(d.value.day, d.value.month, d.value.year)
  {
    ParseDayMonthYear(Format08d(ToInt32(dateInt)))
  }

  /** The digit groups are the integer's day, month and year in arithmetic
      terms: dateInt = day * 10^6 + month * 10^4 + year. */
  lemma ParseDateArithmetic(dateInt: int)
    requires 0 <= dateInt < 100_000_000
    ensures var day, month, year := dateInt / 1_000_000, dateInt / 10_000 % 100, dateInt % 10_000;
      ParseDate(dateInt) == if IsValidDate(day, month, year) then Some(Date(day, month, year)) else None
  {
    var text := Format08d(dateInt);
    PaddedToEightDigits(dateInt);
    DigitGroups(text);
    var day, month, year := DigitsValue(text[..2]), DigitsValue(text[2..4]), DigitsValue(text[4..]);
    DivModOf(dateInt, day * 100 + month, 10_000, year);
    DivModOf(dateInt / 10_000, day, 100, month);
    DivModOf(dateInt, day, 1_000_000, month * 10_000 + year);
  }

  /** `%08d` writes a number below 10^8 as exactly eight digits that read as it. */
  lemma PaddedToEightDigits(n: nat)
    requires n < 100_000_000
    ensures |Format08d(n)| == 8 && AllDigits(Format08d(n)) && DigitsValue(Format08d(n)) == n
  {
    var digits := NatToString(n);
    assert Pow10(8) == 100_000_000;
    NatToStringLength(n, 8);
    assert Format08d(n) == Zeros(8 - |digits|) + digits;
    ZerosDoNotCount(8 - |digits|, digits);
  }

  /** Eight digits read as two, two and four digits shifted into place. */
  lemma DigitGroups(text: string)
    requires |text| == 8 && AllDigits(text)
    ensures DigitsValue(text[..2]) < 100 && DigitsValue(text[2..4]) < 100 && DigitsValue(text[4..]) < 10_000
    ensures DigitsValue(text) == DigitsValue(text[..2]) * 1_000_000 + DigitsValue(text[2..4]) * 10_000 + DigitsValue(text[4..])
  {
    assert text == text[..2] + text[2..];
    DigitsValueSplit(text[..2], text[2..]);
    assert text[2..] == text[2..4] + text[4..];
    DigitsValueSplit(text[2..4], text[4..]);
    assert Pow10(2) == 100 && Pow10(4) == 10_000 && Pow10(6) == 1_000_000;
  }

  /** Division and remainder of q * m + r, for a remainder within range. */
  lemma DivModOf(n: int, q: int, m: int, r: int)
    requires 0 < m && 0 <= r < m && n == q * m + r
    ensures n / m == q && n % m == r
  {
    var q', r' := n / m, n % m;
    assert (q - q') * m == r' - r;
    if q' < q {
      MultiplyAtLeastOnce(q - q', m);
      assert false;
    } else if q < q' {
      MultiplyAtLeastOnce(q' - q, m);
      assert false;
    }
  }

  lemma MultiplyAtLeastOnce(k: int, m: int)
    requires 1 <= k && 0 < m
    ensures k * m >= m
  {
  }

  /** Negative integers and integers of more than eight digits never parse
      (within the 32 bits `%d` reads). */
  lemma OutOfRangeRejected(dateInt: int)
    requires -0x8000_0000 <= dateInt < 0 || 100_000_000 <= dateInt < 0x8000_0000
    ensures ParseDate(dateInt).None?
  {
    var text := Format08d(dateInt);
    if dateInt < 0 {
      assert text[0] == '-';
    } else {
      var digits := NatToString(dateInt);
      if |digits| <= 8 {
        Pow10Grows(|digits|, 8);
        assert false;
      }
      assert |text| > 8;
    }
  }

  lemma {:induction false} Pow10Grows(j: nat, k: nat)
    requires j <= k
    ensures Pow10(j) <= Pow10(k)
  {
    if j < k {
      Pow10Grows(j, k - 1);
    }
  }

  /** `5092024` is padded to "05092024": the 5th of September 2024. */
  lemma SevenDigitDateParses(dateInt: int)
    requires dateInt == 5092024
    ensures ParseDate(dateInt) == Some(Date(5, 9, 2024))
  {
    ParseDateArithmetic(dateInt);
    DivModOf(dateInt, 5, 1_000_000, 92024);
    DivModOf(dateInt, 509, 10_000, 2024);
    DivModOf(509, 5, 100, 9);
    assert IsValidDate(5, 9, 2024);
  }

  /** `%d` reads only the low 32 bits of a wider integer: 4300059320 is
      2^32 + 5092024, and parses as the 5th of September 2024. */
  lemma WrappedDateParses(dateInt: int)
    requires dateInt == 4_300_059_320
    ensures ParseDate(dateInt) == Some(Date(5, 9, 2024))
  {
    assert ToInt32(dateInt) == 5092024 == ToInt32(5092024);
    SevenDigitDateParses(5092024);
  }

  /** `99999999` reads as day 99 of month 99, which no calendar has. */
  lemma AllNinesRejected(dateInt: int)
    requires dateInt == 99999999
    ensures ParseDate(dateInt).None?
  {
    ParseDateArithmetic(dateInt);
  }

  /** The 29th of February parses in leap years only. */
  lemma LeapDay(year: nat)
    requires 1 <= year <= 9999
    ensures ParseDate(29_02_0000 + year).Some? <==> IsLeapYear(year)
  {
    var dateInt := 29_02_0000 + year;
    ParseDateArithmetic(dateInt);
    DivModOf(dateInt, 2902, 10_000, year);
    DivModOf(dateInt, 29, 1_000_000, 20000 + year);
    DivModOf(2902, 29, 100, 2);
    assert IsValidDate(29, 2, year) <==> IsLeapYear(year);
  }
}
