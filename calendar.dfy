/**
 * Proleptic Gregorian (year, month) arithmetic in UTC, the `YYYY-MM` token
 * format, and a model of the JavaScript `Date` objects the month handlers
 * build from such a token: always the first instant of a month, or an
 * Invalid Date.
 */
module Calendar {
  import opened Wrappers

  /** A calendar month; `month` counts from 1 (January) to 12 (December). */
  datatype YearMonth = YearMonth(year: int, month: int)

  predicate ValidMonth(ym: YearMonth)
  {
    1 <= ym.month <= 12
  }

  /** Months elapsed since January of year 0. */
  function MonthIndex(ym: YearMonth): int
  {
    12 * ym.year + (ym.month - 1)
  }

  lemma MonthIndexInjective(a: YearMonth, b: YearMonth)
    requires ValidMonth(a) && ValidMonth(b) && MonthIndex(a) == MonthIndex(b)
    ensures a == b
  {
  }

  /** The month after `ym`; December rolls over into January of the next year. */
  function NextMonth(ym: YearMonth): (r: YearMonth)
    requires ValidMonth(ym)
    ensures ValidMonth(r) && MonthIndex(r) == MonthIndex(ym) + 1
  {
    if ym.month == 12 then YearMonth(ym.year + 1, 1) else YearMonth(ym.year, ym.month + 1)
  }

  /** The month before `ym`; January rolls back into December of the previous year. */
  function PrevMonth(ym: YearMonth): (r: YearMonth)
    requires ValidMonth(ym)
    ensures ValidMonth(r) && MonthIndex(r) == MonthIndex(ym) - 1
  {
    if ym.month == 1 then YearMonth(ym.year - 1, 12) else YearMonth(ym.year, ym.month - 1)
  }

  /** Stepping forward and back are inverse to each other. */
  lemma PrevNextInverse(ym: YearMonth)
    requires ValidMonth(ym)
    ensures PrevMonth(NextMonth(ym)) == ym
    ensures NextMonth(PrevMonth(ym)) == ym
  {
    MonthIndexInjective(PrevMonth(NextMonth(ym)), ym);
    MonthIndexInjective(NextMonth(PrevMonth(ym)), ym);
  }

  // ---------------------------------------------------------------------
  // Days and instants
  // ---------------------------------------------------------------------

  predicate IsLeapYear(y: int)
  {
    y % 4 == 0 && (y % 100 != 0 || y % 400 == 0)
  }

  function DaysInYear(y: int): int
  {
    if IsLeapYear(y) then 366 else 365
  }

  function DaysInMonth(y: int, m: int): int
    requires 1 <= m <= 12
  {
    if m == 2 then (if IsLeapYear(y) then 29 else 28)
    else if m == 4 || m == 6 || m == 9 || m == 11 then 30
    else 31
  }

  /** Days from the first of January to the first of month `m` of year `y`. */
  function DaysBeforeMonth(y: int, m: int): int
    requires 1 <= m <= 12
    decreases m
  {
    if m == 1 then 0 else DaysBeforeMonth(y, m - 1) + DaysInMonth(y, m - 1)
  }

  /** Leap years in [0, y), negated for y < 0 (floor division). */
  function LeapYearsBefore(y: int): int
  {
    (y + 3) / 4 - (y + 99) / 100 + (y + 399) / 400
  }

  /** Days from 0000-01-01 to the first of January of year `y`. */
  function DaysBeforeYear(y: int): int
  {
    365 * y + LeapYearsBefore(y)
  }

  /** DaysBeforeYear(1970): the day number of the Unix epoch. */
  const EpochDay: int := 719528

  const MsPerDay: int := 86_400_000

  lemma EpochIs1970()
    ensures DaysBeforeYear(1970) == EpochDay
  {
  }

  lemma CeilStep(y: int, k: int)
    requires k == 4 || k == 100 || k == 400
    ensures (y + k) / k - (y + k - 1) / k == if y % k == 0 then 1 else 0
  {
    var q := y / k;
    var r := y % k;
    assert y == k * q + r && 0 <= r < k;
    assert y + k == k * (q + 1) + r;
    if r == 0 {
      assert (y + k) / k == q + 1;
      assert y + k - 1 == k * q + (k - 1);
      assert (y + k - 1) / k == q;
    } else {
      assert (y + k) / k == q + 1;
      assert y + k - 1 == k * (q + 1) + (r - 1);
      assert (y + k - 1) / k == q + 1;
    }
  }

  lemma MultipleOf100(y: int)
    requires y % 100 == 0
    ensures y % 4 == 0
  {
    var q := y / 100;
    assert y == 4 * (25 * q);
  }

  lemma MultipleOf400(y: int)
    requires y % 400 == 0
    ensures y % 100 == 0
  {
    var q := y / 400;
    assert y == 100 * (4 * q);
  }

  /** Year `y` itself adds one to the count of leap years exactly when it is a leap year. */
  lemma LeapStep(y: int)
    ensures LeapYearsBefore(y + 1) - LeapYearsBefore(y) == if IsLeapYear(y) then 1 else 0
  {
    CeilStep(y, 4);
    CeilStep(y, 100);
    CeilStep(y, 400);
    if y % 400 == 0 {
      MultipleOf400(y);
      MultipleOf100(y);
    } else if y % 100 == 0 {
      MultipleOf100(y);
    }
  }

  /** Consecutive years start DaysInYear apart. */
  lemma YearLength(y: int)
    ensures DaysBeforeYear(y + 1) - DaysBeforeYear(y) == DaysInYear(y)
  {
    LeapStep(y);
  }

  /** The twelve months of a year fill it exactly. */
  lemma DecemberEndsYear(y: int)
    ensures DaysBeforeMonth(y, 12) + DaysInMonth(y, 12) == DaysInYear(y)
  {
  }

  /** The first instant of a month, in milliseconds since 1970-01-01T00:00:00Z. */
  function MonthStart(ym: YearMonth): int
    requires ValidMonth(ym)
  {
    (DaysBeforeYear(ym.year) + DaysBeforeMonth(ym.year, ym.month) - EpochDay) * MsPerDay
  }

  /** The next month starts exactly one month's length of days later. */
  lemma MonthLength(ym: YearMonth)
    requires ValidMonth(ym)
    ensures MonthStart(NextMonth(ym)) - MonthStart(ym) == DaysInMonth(ym.year, ym.month) * MsPerDay
  {
    if ym.month == 12 {
      YearLength(ym.year);
      DecemberEndsYear(ym.year);
    }
  }

  /** Later months start later. */
  lemma {:induction false} MonthStartIncreasing(a: YearMonth, b: YearMonth)
    requires ValidMonth(a) && ValidMonth(b) && MonthIndex(a) < MonthIndex(b)
    ensures MonthStart(a) < MonthStart(b)
    decreases MonthIndex(b) - MonthIndex(a)
  {
    var n := NextMonth(a);
    MonthLength(a);
    if MonthIndex(n) < MonthIndex(b) {
      MonthStartIncreasing(n, b);
    } else {
      MonthIndexInjective(n, b);
    }
  }

  // ---------------------------------------------------------------------
  // The `YYYY-MM` text form
  // ---------------------------------------------------------------------

  predicate IsDigit(ch: char)
  {
    '0' <= ch <= '9'
  }

  function DigitValue(ch: char): int
  {
    ch as int - '0' as int
  }

  function DigitChar(d: int): (ch: char)
    requires 0 <= d <= 9
    ensures IsDigit(ch) && DigitValue(ch) == d
  {
    (d + '0' as int) as char
  }

  /** `n` written with exactly `width` decimal digits, zero-padded. */
  function PadDigits(n: int, width: nat): (s: string)
    requires 0 <= n
    ensures |s| == width
    ensures forall i :: 0 <= i < width ==> IsDigit(s[i])
    decreases width
  {
    if width == 0 then "" else PadDigits(n / 10, width - 1) + [DigitChar(n % 10)]
  }

  /** The value of a run of decimal digits. */
  function DigitsValue(s: string): int
  {
    if |s| == 0 then 0 else 10 * DigitsValue(s[..|s| - 1]) + DigitValue(s[|s| - 1])
  }

  function Pow10(k: nat): (p: int)
    ensures p >= 1
  {
    if k == 0 then 1 else 10 * Pow10(k - 1)
  }

  /** Reading a padded number back gives the number, when it fits the width. */
  lemma {:induction false} PadDigitsValue(n: int, width: nat)
    requires 0 <= n < Pow10(width)
    ensures DigitsValue(PadDigits(n, width)) == n
  {
    if width > 0 {
      var s := PadDigits(n, width);
      assert s[..|s| - 1] == PadDigits(n / 10, width - 1);
      assert n / 10 < Pow10(width - 1);
      PadDigitsValue(n / 10, width - 1);
    }
  }

  /** Writing the value of a digit run padded to its length gives the run back. */
  lemma {:induction false} DigitsValuePad(s: string)
    requires forall i :: 0 <= i < |s| ==> IsDigit(s[i])
    ensures 0 <= DigitsValue(s) < Pow10(|s|)
    ensures PadDigits(DigitsValue(s), |s|) == s
  {
    if |s| > 0 {
      var p := s[..|s| - 1];
      DigitsValuePad(p);
      var d := DigitValue(s[|s| - 1]);
      var v := DigitsValue(s);
      assert v == 10 * DigitsValue(p) + d && 0 <= d <= 9;
      assert v / 10 == DigitsValue(p) && v % 10 == d;
      assert DigitChar(d) == s[|s| - 1];
      assert s == p + [s[|s| - 1]];
    }
  }

  /**
   * A month token `YYYY-MM`. Every other string is rejected here and stands
   * for an Invalid Date, although JavaScript's `Date` parses some of them
   * (full dates, expanded years).
   */
  function ParseMonth(s: string): (r: Option<YearMonth>)
    ensures r.Some? ==> ValidMonth(r.value) && 0 <= r.value.year <= 9999
  {
    if |s| == 7 && s[4] == '-'
       && (forall i :: 0 <= i < 4 ==> IsDigit(s[i]))
       && IsDigit(s[5]) && IsDigit(s[6])
    then
      DigitsValuePad(s[..4]);
      var y := DigitsValue(s[..4]);
      var m := DigitsValue(s[5..]);
      if 1 <= m <= 12 then Some(YearMonth(y, m)) else None
    else None
  }

  /** The `YYYY-MM` token of a month in years 0000 to 9999. */
  function FormatMonth(ym: YearMonth): (s: string)
    requires ValidMonth(ym) && 0 <= ym.year <= 9999
    ensures |s| == 7 && s[4] == '-'
  {
    PadDigits(ym.year, 4) + "-" + PadDigits(ym.month, 2)
  }

  /** Formatting a month and parsing it back gives the same month. */
  lemma ParseFormat(ym: YearMonth)
    requires ValidMonth(ym) && 0 <= ym.year <= 9999
    ensures ParseMonth(FormatMonth(ym)) == Some(ym)
  {
    var s := FormatMonth(ym);
    assert s[..4] == PadDigits(ym.year, 4);
    assert s[5..] == PadDigits(ym.month, 2);
    PadDigitsValue(ym.year, 4);
    PadDigitsValue(ym.month, 2);
  }

  /** Every token that parses is the canonical form of the month it denotes. */
  lemma FormatParse(s: string)
    requires ParseMonth(s).Some?
    ensures FormatMonth(ParseMonth(s).value) == s
  {
    DigitsValuePad(s[..4]);
    DigitsValuePad(s[5..]);
    assert s == s[..4] + "-" + s[5..];
  }

  /**
   * `toISOString().slice(0, 7)` of the first instant of `ym`: `YYYY-MM` for
   * years 0000 to 9999, and otherwise the sign and first six digits of the
   * expanded-year form `±YYYYYY-MM-DD...`.
   */
  function IsoMonthPrefix(ym: YearMonth): (s: string)
    requires ValidMonth(ym) && -999999 <= ym.year <= 999999
    ensures |s| == 7
    ensures 0 <= ym.year <= 9999 ==> s == FormatMonth(ym)
    ensures !(0 <= ym.year <= 9999) ==> ParseMonth(s).None?
  {
    if 0 <= ym.year <= 9999 then FormatMonth(ym)
    else (if ym.year < 0 then "-" else "+") + PadDigits(if ym.year < 0 then -ym.year else ym.year, 6)
  }

  // ---------------------------------------------------------------------
  // JavaScript Date objects holding the first instant of a month
  // ---------------------------------------------------------------------

  /** A JavaScript number as these handlers see it: an integer, or NaN. */
  datatype JsNumber = Finite(value: int) | NaN

  /** `x + d` in JavaScript: NaN stays NaN. */
  function Plus(x: JsNumber, d: int): JsNumber
  {
    match x
    case Finite(v) => Finite(v + d)
    case NaN => NaN
  }

  datatype DateError = RangeError

  /**
   * A `Date` built from a month token. Such a date is always the first of
   * the month at 00:00 UTC, so only the year and the zero-based month are
   * kept (`valid` is false for an Invalid Date).
   */
  class MonthDate {
    var valid: bool
    var year: int
    var month: int

    predicate Valid()
      reads this
    {
      valid ==> 0 <= month < 12
    }

    /** The month this date lies in. */
    function View(): YearMonth
      reads this
    {
      YearMonth(year, month + 1)
    }

    /**
     * `new Date(text)`: a `YYYY-MM` token parses as UTC; any other text, or
     * no text, is taken as an Invalid Date (see `ParseMonth`).
     */
    constructor Parse(text: Option<string>)
      ensures Valid()
      ensures valid <==> text.Some? && ParseMonth(text.value).Some?
      ensures valid ==> View() == ParseMonth(text.value).value
    {
      if text.Some? && ParseMonth(text.value).Some? {
        var ym := ParseMonth(text.value).value;
        valid, year, month := true, ym.year, ym.month - 1;
      } else {
        valid, year, month := false, 0, 0;
      }
    }

    /** `new Date(other)`: a copy of the same time value. */
    constructor Copy(other: MonthDate)
      requires other.Valid()
      ensures Valid()
      ensures valid == other.valid && (valid ==> View() == other.View())
    {
      valid, year, month := other.valid, other.year, other.month;
    }

    /** `getMonth()`: zero-based, NaN for an Invalid Date. */
    function GetMonth(): (r: JsNumber)
      reads this
      requires Valid()
      ensures valid ==> r == Finite(View().month - 1)
      ensures !valid ==> r == NaN
    {
      if valid then Finite(month) else NaN
    }

    /**
     * `setMonth(m)`: a month outside 0..11 carries into the year, so the
     * month index becomes that of January of the old year plus `m`; NaN
     * makes the date invalid.
     */
    method SetMonth(m: JsNumber)
      requires Valid()
      modifies this
      ensures Valid()
      ensures valid <==> old(valid) && m.Finite?
      ensures valid ==> MonthIndex(View()) == 12 * old(year) + m.value
    {
      if valid && m.Finite? {
        year := year + m.value / 12;
        month := m.value % 12;
      } else {
        valid := false;
      }
    }

    /** `getTime()` */
    function Time(): (t: JsNumber)
      reads this
      requires Valid()
      ensures valid ==> t == Finite(MonthStart(View()))
      ensures !valid ==> t == NaN
    {
      if valid then Finite(MonthStart(View())) else NaN
    }

    /** `toISOString().slice(0, 7)`; an Invalid Date throws a RangeError. */
    function IsoMonth(): (r: Result<string, DateError>)
      reads this
      requires Valid()
      requires valid ==> -999999 <= year <= 999999
      ensures valid ==> r == Success(IsoMonthPrefix(View()))
      ensures !valid ==> r == Failure(RangeError)
    {
      if valid then Success(IsoMonthPrefix(View())) else Failure(RangeError)
    }
  }
}
