/**
 * The MonthSelector component's two buttons: each builds a `Date` from the
 * selected `YYYY-MM` token, moves it one month with `setMonth`, and hands
 * `toISOString().slice(0, 7)` to `onSelectMonth`. A token that `ParseMonth`
 * does not accept stands for an Invalid Date here, whose `toISOString`
 * throws, so nothing is handed on (JavaScript also parses other forms,
 * such as full dates and expanded years, which this model does not).
 */
module MonthSelector {
  import opened Wrappers
  import opened Calendar

  /** `handlePreviousMonth`: the token handed to `onSelectMonth`, or the error thrown. */
  method HandlePreviousMonth(selectedMonth: string) returns (emitted: Result<string, DateError>)
    ensures ParseMonth(selectedMonth).None? ==> emitted == Failure(RangeError)
    ensures ParseMonth(selectedMonth).Some? ==>
              emitted == Success(IsoMonthPrefix(PrevMonth(ParseMonth(selectedMonth).value)))
  {
    var date := new MonthDate.Parse(Some(selectedMonth));
    date.SetMonth(Plus(date.GetMonth(), -1));
    if date.valid {
      MonthIndexInjective(date.View(), PrevMonth(ParseMonth(selectedMonth).value));
    }
    emitted := date.IsoMonth();
  }

  /** `handleNextMonth`: the token handed to `onSelectMonth`, or the error thrown. */
  method HandleNextMonth(selectedMonth: string) returns (emitted: Result<string, DateError>)
    ensures ParseMonth(selectedMonth).None? ==> emitted == Failure(RangeError)
    ensures ParseMonth(selectedMonth).Some? ==>
              emitted == Success(IsoMonthPrefix(NextMonth(ParseMonth(selectedMonth).value)))
  {
    var date := new MonthDate.Parse(Some(selectedMonth));
    date.SetMonth(Plus(date.GetMonth(), 1));
    if date.valid {
      MonthIndexInjective(date.View(), NextMonth(ParseMonth(selectedMonth).value));
    }
    emitted := date.IsoMonth();
  }

  /**
   * Going forward and then back (or back and then forward) returns the
   * very token the selector started from, as long as the intermediate
   * month stays within years 0000 to 9999.
   */
  lemma StepTokensRoundTrip(token: string)
    requires ParseMonth(token).Some?
    ensures var ym := ParseMonth(token).value;
            NextMonth(ym).year <= 9999 ==>
              && ParseMonth(IsoMonthPrefix(NextMonth(ym))) == Some(NextMonth(ym))
              && IsoMonthPrefix(PrevMonth(NextMonth(ym))) == token
    ensures var ym := ParseMonth(token).value;
            PrevMonth(ym).year >= 0 ==>
              && ParseMonth(IsoMonthPrefix(PrevMonth(ym))) == Some(PrevMonth(ym))
              && IsoMonthPrefix(NextMonth(PrevMonth(ym))) == token
  {
    var ym := ParseMonth(token).value;
    PrevNextInverse(ym);
    FormatParse(token);
    if NextMonth(ym).year <= 9999 {
      ParseFormat(NextMonth(ym));
    }
    if PrevMonth(ym).year >= 0 {
      ParseFormat(PrevMonth(ym));
    }
  }

  /**
   * Within years 0000 to 9999 each step moves the month index by exactly
   * one and yields a well-formed 7-character token.
   */
  lemma StepTokenShape(token: string)
    requires ParseMonth(token).Some?
    ensures var ym := ParseMonth(token).value;
            NextMonth(ym).year <= 9999 ==>
              var t := IsoMonthPrefix(NextMonth(ym));
              |t| == 7 && ParseMonth(t).Some? && MonthIndex(ParseMonth(t).value) == MonthIndex(ym) + 1
    ensures var ym := ParseMonth(token).value;
            PrevMonth(ym).year >= 0 ==>
              var t := IsoMonthPrefix(PrevMonth(ym));
              |t| == 7 && ParseMonth(t).Some? && MonthIndex(ParseMonth(t).value) == MonthIndex(ym) - 1
  {
    var ym := ParseMonth(token).value;
    if NextMonth(ym).year <= 9999 {
      ParseFormat(NextMonth(ym));
    }
    if PrevMonth(ym).year >= 0 {
      ParseFormat(PrevMonth(ym));
    }
  }

  /** After 9999-12 the emitted token switches to the expanded-year form. */
  lemma NextAfterYear9999()
    ensures IsoMonthPrefix(NextMonth(YearMonth(9999, 12))) == "+010000"
  {
    assert PadDigits(0, 1) == "0";
    assert PadDigits(1, 2) == "01";
    assert PadDigits(10, 3) == "010";
    assert PadDigits(100, 4) == "0100";
    assert PadDigits(1000, 5) == "01000";
    assert PadDigits(10000, 6) == "010000";
  }

  /** Before 0000-01 the emitted token switches to the expanded-year form. */
  lemma PrevBeforeYear0()
    ensures IsoMonthPrefix(PrevMonth(YearMonth(0, 1))) == "-000001"
  {
    assert PadDigits(0, 1) == "0";
    assert PadDigits(0, 2) == "00";
    assert PadDigits(0, 3) == "000";
    assert PadDigits(0, 4) == "0000";
    assert PadDigits(0, 5) == "00000";
    assert PadDigits(1, 6) == "000001";
  }

  /**
   * At the ends of the four-digit range the step leaves the `YYYY-MM` form:
   * after 9999-12 comes "+010000", before 0000-01 comes "-000001", and
   * neither is accepted by `ParseMonth` (JavaScript would parse both as
   * expanded-year dates, which this model does not).
   */
  lemma StepsLeaveFourDigitYears()
    ensures IsoMonthPrefix(NextMonth(YearMonth(9999, 12))) == "+010000"
    ensures IsoMonthPrefix(PrevMonth(YearMonth(0, 1))) == "-000001"
    ensures ParseMonth("+010000").None? && ParseMonth("-000001").None?
  {
    NextAfterYear9999();
    PrevBeforeYear0();
    assert !IsDigit("+010000"[0]);
    assert !IsDigit("-000001"[0]);
  }
}
