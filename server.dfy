/**
 * The two listing routes of the REST server: `GET /api/expenses`, which
 * keeps the stored expenses dated inside the requested month, and
 * `GET /api/categoryBudgets`, which returns every stored budget. The store
 * is an in-memory sequence; the query is a filter over it.
 */
module Server {
  import opened Wrappers
  import opened Calendar

  /**
   * A stored expense document. `date` is in milliseconds since
   * 1970-01-01T00:00:00Z; the schema does not require it, so a document
   * saved from a body without one has `None`.
   */
  datatype StoredExpense = StoredExpense(id: string, activity: string, amount: int, category: string, date: Option<int>)

  /** A stored category-budget document. */
  datatype StoredBudget = StoredBudget(id: string, category: string, budget: int)

  /** The half-open interval [start, end) of instants. */
  datatype Window = Window(start: int, end: int)

  predicate InWindow(w: Window, t: int)
  {
    w.start <= t < w.end
  }

  /** The range condition on `date`: a document without a date matches no range. */
  predicate DatedIn(w: Window, x: StoredExpense)
  {
    x.date.Some? && InWindow(w, x.date.value)
  }

  /** The window of a month: from its first instant up to the first instant of the next month. */
  function MonthWindow(ym: YearMonth): (w: Window)
    requires ValidMonth(ym)
    ensures w.start == MonthStart(ym) && w.end == MonthStart(NextMonth(ym))
    ensures w.end - w.start == DaysInMonth(ym.year, ym.month) * MsPerDay
  {
    MonthLength(ym);
    Window(MonthStart(ym), MonthStart(NextMonth(ym)))
  }

  /** The window is half-open: its start instant is in it, its end instant is not. */
  lemma WindowHalfOpen(ym: YearMonth)
    requires ValidMonth(ym)
    ensures InWindow(MonthWindow(ym), MonthStart(ym))
    ensures !InWindow(MonthWindow(ym), MonthStart(NextMonth(ym)))
  {
  }

  /** December's window ends where January of the next year begins. */
  lemma DecemberWindowRollsOver(y: int)
    ensures MonthWindow(YearMonth(y, 12)).end == MonthStart(YearMonth(y + 1, 1))
  {
  }

  /** Consecutive months' windows meet end to start. */
  lemma ConsecutiveWindowsAdjacent(ym: YearMonth)
    requires ValidMonth(ym)
    ensures MonthWindow(ym).end == MonthWindow(NextMonth(ym)).start
  {
  }

  /** The windows of two different months share no instant. */
  lemma DistinctWindowsDisjoint(a: YearMonth, b: YearMonth, t: int)
    requires ValidMonth(a) && ValidMonth(b) && a != b
    ensures !(InWindow(MonthWindow(a), t) && InWindow(MonthWindow(b), t))
  {
    if MonthIndex(a) == MonthIndex(b) {
      MonthIndexInjective(a, b);
    } else if MonthIndex(a) < MonthIndex(b) {
      var n := NextMonth(a);
      if MonthIndex(n) < MonthIndex(b) {
        MonthStartIncreasing(n, b);
      } else {
        MonthIndexInjective(n, b);
      }
    } else {
      var n := NextMonth(b);
      if MonthIndex(n) < MonthIndex(a) {
        MonthStartIncreasing(n, a);
      } else {
        MonthIndexInjective(n, a);
      }
    }
  }

  /** `{ date: { $gte: start, $lt: end } }` over the store, in stored order. */
  function SelectDated(store: seq<StoredExpense>, w: Window): (r: seq<StoredExpense>)
    ensures forall x :: x in r <==> x in store && DatedIn(w, x)
    ensures forall x :: multiset(r)[x] == if DatedIn(w, x) then multiset(store)[x] else 0
  {
    if |store| == 0 then []
    else
      assert store == [store[0]] + store[1..];
      (if DatedIn(w, store[0]) then [store[0]] else []) + SelectDated(store[1..], w)
  }

  datatype QueryError = CastError

  /** The query itself: a NaN bound (an Invalid Date) cannot be cast, anything else selects. */
  function Find(store: seq<StoredExpense>, gte: JsNumber, lt: JsNumber): (r: Result<seq<StoredExpense>, QueryError>)
    ensures r.Failure? <==> gte.NaN? || lt.NaN?
    ensures r.Success? ==> forall x :: x in r.value <==> x in store && DatedIn(Window(gte.value, lt.value), x)
  {
    if gte.Finite? && lt.Finite? then Success(SelectDated(store, Window(gte.value, lt.value)))
    else Failure(CastError)
  }

  /** Whether the `month` query parameter names a month. */
  predicate MonthGiven(month: Option<string>)
  {
    month.Some? && ParseMonth(month.value).Some?
  }

  /**
   * `GET /api/expenses?month=YYYY-MM`: exactly the stored expenses dated in
   * that month's window; a missing or malformed month fails the query.
   */
  method GetExpenses(store: seq<StoredExpense>, month: Option<string>) returns (r: Result<seq<StoredExpense>, QueryError>)
    ensures !MonthGiven(month) ==> r == Failure(CastError)
    ensures MonthGiven(month) ==> r == Success(SelectDated(store, MonthWindow(ParseMonth(month.value).value)))
  {
    var startDate := new MonthDate.Parse(month);
    var endDate := new MonthDate.Copy(startDate);
    endDate.SetMonth(Plus(endDate.GetMonth(), 1));
    if startDate.valid {
      MonthIndexInjective(endDate.View(), NextMonth(startDate.View()));
    }
    r := Find(store, startDate.Time(), endDate.Time());
  }

  /**
   * A new record is listed for a month exactly once when it carries a date
   * inside that month, and never otherwise: in particular a record saved
   * without a date is listed for no month at all.
   */
  lemma CreatedExpenseListedOnce(store: seq<StoredExpense>, x: StoredExpense, ym: YearMonth)
    requires ValidMonth(ym) && x !in store
    ensures multiset(SelectDated(store + [x], MonthWindow(ym)))[x] == if DatedIn(MonthWindow(ym), x) then 1 else 0
  {
    assert multiset(store + [x])[x] == multiset(store)[x] + 1;
  }

  /** A document without a date is never returned, whatever month is asked for. */
  lemma UndatedNeverListed(store: seq<StoredExpense>, x: StoredExpense)
    requires x.date.None?
    ensures forall w :: x !in SelectDated(store, w)
  {
  }

  /** `GET /api/categoryBudgets`: every stored budget, whatever month was asked for. */
  function GetCategoryBudgets(store: seq<StoredBudget>, month: Option<string>): (r: seq<StoredBudget>)
    ensures r == store
  {
    store
  }

  /** Which month is asked for makes no difference to the budget listing. */
  lemma BudgetsIgnoreMonth(store: seq<StoredBudget>, a: Option<string>, b: Option<string>)
    ensures GetCategoryBudgets(store, a) == GetCategoryBudgets(store, b)
    ensures forall x :: x in GetCategoryBudgets(store, a) <==> x in store
  {
  }

  /** The token `2024-12` names December 2024. */
  lemma December2024Parses()
    ensures ParseMonth("2024-12") == Some(YearMonth(2024, 12))
  {
    var t := "2024-12";
    assert t[..4] == "2024" && t[5..] == "12";
    assert DigitsValue("2024") == 2024 by {
      assert "2024"[..3] == "202" && "202"[..2] == "20" && "20"[..1] == "2" && "2"[..0] == "";
    }
    assert DigitsValue("12") == 12 by {
      assert "12"[..1] == "1" && "1"[..0] == "";
    }
  }

  /** `?month=2024-12` selects [2024-12-01T00:00:00Z, 2025-01-01T00:00:00Z). */
  lemma December2024Window()
    ensures ParseMonth("2024-12") == Some(YearMonth(2024, 12))
    ensures MonthWindow(YearMonth(2024, 12)) == Window(1_733_011_200_000, 1_735_689_600_000)
  {
    December2024Parses();
    assert DaysBeforeYear(2024) == 739251;
    assert DaysBeforeMonth(2024, 12) == 335;
    assert DaysBeforeYear(2025) == 739617;
  }
}
