/**
 * The Summary component: the per-category breakdown built by one scan of
 * the expenses, its join against the budget list, and the colour test on
 * the remaining amount.
 */
module Summary {
  import opened Wrappers
  import opened Ledger

  // ---------------------------------------------------------------------
  // Reference definitions
  // ---------------------------------------------------------------------

  /** Sum of the amounts whose category is exactly `c` (no trimming, no case folding). */
  function CategorySum(s: seq<Expense>, c: string): int
  {
    if |s| == 0 then 0
    else (if s[0].category == c then s[0].amount else 0) + CategorySum(s[1..], c)
  }

  /** The category labels that occur in the expense list. */
  function Categories(s: seq<Expense>): set<string>
  {
    set i | 0 <= i < |s| :: s[i].category
  }

  /** A category that occurs nowhere sums to 0. */
  lemma {:induction false} CategorySumAbsent(s: seq<Expense>, c: string)
    requires c !in Categories(s)
    ensures CategorySum(s, c) == 0
  {
    if |s| > 0 {
      assert s[0].category in Categories(s);
      assert Categories(s[1..]) <= Categories(s) by {
        forall x | x in Categories(s[1..]) ensures x in Categories(s) {
          var i :| 0 <= i < |s[1..]| && s[1..][i].category == x;
          assert s[i + 1].category == x;
        }
      }
      CategorySumAbsent(s[1..], c);
    }
  }

  /** The scan step: one more expense adds its amount to its own category only. */
  lemma {:induction false} CategorySumAppend(s: seq<Expense>, e: Expense, c: string)
    ensures CategorySum(s + [e], c) == CategorySum(s, c) + (if e.category == c then e.amount else 0)
  {
    if |s| == 0 {
      assert (s + [e])[1..] == [];
    } else {
      assert (s + [e])[1..] == s[1..] + [e];
      CategorySumAppend(s[1..], e, c);
    }
  }

  /** The labels of a non-empty list: its first label and those of the rest. */
  lemma CategoriesCons(s: seq<Expense>)
    requires |s| > 0
    ensures Categories(s) == {s[0].category} + Categories(s[1..])
  {
    forall x | x in Categories(s) ensures x == s[0].category || x in Categories(s[1..]) {
      var i :| 0 <= i < |s| && s[i].category == x;
      if i > 0 { assert s[1..][i - 1].category == x; }
    }
    forall x | x in Categories(s[1..]) ensures x in Categories(s) {
      var i :| 0 <= i < |s[1..]| && s[1..][i].category == x;
      assert s[i + 1].category == x;
    }
    assert s[0].category in Categories(s);
  }

  lemma CategoriesAppend(s: seq<Expense>, e: Expense)
    ensures Categories(s + [e]) == Categories(s) + {e.category}
  {
    var t := s + [e];
    forall x | x in Categories(t) ensures x in Categories(s) + {x} && (x != e.category ==> x in Categories(s)) {
      var i :| 0 <= i < |t| && t[i].category == x;
      if i < |s| { assert s[i].category == x; }
    }
    forall x | x in Categories(s) ensures x in Categories(t) {
      var i :| 0 <= i < |s| && s[i].category == x;
      assert t[i].category == x;
    }
    assert t[|s|].category == e.category;
  }

  // ---------------------------------------------------------------------
  // The `categoryExpenses` scan
  // ---------------------------------------------------------------------

  /**
   * `expenses.reduce((acc, e) => { acc[e.category] = (acc[e.category] || 0) + e.amount; ... }, {})`,
   * with the accumulator as an own-key dictionary (see CategoryExpensesAsWritten
   * for the object the source actually starts from).
   */
  method CategoryExpenses(expenses: seq<Expense>) returns (acc: map<string, int>)
    ensures acc.Keys == Categories(expenses)
    ensures forall c :: c in acc ==> acc[c] == CategorySum(expenses, c)
  {
    acc := map[];
    var i := 0;
    while i < |expenses|
      invariant 0 <= i <= |expenses|
      invariant acc.Keys == Categories(expenses[..i])
      invariant forall c :: c in acc ==> acc[c] == CategorySum(expenses[..i], c)
    {
      var e := expenses[i];
      var prior := if e.category in acc then acc[e.category] else 0;
      if e.category !in acc {
        CategorySumAbsent(expenses[..i], e.category);
      }
      acc := acc[e.category := prior + e.amount];
      assert expenses[..i + 1] == expenses[..i] + [e];
      CategoriesAppend(expenses[..i], e);
      forall c | c in acc ensures acc[c] == CategorySum(expenses[..i + 1], c) {
        CategorySumAppend(expenses[..i], e, c);
      }
      i := i + 1;
    }
    assert expenses[..i] == expenses;
  }

  // ---------------------------------------------------------------------
  // The breakdown adds up to the total
  // ---------------------------------------------------------------------

  predicate Distinct(keys: seq<string>)
  {
    forall i, j :: 0 <= i < j < |keys| ==> keys[i] != keys[j]
  }

  /** The values of `m` read in the order `keys` lists them. */
  function SumValues(m: map<string, int>, keys: seq<string>): int
    requires forall i :: 0 <= i < |keys| ==> keys[i] in m
  {
    if |keys| == 0 then 0 else m[keys[0]] + SumValues(m, keys[1..])
  }

  /** Sum over the listed keys of each key's category sum. */
  function SumOfCategories(s: seq<Expense>, keys: seq<string>): int
  {
    if |keys| == 0 then 0 else CategorySum(s, keys[0]) + SumOfCategories(s, keys[1..])
  }

  /** Summing `a` at the one listed key equal to `c` and 0 elsewhere. */
  function Indicator(keys: seq<string>, c: string, a: int): int
  {
    if |keys| == 0 then 0 else (if keys[0] == c then a else 0) + Indicator(keys[1..], c, a)
  }

  lemma {:induction false} IndicatorOnce(keys: seq<string>, c: string, a: int)
    requires Distinct(keys)
    ensures Indicator(keys, c, a) == if c in keys then a else 0
  {
    if |keys| > 0 {
      IndicatorOnce(keys[1..], c, a);
      if keys[0] == c {
        assert c !in keys[1..] by {
          forall j | 0 <= j < |keys[1..]| ensures keys[1..][j] != c {
            assert keys[j + 1] != keys[0];
          }
        }
      } else {
        assert c in keys <==> c in keys[1..] by {
          if c in keys {
            var j :| 0 <= j < |keys| && keys[j] == c;
            assert keys[1..][j - 1] == c;
          }
        }
      }
    }
  }

  lemma {:induction false} SumOfCategoriesHead(e: Expense, rest: seq<Expense>, keys: seq<string>)
    ensures SumOfCategories([e] + rest, keys) == Indicator(keys, e.category, e.amount) + SumOfCategories(rest, keys)
  {
    if |keys| > 0 {
      assert ([e] + rest)[1..] == rest;
      SumOfCategoriesHead(e, rest, keys[1..]);
    }
  }

  lemma {:induction false} SumOfCategoriesEmpty(keys: seq<string>)
    ensures SumOfCategories([], keys) == 0
  {
    if |keys| > 0 {
      SumOfCategoriesEmpty(keys[1..]);
    }
  }

  /** Over any duplicate-free list naming every category, the category sums add up to the total. */
  lemma {:induction false} SumOfCategoriesIsTotal(s: seq<Expense>, keys: seq<string>)
    requires Distinct(keys)
    requires forall i :: 0 <= i < |s| ==> s[i].category in keys
    ensures SumOfCategories(s, keys) == Total(s)
  {
    if |s| == 0 {
      SumOfCategoriesEmpty(keys);
    } else {
      assert s == [s[0]] + s[1..];
      SumOfCategoriesHead(s[0], s[1..], keys);
      IndicatorOnce(keys, s[0].category, s[0].amount);
      assert forall i :: 0 <= i < |s[1..]| ==> s[1..][i] == s[i + 1];
      SumOfCategoriesIsTotal(s[1..], keys);
    }
  }

  lemma {:induction false} SumValuesAreCategorySums(s: seq<Expense>, m: map<string, int>, keys: seq<string>)
    requires forall c :: c in m ==> m[c] == CategorySum(s, c)
    requires forall i :: 0 <= i < |keys| ==> keys[i] in m
    ensures SumValues(m, keys) == SumOfCategories(s, keys)
  {
    if |keys| > 0 {
      SumValuesAreCategorySums(s, m, keys[1..]);
    }
  }

  /**
   * The values of the breakdown map, read once per key in any order, add
   * up to `totalExpenses` over the same list.
   */
  lemma BreakdownSumsToTotal(s: seq<Expense>, m: map<string, int>, keys: seq<string>)
    requires m.Keys == Categories(s)
    requires forall c :: c in m ==> m[c] == CategorySum(s, c)
    requires Distinct(keys) && (forall i :: 0 <= i < |keys| ==> keys[i] in m)
    requires forall c :: c in m ==> c in keys
    ensures SumValues(m, keys) == Total(s)
  {
    SumValuesAreCategorySums(s, m, keys);
    forall i | 0 <= i < |s| ensures s[i].category in keys {
      assert s[i].category in Categories(s);
    }
    SumOfCategoriesIsTotal(s, keys);
  }

  // ---------------------------------------------------------------------
  // The budget-by-budget breakdown rows and the colour test
  // ---------------------------------------------------------------------

  /** One row of the "Category Breakdown" list. */
  datatype Row = Row(category: string, spent: int, budget: int)

  /** `categoryExpenses[c] || 0` on an own-key dictionary. */
  function SpentFor(acc: map<string, int>, c: string): (spent: int)
    ensures c in acc ==> spent == acc[c]
    ensures c !in acc ==> spent == 0
  {
    if c in acc then acc[c] else 0
  }

  /** `categoryBudgets.map(cb => ...)`: one row per budget, in budget-list order. */
  function Breakdown(budgets: seq<CategoryBudget>, acc: map<string, int>): (rows: seq<Row>)
    ensures |rows| == |budgets|
    ensures forall i :: 0 <= i < |budgets| ==>
              rows[i] == Row(budgets[i].category, SpentFor(acc, budgets[i].category), budgets[i].budget)
  {
    if |budgets| == 0 then []
    else
      [Row(budgets[0].category, SpentFor(acc, budgets[0].category), budgets[0].budget)]
      + Breakdown(budgets[1..], acc)
  }

  /**
   * Joined with the scan's map, each row shows exactly what was spent in
   * its category, 0 for a budget nothing was spent against.
   */
  lemma BreakdownShowsCategorySpending(expenses: seq<Expense>, budgets: seq<CategoryBudget>, acc: map<string, int>)
    requires acc.Keys == Categories(expenses)
    requires forall c :: c in acc ==> acc[c] == CategorySum(expenses, c)
    ensures forall i :: 0 <= i < |budgets| ==>
              Breakdown(budgets, acc)[i].spent == CategorySum(expenses, budgets[i].category)
    ensures forall i :: 0 <= i < |budgets| && budgets[i].category !in Categories(expenses) ==>
              Breakdown(budgets, acc)[i].spent == 0
  {
    forall i | 0 <= i < |budgets| ensures Breakdown(budgets, acc)[i].spent == CategorySum(expenses, budgets[i].category) {
      if budgets[i].category !in acc {
        CategorySumAbsent(expenses, budgets[i].category);
      }
    }
  }

  /** The remaining amount is shown green or red. */
  datatype Tone = Green | Red

  /** `remainingAmount >= 0 ? 'text-green-600' : 'text-red-600'` */
  function RemainingTone(remainingAmount: int): (t: Tone)
    ensures t == Green <==> remainingAmount >= 0
  {
    if remainingAmount >= 0 then Green else Red
  }

  /** Red exactly when spending exceeds the earning; spending it all exactly is green. */
  lemma ToneOfLedger(earning: int, expenses: seq<Expense>)
    ensures RemainingTone(Remaining(earning, expenses)) == Red <==> Total(expenses) > earning
  {
  }

  // ---------------------------------------------------------------------
  // The scan as written: the accumulator starts as `{}`, a plain object
  // that inherits the members of Object.prototype.
  // ---------------------------------------------------------------------

  /**
   * A property value as the scan sees it: a number, or something that is
   * not a number (an inherited function, or the string that `function + number`
   * yields).
   */
  datatype JsValue = Number(n: int) | NonNumber

  /** The data members every plain object inherits from Object.prototype (all functions). */
  const ObjectPrototypeMembers: set<string> :=
    {"constructor", "hasOwnProperty", "isPrototypeOf", "propertyIsEnumerable",
     "toLocaleString", "toString", "valueOf",
     "__defineGetter__", "__defineSetter__", "__lookupGetter__", "__lookupSetter__"}

  /** `obj[k]`: an own property, else an inherited member, else undefined. */
  function JsGet(obj: map<string, JsValue>, k: string): Option<JsValue>
  {
    if k in obj then Some(obj[k])
    else if k in ObjectPrototypeMembers then Some(NonNumber)
    else None
  }

  /** `(obj[k] || 0) + amount` */
  function AddAmount(v: Option<JsValue>, amount: int): JsValue
  {
    match v
    case None => Number(amount)
    case Some(Number(n)) => Number(n + amount)
    case Some(NonNumber) => NonNumber
  }

  /** The reduce exactly as written, folding from the left over `{}`-like `acc`. */
  function CategoryExpensesAsWritten(s: seq<Expense>, acc: map<string, JsValue>): (r: map<string, JsValue>)
    ensures r.Keys == acc.Keys + Categories(s)
  {
    if |s| == 0 then acc
    else
      CategoriesCons(s);
      CategoryExpensesAsWritten(s[1..], acc[s[0].category := AddAmount(JsGet(acc, s[0].category), s[0].amount)])
  }

  datatype RenderError = TypeError

  /** `categoryExpenses[c]?.toFixed(2) || '0.00'`: a non-number has no `toFixed`. */
  function SpentCellAsWritten(obj: map<string, JsValue>, c: string): (r: Result<int, RenderError>)
    ensures r.Failure? <==> (c in obj && obj[c].NonNumber?) || (c !in obj && c in ObjectPrototypeMembers)
    ensures c in obj && obj[c].Number? ==> r == Success(obj[c].n)
    ensures c !in obj && c !in ObjectPrototypeMembers ==> r == Success(0)
  {
    match JsGet(obj, c)
    case None => Success(0)
    case Some(Number(n)) => Success(n)
    case Some(NonNumber) => Failure(TypeError)
  }

  /** For labels that are not Object.prototype members, the scan as written agrees with the own-key model. */
  lemma {:induction false} AsWrittenAgreesOffPrototype(s: seq<Expense>, acc: map<string, JsValue>, own: map<string, int>, c: string)
    requires c !in ObjectPrototypeMembers
    requires (c in acc <==> c in own) && (c in own ==> acc[c] == Number(own[c]))
    ensures var r := CategoryExpensesAsWritten(s, acc);
            c in r <==> c in own || c in Categories(s)
    ensures var r := CategoryExpensesAsWritten(s, acc);
            c in r ==> r[c] == Number(SpentFor(own, c) + CategorySum(s, c))
  {
    if |s| > 0 {
      var acc' := acc[s[0].category := AddAmount(JsGet(acc, s[0].category), s[0].amount)];
      var own' := if s[0].category == c then own[c := SpentFor(own, c) + s[0].amount] else own;
      AsWrittenAgreesOffPrototype(s[1..], acc', own', c);
      CategoriesCons(s);
    }
  }

  /**
   * An expense filed under "constructor" turns its category's entry into a
   * non-number, and rendering a budget row for it throws; a budget labelled
   * "toString" throws even with no expenses at all. The own-key model gives
   * 5 and 0.
   */
  lemma PrototypeLabelsBreakTheBreakdown()
    ensures var s := [Expense("e1", "Dinner", 5, "constructor")];
            && CategoryExpensesAsWritten(s, map[])["constructor"] == NonNumber
            && SpentCellAsWritten(CategoryExpensesAsWritten(s, map[]), "constructor") == Failure(TypeError)
            && CategorySum(s, "constructor") == 5
    ensures SpentCellAsWritten(CategoryExpensesAsWritten([], map[]), "toString") == Failure(TypeError)
    ensures SpentFor(map[], "toString") == 0
  {
    var s := [Expense("e1", "Dinner", 5, "constructor")];
    assert s[1..] == [];
  }
}
