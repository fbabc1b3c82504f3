/**
 * The client ledger held by the top-level App component: the expense list,
 * the category-budget list and the monthly earning, the local list patches
 * applied after each server call, and the two derived aggregates.
 * Amounts are integers in minor currency units.
 */
module Ledger {

  /** An expense as the App holds it; `id` is the store's `_id`. */
  datatype Expense = Expense(id: string, activity: string, amount: int, category: string)

  /** A category budget as the App holds it; `id` is the store's `_id`. */
  datatype CategoryBudget = CategoryBudget(id: string, category: string, budget: int)

  function ExpenseId(e: Expense): string { e.id }

  function BudgetId(b: CategoryBudget): string { b.id }

  // ---------------------------------------------------------------------
  // List patches, shared by both lists (`key` picks the `_id` field)
  // ---------------------------------------------------------------------

  /** `list.filter(x => x._id !== id)` */
  function RemoveById<T>(s: seq<T>, id: string, key: T -> string): (r: seq<T>)
    ensures |r| <= |s|
    ensures forall i :: 0 <= i < |r| ==> key(r[i]) != id
  {
    if |s| == 0 then []
    else (if key(s[0]) != id then [s[0]] else []) + RemoveById(s[1..], id, key)
  }

  /** The filter keeps each entry whose key differs from `id` as often as it occurred, and no other. */
  lemma {:induction false} RemoveByIdCounts<T(!new)>(s: seq<T>, id: string, key: T -> string)
    ensures forall x :: multiset(RemoveById(s, id, key))[x] == if key(x) == id then 0 else multiset(s)[x]
  {
    if |s| > 0 {
      RemoveByIdCounts(s[1..], id, key);
      var h := if key(s[0]) != id then [s[0]] else [];
      assert multiset(s) == multiset([s[0]]) + multiset(s[1..]) by {
        assert s == [s[0]] + s[1..];
      }
      assert multiset(RemoveById(s, id, key)) == multiset(h) + multiset(RemoveById(s[1..], id, key));
    }
  }

  /** An entry survives the filter exactly when it was there and its key differs from `id`. */
  lemma RemoveByIdMembers<T(!new)>(s: seq<T>, id: string, key: T -> string)
    ensures forall x :: x in RemoveById(s, id, key) <==> x in s && key(x) != id
  {
    RemoveByIdCounts(s, id, key);
    var r := RemoveById(s, id, key);
    forall x ensures x in r <==> x in s && key(x) != id {
      assert x in r <==> multiset(r)[x] > 0;
      assert x in s <==> multiset(s)[x] > 0;
    }
  }

  /** The entries a removal by `id` takes away: `list.filter(x => x._id === id)`. */
  function SelectById<T>(s: seq<T>, id: string, key: T -> string): (r: seq<T>)
    ensures |r| <= |s|
    ensures forall i :: 0 <= i < |r| ==> key(r[i]) == id
  {
    if |s| == 0 then []
    else (if key(s[0]) == id then [s[0]] else []) + SelectById(s[1..], id, key)
  }

  /** The selection holds each entry carrying `id` as often as it occurred, and no other. */
  lemma {:induction false} SelectByIdCounts<T(!new)>(s: seq<T>, id: string, key: T -> string)
    ensures forall x :: multiset(SelectById(s, id, key))[x] == if key(x) == id then multiset(s)[x] else 0
  {
    if |s| > 0 {
      SelectByIdCounts(s[1..], id, key);
      var h := if key(s[0]) == id then [s[0]] else [];
      assert multiset(s) == multiset([s[0]]) + multiset(s[1..]) by {
        assert s == [s[0]] + s[1..];
      }
      assert multiset(SelectById(s, id, key)) == multiset(h) + multiset(SelectById(s[1..], id, key));
    }
  }

  /** A removal and its selection split the list between them: every entry lands in exactly one. */
  lemma RemoveSelectPartition<T(!new)>(s: seq<T>, id: string, key: T -> string)
    ensures multiset(s) == multiset(RemoveById(s, id, key)) + multiset(SelectById(s, id, key))
  {
    RemoveByIdCounts(s, id, key);
    SelectByIdCounts(s, id, key);
  }

  /** `list.map(x => x._id === id ? v : x)` */
  function ReplaceById<T>(s: seq<T>, id: string, key: T -> string, v: T): (r: seq<T>)
    ensures |r| == |s|
    ensures forall i :: 0 <= i < |s| ==> r[i] == if key(s[i]) == id then v else s[i]
  {
    if |s| == 0 then []
    else [if key(s[0]) == id then v else s[0]] + ReplaceById(s[1..], id, key, v)
  }

  /** Removing an id that no entry carries leaves the list as it was. */
  lemma {:induction false} RemoveAbsent<T(!new)>(s: seq<T>, id: string, key: T -> string)
    requires forall i :: 0 <= i < |s| ==> key(s[i]) != id
    ensures RemoveById(s, id, key) == s
  {
    if |s| > 0 {
      RemoveAbsent(s[1..], id, key);
    }
  }

  /** Removing the same id twice is removing it once. */
  lemma {:induction false} RemoveIdempotent<T(!new)>(s: seq<T>, id: string, key: T -> string)
    ensures RemoveById(RemoveById(s, id, key), id, key) == RemoveById(s, id, key)
  {
    RemoveAbsent(RemoveById(s, id, key), id, key);
  }

  /** Removal works piecewise, so the survivors keep their relative order. */
  lemma {:induction false} RemoveKeepsOrder<T(!new)>(a: seq<T>, b: seq<T>, id: string, key: T -> string)
    ensures RemoveById(a + b, id, key) == RemoveById(a, id, key) + RemoveById(b, id, key)
  {
    if |a| == 0 {
      assert a + b == b;
    } else {
      assert (a + b)[1..] == a[1..] + b;
      RemoveKeepsOrder(a[1..], b, id, key);
    }
  }

  /** Replacing an id that no entry carries leaves the list as it was. */
  lemma ReplaceAbsent<T>(s: seq<T>, id: string, key: T -> string, v: T)
    requires forall i :: 0 <= i < |s| ==> key(s[i]) != id
    ensures ReplaceById(s, id, key, v) == s
  {
    var r := ReplaceById(s, id, key, v);
    assert forall i :: 0 <= i < |s| ==> r[i] == s[i];
  }

  /** Replacing twice with the same record is replacing once. */
  lemma ReplaceIdempotent<T>(s: seq<T>, id: string, key: T -> string, v: T)
    ensures ReplaceById(ReplaceById(s, id, key, v), id, key, v) == ReplaceById(s, id, key, v)
  {
    var r := ReplaceById(s, id, key, v);
    var rr := ReplaceById(r, id, key, v);
    assert forall i :: 0 <= i < |s| ==> rr[i] == r[i];
  }

  // ---------------------------------------------------------------------
  // Aggregates
  // ---------------------------------------------------------------------

  /** `expenses.reduce((sum, e) => sum + e.amount, 0)` */
  function Total(s: seq<Expense>): (t: int)
    ensures |s| == 0 ==> t == 0
    ensures (forall i :: 0 <= i < |s| ==> s[i].amount >= 0) ==> t >= 0
  {
    if |s| == 0 then 0 else s[0].amount + Total(s[1..])
  }

  /** The total of a concatenation is the sum of the totals. */
  lemma {:induction false} TotalConcat(a: seq<Expense>, b: seq<Expense>)
    ensures Total(a + b) == Total(a) + Total(b)
  {
    if |a| == 0 {
      assert a + b == b;
    } else {
      assert (a + b)[1..] == a[1..] + b;
      TotalConcat(a[1..], b);
    }
  }

  /** Appending an expense raises the total by exactly its amount. */
  lemma TotalAppend(s: seq<Expense>, e: Expense)
    ensures Total(s + [e]) == Total(s) + e.amount
  {
    TotalConcat(s, [e]);
  }

  /** Removing by id lowers the total by the sum of the removed amounts. */
  lemma {:induction false} TotalRemove(s: seq<Expense>, id: string)
    ensures Total(RemoveById(s, id, ExpenseId)) == Total(s) - Total(SelectById(s, id, ExpenseId))
  {
    if |s| > 0 {
      TotalRemove(s[1..], id);
      var rest := RemoveById(s[1..], id, ExpenseId);
      var gone := SelectById(s[1..], id, ExpenseId);
      if s[0].id == id {
        TotalConcat([s[0]], gone);
        assert [] + rest == rest;
      } else {
        TotalConcat([s[0]], rest);
        assert [] + gone == gone;
      }
    }
  }

  lemma MulSucc(k: int, a: int)
    ensures (k + 1) * a == k * a + a
  {
  }
  lemma EditStepMatch(s: seq<Expense>, id: string, v: Expense)
    requires |s| > 0 && s[0].id == id
    ensures Total(ReplaceById(s, id, ExpenseId, v)) == v.amount + Total(ReplaceById(s[1..], id, ExpenseId, v))
    ensures |SelectById(s, id, ExpenseId)| == |SelectById(s[1..], id, ExpenseId)| + 1
    ensures RemoveById(s, id, ExpenseId) == RemoveById(s[1..], id, ExpenseId)
  {
    assert ReplaceById(s, id, ExpenseId, v) == [v] + ReplaceById(s[1..], id, ExpenseId, v);
    assert ([v] + ReplaceById(s[1..], id, ExpenseId, v))[1..] == ReplaceById(s[1..], id, ExpenseId, v);
  }
  lemma EditStepOther(s: seq<Expense>, id: string, v: Expense)
    requires |s| > 0 && s[0].id != id
    ensures Total(ReplaceById(s, id, ExpenseId, v)) == s[0].amount + Total(ReplaceById(s[1..], id, ExpenseId, v))
    ensures |SelectById(s, id, ExpenseId)| == |SelectById(s[1..], id, ExpenseId)|
    ensures Total(RemoveById(s, id, ExpenseId)) == s[0].amount + Total(RemoveById(s[1..], id, ExpenseId))
  {
    assert ReplaceById(s, id, ExpenseId, v) == [s[0]] + ReplaceById(s[1..], id, ExpenseId, v);
    assert ([s[0]] + ReplaceById(s[1..], id, ExpenseId, v))[1..] == ReplaceById(s[1..], id, ExpenseId, v);
    assert RemoveById(s, id, ExpenseId) == [s[0]] + RemoveById(s[1..], id, ExpenseId);
    assert ([s[0]] + RemoveById(s[1..], id, ExpenseId))[1..] == RemoveById(s[1..], id, ExpenseId);
  }
  /** Editing by id: the survivors keep their amounts and every replaced entry now carries the new amount. */
  lemma {:induction false} TotalEdit(s: seq<Expense>, id: string, v: Expense)
    ensures Total(ReplaceById(s, id, ExpenseId, v))
         == Total(RemoveById(s, id, ExpenseId)) + |SelectById(s, id, ExpenseId)| * v.amount
  {
    if |s| > 0 {
      TotalEdit(s[1..], id, v);
      if s[0].id == id {
        EditStepMatch(s, id, v);
        MulSucc(|SelectById(s[1..], id, ExpenseId)|, v.amount);
      } else {
        EditStepOther(s, id, v);
      }
    }
  }

  /** `remainingAmount`: earning minus spending, not clamped at zero. */
  function Remaining(earning: int, s: seq<Expense>): (r: int)
    ensures r + Total(s) == earning
    ensures r < 0 <==> Total(s) > earning
  {
    earning - Total(s)
  }

  // ---------------------------------------------------------------------
  // The App component's state
  // ---------------------------------------------------------------------

  /**
   * The three pieces of App state. Each handler is modelled as one atomic
   * step taken once its server call has answered; the answered record is a
   * parameter.
   */
  class App {
    var monthlyEarning: int
    var expenses: seq<Expense>
    var categoryBudgets: seq<CategoryBudget>

    constructor ()
      ensures monthlyEarning == 0 && expenses == [] && categoryBudgets == []
    {
      monthlyEarning := 0;
      expenses := [];
      categoryBudgets := [];
    }

    /** `setExpenses(data)` once a listing has answered: the list is replaced wholesale. */
    method ReceiveExpenses(data: seq<Expense>)
      modifies this
      ensures expenses == data
      ensures monthlyEarning == old(monthlyEarning) && categoryBudgets == old(categoryBudgets)
    {
      expenses := data;
    }

    /** `setCategoryBudgets(data)` once a listing has answered: the list is replaced wholesale. */
    method ReceiveCategoryBudgets(data: seq<CategoryBudget>)
      modifies this
      ensures categoryBudgets == data
      ensures monthlyEarning == old(monthlyEarning) && expenses == old(expenses)
    {
      categoryBudgets := data;
    }

    /** The earning input's change handler (the parsed number is given). */
    method SetMonthlyEarning(value: int)
      modifies this
      ensures monthlyEarning == value
      ensures expenses == old(expenses) && categoryBudgets == old(categoryBudgets)
    {
      monthlyEarning := value;
    }

    /** `addExpense`: the record the server returned goes at the end. */
    method AddExpense(newExpense: Expense)
      modifies this
      ensures expenses == old(expenses) + [newExpense]
      ensures TotalExpenses() == old(TotalExpenses()) + newExpense.amount
      ensures monthlyEarning == old(monthlyEarning) && categoryBudgets == old(categoryBudgets)
    {
      TotalAppend(expenses, newExpense);
      expenses := expenses + [newExpense];
    }

    /** `removeExpense`: drop every entry whose `_id` is `id`. */
    method RemoveExpense(id: string)
      modifies this
      ensures expenses == RemoveById(old(expenses), id, ExpenseId)
      ensures TotalExpenses() == old(TotalExpenses()) - Total(SelectById(old(expenses), id, ExpenseId))
      ensures monthlyEarning == old(monthlyEarning) && categoryBudgets == old(categoryBudgets)
    {
      TotalRemove(expenses, id);
      expenses := RemoveById(expenses, id, ExpenseId);
    }

    /** `editExpense`: every entry whose `_id` is `id` becomes the returned record. */
    method EditExpense(id: string, editedExpense: Expense)
      modifies this
      ensures expenses == ReplaceById(old(expenses), id, ExpenseId, editedExpense)
      ensures TotalExpenses() == Total(RemoveById(old(expenses), id, ExpenseId))
                                 + |SelectById(old(expenses), id, ExpenseId)| * editedExpense.amount
      ensures monthlyEarning == old(monthlyEarning) && categoryBudgets == old(categoryBudgets)
    {
      TotalEdit(expenses, id, editedExpense);
      expenses := ReplaceById(expenses, id, ExpenseId, editedExpense);
    }

    /** `addCategoryBudget`: the record the server returned goes at the end. */
    method AddCategoryBudget(newCategoryBudget: CategoryBudget)
      modifies this
      ensures categoryBudgets == old(categoryBudgets) + [newCategoryBudget]
      ensures monthlyEarning == old(monthlyEarning) && expenses == old(expenses)
    {
      categoryBudgets := categoryBudgets + [newCategoryBudget];
    }

    /** `removeCategoryBudget`: drop every budget whose `_id` is `id`. */
    method RemoveCategoryBudget(id: string)
      modifies this
      ensures categoryBudgets == RemoveById(old(categoryBudgets), id, BudgetId)
      ensures monthlyEarning == old(monthlyEarning) && expenses == old(expenses)
    {
      categoryBudgets := RemoveById(categoryBudgets, id, BudgetId);
    }

    /** `editCategoryBudget`: every budget whose `_id` is `id` becomes the returned record. */
    method EditCategoryBudget(id: string, editedCategoryBudget: CategoryBudget)
      modifies this
      ensures categoryBudgets == ReplaceById(old(categoryBudgets), id, BudgetId, editedCategoryBudget)
      ensures monthlyEarning == old(monthlyEarning) && expenses == old(expenses)
    {
      categoryBudgets := ReplaceById(categoryBudgets, id, BudgetId, editedCategoryBudget);
    }

    /** `totalExpenses` */
    function TotalExpenses(): (t: int)
      reads this
      ensures expenses == [] ==> t == 0
      ensures (forall i :: 0 <= i < |expenses| ==> expenses[i].amount >= 0) ==> t >= 0
    {
      Total(expenses)
    }

    /** `remainingAmount` */
    function RemainingAmount(): (r: int)
      reads this
      ensures r + TotalExpenses() == monthlyEarning
      ensures r < 0 <==> TotalExpenses() > monthlyEarning
    {
      Remaining(monthlyEarning, expenses)
    }
  }
}
