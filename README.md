# Expense tracker core, modelled in Dafny

The expense tracker is a React client with an Express/MongoDB server.
This project models its sequential logic:

- **App state** (`Ledger`). The client keeps three pieces of state: the expense list, the category-budget list and the monthly earning. Each server call is followed by a local patch: append, remove by `_id`, or replace by `_id`. Two aggregates are derived: `totalExpenses` and `remainingAmount`.
- **Summary breakdown** (`Summary`). One scan of the expenses builds a dictionary from category label to summed amount. It is joined against the budget list (default 0) and the remaining amount is coloured green or red.
- **Calendar** (`Calendar`). This is integer (year, month) arithmetic in UTC. It covers:
  - day counts and instants in milliseconds since 1970;
  - the `YYYY-MM` token format;
  - the part of `toISOString` the client reads back;
  - a `MonthDate` class standing for the JavaScript `Date` objects that the month handlers build and mutate with `setMonth`.
- **Server listings** (`Server`). `GET /api/expenses?month=YYYY-MM` filters the stored expenses to the half-open window `[first instant of the month, first instant of the next month)`. `GET /api/categoryBudgets` returns every budget.
- **Month selector** (`MonthSelector`). Its two buttons step the selected token one month back or forward.
- **Form and edit state machines** (`ExpenseForm`, `CategoryBudgets`, `ExpenseList`). These are the handlers: a non-empty-fields guard, an emit, a reset, and a single "which row is being edited" slot.

Amounts are integers in minor units. The string-to-number conversion `Number(...)` and the number-to-string conversion `toString()` are passed to the handlers as function parameters (`toNumber`, `showNumber`). The model leaves them abstract.

Each source file is modelled on its own terms. `ExpenseList` keys rows by a numeric `id`; `App` keys records by the string `_id`.

Where the system's design description and its code differ, the model follows the code:
- The code has no savings percentages, budget status thresholds, grouping, sorting or filtering.
- A malformed month token gives an Invalid Date rather than a validation error.
- The budget listing ignores the month.

## Model

| member | source | states |
|---|---|---|
| Ledger.RemoveById | src/App.tsx:55 | the result is no longer than the list and no surviving entry carries the removed key |
| Ledger.RemoveByIdCounts | src/App.tsx:55 | every entry whose key differs from `id` survives as often as it occurred, and no entry with that key survives |
| Ledger.RemoveByIdMembers | src/App.tsx:55 | an entry is in the result exactly when it was in the list and its key differs from `id` |
| Ledger.SelectById | src/App.tsx:55 | the entries a removal takes away all carry the removed key |
| Ledger.SelectByIdCounts | src/App.tsx:55 | every entry carrying the removed key is selected as often as it occurred, and no other entry is |
| Ledger.RemoveSelectPartition | src/App.tsx:55 | the survivors and the removed entries together are exactly the old list, as a multiset |
| Ledger.ReplaceById | src/App.tsx:65 | the length is unchanged; each position with key `id` becomes the new record and every other position is untouched |
| Ledger.RemoveAbsent | src/App.tsx:55 | removing an id that no entry carries leaves the list unchanged |
| Ledger.RemoveIdempotent | src/App.tsx:55 | removing the same id twice gives the same list as removing it once |
| Ledger.RemoveKeepsOrder | src/App.tsx:55 | removal distributes over concatenation, so the survivors keep their relative order |
| Ledger.ReplaceAbsent | src/App.tsx:65 | editing an id that no entry carries leaves the list unchanged |
| Ledger.ReplaceIdempotent | src/App.tsx:65 | applying the same edit twice gives the same list as applying it once |
| Ledger.Total | src/App.tsx:93 | the total of the empty list is 0, and a list of non-negative amounts has a non-negative total |
| Ledger.TotalConcat | src/App.tsx:93 | the total of a concatenation is the sum of the two totals |
| Ledger.TotalAppend | src/App.tsx:93 | appending an expense raises the total by exactly its amount |
| Ledger.TotalRemove | src/App.tsx:55 | removing by id lowers the total by the sum of the removed amounts |
| Ledger.TotalEdit | src/App.tsx:65 | after an edit the total is the survivors' total plus the new amount once per replaced entry |
| Ledger.Remaining | src/App.tsx:94 | remaining plus total equals the earning, with no clamping: remaining is negative exactly when the total exceeds the earning |
| Ledger.App.constructor | src/App.tsx:22-24 | the state starts as earning 0 and two empty lists |
| Ledger.App.ReceiveExpenses | src/App.tsx:31-35 | a listing's answer replaces the expense list and leaves the other state alone |
| Ledger.App.ReceiveCategoryBudgets | src/App.tsx:37-41 | a listing's answer replaces the budget list and leaves the other state alone |
| Ledger.App.SetMonthlyEarning | src/App.tsx:115 | the earning takes the parsed value and both lists are unchanged |
| Ledger.App.AddExpense | src/App.tsx:50 | the returned record is appended at the end, the earlier entries are untouched, the total rises by its amount, and nothing else changes |
| Ledger.App.RemoveExpense | src/App.tsx:55 | the list becomes the filtered list, the total falls by the removed amounts, and nothing else changes |
| Ledger.App.EditExpense | src/App.tsx:65 | the list becomes the replaced list, the new total is as in `TotalEdit`, and nothing else changes |
| Ledger.App.AddCategoryBudget | src/App.tsx:75 | the returned budget is appended and nothing else changes |
| Ledger.App.RemoveCategoryBudget | src/App.tsx:80 | the budget list is filtered by `_id` and nothing else changes |
| Ledger.App.EditCategoryBudget | src/App.tsx:90 | the budgets with that `_id` are replaced and nothing else changes |
| Ledger.App.TotalExpenses | src/App.tsx:93 | the derived total is 0 for an empty list and non-negative when every amount is |
| Ledger.App.RemainingAmount | src/App.tsx:94 | the derived remaining amount plus the derived total is the earning; it is negative exactly when spending exceeds the earning |
| Summary.CategorySumAbsent | src/components/Summary.tsx:47 | a category that no expense carries sums to 0 |
| Summary.CategorySumAppend | src/components/Summary.tsx:24 | one more expense adds its amount to its own category and to no other |
| Summary.CategoriesAppend | src/components/Summary.tsx:24 | one more expense adds exactly its label to the set of labels |
| Summary.CategoryExpenses | src/components/Summary.tsx:23-26 | the scan's keys are exactly the labels that occur, and each value is the sum of the amounts filed under exactly that label |
| Summary.SumOfCategoriesIsTotal | src/components/Summary.tsx:23-26 | over any duplicate-free list naming every label, the per-category sums add up to the total |
| Summary.BreakdownSumsToTotal | src/components/Summary.tsx:23-26 | the values of the scan's dictionary, read once per key, add up to `totalExpenses` over the same list |
| Summary.SpentFor | src/components/Summary.tsx:47 | the spending shown for a label is its dictionary entry, and 0 when the label has none |
| Summary.Breakdown | src/components/Summary.tsx:43-47 | there is one row per budget, in budget-list order, and each row shows that budget's label, its spending (0 when the label is absent) and its budget |
| Summary.BreakdownShowsCategorySpending | src/components/Summary.tsx:47 | joined with the scan, each row shows exactly what was spent in its category, and 0 when nothing was |
| Summary.RemainingTone | src/components/Summary.tsx:37 | the tone is green exactly when the remaining amount is at least 0, so exactly 0 is green |
| Summary.ToneOfLedger | src/components/Summary.tsx:37 | the tone is red exactly when the total exceeds the earning |
| Summary.CategoryExpensesAsWritten | src/components/Summary.tsx:23-26 | the reduce as written over a plain object ends with the accumulator's keys plus every label that occurs |
| Summary.SpentCellAsWritten | src/components/Summary.tsx:47 | the row lookup as written throws a TypeError exactly when the label's entry is a non-number, own or inherited; otherwise it shows the number, or 0 for a label with neither |
| Summary.AsWrittenAgreesOffPrototype | src/components/Summary.tsx:23-26 | for a label that no plain object inherits, the reduce as written holds the same number as the own-key scan |
| Summary.PrototypeLabelsBreakTheBreakdown | src/components/Summary.tsx:47 | an expense filed under `constructor`, or a budget labelled `toString`, makes the row lookup throw a TypeError; the own-key model gives 5 and 0 |
| Calendar.NextMonth | src/components/MonthSelector.tsx:18 | the next month is valid and its month index is one more; December rolls over to January of the next year |
| Calendar.PrevMonth | src/components/MonthSelector.tsx:12 | the previous month is valid and its month index is one less; January rolls back to December of the previous year |
| Calendar.PrevNextInverse | src/components/MonthSelector.tsx:10-19 | the previous month of the next month is the month itself, and the other way round |
| Calendar.LeapStep | server.js:33 | a year adds one to the count of leap years before it exactly when it is a leap year |
| Calendar.YearLength | server.js:33 | consecutive years start exactly the year's length in days apart (the Gregorian leap rule) |
| Calendar.MonthLength | server.js:33 | the next month starts exactly that month's number of days later |
| Calendar.MonthStartIncreasing | server.js:31-33 | a later month starts at a later instant |
| Calendar.ParseMonth | server.js:31 | a token that parses is a valid month with a year between 0000 and 9999 |
| Calendar.FormatMonth | src/components/MonthSelector.tsx:13 | the formatted token is 7 characters with a hyphen at position 4 |
| Calendar.ParseFormat | src/components/MonthSelector.tsx:11-13 | formatting a month and parsing it back gives the same month |
| Calendar.FormatParse | src/components/MonthSelector.tsx:11-13 | every token that parses is the formatting of the month it denotes |
| Calendar.IsoMonthPrefix | src/components/MonthSelector.tsx:13 | the first seven characters of the ISO string: `YYYY-MM` for years 0000 to 9999; otherwise the sign and six digits of the expanded-year form, which `ParseMonth` does not accept |
| Calendar.MonthDate.Parse | server.js:31 | `new Date(token)` is valid exactly when `ParseMonth` accepts the token, and then it lies in that month |
| Calendar.MonthDate.Copy | server.js:32 | the copy has the same validity and month as the original |
| Calendar.MonthDate.GetMonth | server.js:33 | the zero-based month of a valid date; NaN for an Invalid Date |
| Calendar.MonthDate.SetMonth | server.js:33 | a month argument outside 0 to 11 carries into the year (the month index becomes that of January of the old year plus the argument); NaN invalidates the date |
| Calendar.MonthDate.Time | server.js:37-38 | a valid date's time value is its month's first instant; an Invalid Date's is NaN |
| Calendar.MonthDate.IsoMonth | src/components/MonthSelector.tsx:13 | the ISO month prefix of a valid date; an Invalid Date throws a RangeError |
| Server.MonthWindow | server.js:31-33 | the window runs from the month's first instant to the next month's first instant, which is the month's days times milliseconds per day |
| Server.WindowHalfOpen | server.js:36-38 | the start instant is in the window and the end instant is not |
| Server.DecemberWindowRollsOver | server.js:33 | the window of `Y-12` ends where `(Y+1)-01` begins |
| Server.ConsecutiveWindowsAdjacent | server.js:31-33 | a month's window ends exactly where the next month's window starts |
| Server.DistinctWindowsDisjoint | server.js:31-33 | the windows of two different months share no instant |
| Server.Find | server.js:35-40 | the query fails exactly when a bound is NaN (an Invalid Date); otherwise it returns exactly the stored documents dated in the range |
| Server.SelectDated | server.js:35-40 | every returned record is stored and carries a date in the window, and each such stored record is returned as often as it is stored; undated documents never match |
| Server.GetExpenses | server.js:29-42 | a parsable month returns exactly the stored expenses in that month's window; a missing or malformed month fails the query |
| Server.CreatedExpenseListedOnce | server.js:35-40 | a new record is listed for a month exactly once when its date lies inside that month, and not at all otherwise, in particular when it has no date |
| Server.UndatedNeverListed | server.js:35-40 | a document saved without a date is returned for no window at all |
| Server.GetCategoryBudgets | server.js:60-63 | every stored budget is returned, whatever the month |
| Server.BudgetsIgnoreMonth | server.js:61 | any two month parameters give the same budget listing, and it holds exactly the stored budgets |
| Server.December2024Parses | server.js:31 | the token `2024-12` names December 2024 |
| Server.December2024Window | server.js:31-33 | `?month=2024-12` selects the instants from 2024-12-01T00:00Z up to but excluding 2025-01-01T00:00Z |
| MonthSelector.HandlePreviousMonth | src/components/MonthSelector.tsx:10-14 | a token `ParseMonth` accepts yields the ISO prefix of the previous month; any other token is taken as an Invalid Date here (see the Calendar.ParseMonth line under Left out), which throws a RangeError with nothing emitted |
| MonthSelector.HandleNextMonth | src/components/MonthSelector.tsx:16-20 | a token `ParseMonth` accepts yields the ISO prefix of the next month; any other token is taken as an Invalid Date here (see the Calendar.ParseMonth line under Left out), which throws a RangeError with nothing emitted |
| MonthSelector.StepTokensRoundTrip | src/components/MonthSelector.tsx:10-20 | stepping forward then back, or back then forward, returns the very token while the intermediate year stays within 0000 to 9999 |
| MonthSelector.StepTokenShape | src/components/MonthSelector.tsx:10-20 | within years 0000 to 9999 each step yields a 7-character token that parses and whose month index moved by exactly one |
| MonthSelector.NextAfterYear9999 | src/components/MonthSelector.tsx:16-19 | the step after 9999-12 emits `+010000` |
| MonthSelector.PrevBeforeYear0 | src/components/MonthSelector.tsx:10-13 | the step before 0000-01 emits `-000001` |
| MonthSelector.StepsLeaveFourDigitYears | src/components/MonthSelector.tsx:13 | after 9999-12 the emitted token is `+010000`, before 0000-01 it is `-000001`, and `ParseMonth` accepts neither (JavaScript would parse both as expanded-year dates; see the Calendar.ParseMonth line under Left out) |
| ExpenseForm.Form.constructor | src/components/ExpenseForm.tsx:10-12 | all three fields start empty |
| ExpenseForm.Form.Change | src/components/ExpenseForm.tsx:31-43 | typing sets exactly the one field edited |
| FormText.BlankIsFilled | src/components/ExpenseForm.tsx:16 | the guard does not trim: a field holding only a space passes, an empty one does not |
| ExpenseForm.Form.HandleSubmit | src/components/ExpenseForm.tsx:14-22 | with all three fields non-empty (untrimmed), it emits them verbatim with the amount converted and clears them; otherwise it emits nothing and changes nothing |
| CategoryBudgets.BudgetEditor.constructor | src/components/CategoryBudgets.tsx:22-26 | all fields start empty and no row is being edited |
| CategoryBudgets.BudgetEditor.Change | src/components/CategoryBudgets.tsx:59-92 | typing sets exactly the one field edited and leaves the slot alone |
| CategoryBudgets.BudgetEditor.HandleSubmit | src/components/CategoryBudgets.tsx:28-35 | with both add fields non-empty, it emits them and clears both; otherwise it emits nothing and changes nothing; the edit state is untouched either way |
| CategoryBudgets.BudgetEditor.HandleEdit | src/components/CategoryBudgets.tsx:37-41 | the slot holds the clicked category, so only that row is in edit mode, and the edit fields hold its label and its budget's string form |
| CategoryBudgets.BudgetEditor.HandleSaveEdit | src/components/CategoryBudgets.tsx:43-48 | with both edit fields non-empty, it emits the old label with the edited values and clears the slot; otherwise it emits nothing and leaves the slot and the fields as they were |
| CategoryBudgets.BudgetEditor.Cancel | src/components/CategoryBudgets.tsx:102 | the slot is cleared, no row is in edit mode, and every field is kept |
| CategoryBudgets.RowsInEditMode | src/components/CategoryBudgets.tsx:81 | the rows in edit mode are exactly those whose label is in the slot; there are none when the slot is empty, and all share one label |
| ExpenseList.ListEditor.constructor | src/components/ExpenseList.tsx:19-22 | no row is being edited and the edit fields are empty |
| ExpenseList.ListEditor.Change | src/components/ExpenseList.tsx:56-67 | typing sets exactly the one edit field and leaves the slot alone |
| ExpenseList.ListEditor.HandleEdit | src/components/ExpenseList.tsx:24-29 | the slot holds the row's id, so only that row is in edit mode, and the edit fields hold its activity, its amount's string form and its category |
| ExpenseList.ListEditor.HandleSaveEdit | src/components/ExpenseList.tsx:31-40 | with all three edit fields non-empty, it emits the clicked row's id with the edited values and clears the slot; otherwise it emits nothing and leaves the slot and the fields as they were |
| ExpenseList.ListEditor.Cancel | src/components/ExpenseList.tsx:81 | the slot is cleared, no row is in edit mode, and the fields are kept |
| ExpenseList.RowsInEditMode | src/components/ExpenseList.tsx:51 | the rows in edit mode are exactly those whose id is in the slot; with distinct ids there is at most one |

## Left out

- HTTP and persistence are not modelled. That covers the `fetch` calls, Express routing, the mongoose models and the database connection, and the POST, PUT and DELETE routes, which are I/O and foreign library code. Each App handler is one step that takes the record the server returned as a parameter, and the expense query is a filter over an in-memory sequence.
- Asynchrony is not modelled: `await` ordering, and handlers that capture a list before the await and write a stale one back. Each handler is one atomic step.
- What `findByIdAndUpdate` returns for an unknown id is library behaviour, so it is not modelled.
- Server.Find: a query bound that is an Invalid Date becomes `Failure(CastError)`. This stands in for mongoose's cast error, whose exact form and HTTP response are library behaviour.
- Server.SelectDated: results come back in stored order. MongoDB does not promise an order for `find`.
- Floating point is not modelled. Amounts are integers in minor units, `toFixed(2)` rendering is left out, and `Number(...)` and `toString()` are abstract function parameters, so NaN amounts are not modelled.
- Calendar.MonthDate.SetMonth: works in UTC. The source's `getMonth`/`setMonth` run in local time on a date parsed as UTC, which can shift the month in time zones west of UTC, and in zones east of UTC across a daylight-saving change (in UTC+1 with EU summer time, the next month after `2024-03` comes out as `2024-03`).
- Calendar.ParseMonth: accepts only the 7-character `YYYY-MM` form. Other strings that `new Date` also parses (full dates such as `2024-12-15`, bare years, expanded years such as `+010000`) count as an Invalid Date here. So the model's month handlers throw on them, while the source steps them normally: from `+010000` Next emits `+010000` again and Prev emits `9999-12`.
- Calendar.MonthDate: holds only the first instant of a month, because the modelled handlers build no other date. The time-value range limit of about ±275,760 years is not modelled; `IsoMonth` requires a year within six digits.
- Localised display (`toLocaleString` in the month selector, and `formatNumber` in src/helpers/util.ts) is foreign locale formatting and is left out.
- JSX markup, icons and styling are left out.
- The remove buttons (ExpenseList.tsx:102, CategoryBudgets.tsx:120) only forward a key to a callback and hold no state, so they are not modelled.
- Cross-file key mismatches are integration wiring and are not modelled: `id` against `_id`, the category label passed where `_id` is filtered, and App fetching without a `month` parameter.
- Summary.CategoryExpensesAsWritten: covers the eleven inherited function-valued members of Object.prototype. `__proto__` is left out because its accessor ignores writes of non-objects (the first write here is the string `"[object Object]5"`) and reads back the prototype object. That also ends in a TypeError, but modelling it needs setter semantics.
- Expenses with a `date` field exist only on the server, which does not require one. The body the client posts carries no date (ExpenseForm.tsx:17, App.tsx:47), so a record created through the client is stored undated and, by `Server.UndatedNeverListed`, is never returned by the month listing. The client's `Expense` records are modelled without a date.

## Findings

| source | as written | input that shows it | evidently intended | confidence | as-written member | corrected member |
|---|---|---|---|---|---|---|
| src/components/Summary.tsx:23-26 | the reduce starts from `{}`, which inherits Object.prototype's members, and `acc[c] \|\| 0` reads an inherited function for a label such as `constructor`; line 47 then calls `.toFixed` on a non-number and throws a TypeError | one expense with category `constructor` (amount 5) and a budget for `constructor`; or, with no expenses, a budget labelled `toString` | an own-key dictionary in which each label maps to its category's sum and a missing label shows 0 | high; not executed | Summary.PrototypeLabelsBreakTheBreakdown | Summary.CategoryExpenses |

The as-written side is modelled by `Summary.CategoryExpensesAsWritten` and `Summary.SpentCellAsWritten`. `Summary.PrototypeLabelsBreakTheBreakdown` exhibits the failure on the inputs above. The rest of the model uses the corrected scan `Summary.CategoryExpenses`, whose intended properties are proved by `Summary.BreakdownShowsCategorySpending` and `Summary.BreakdownSumsToTotal`.
