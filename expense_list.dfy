/**
 * The ExpenseList component's edit slot: `editingId` names the one row
 * shown with edit inputs, if any. Rows carry the numeric `id` this
 * component declares.
 */
module ExpenseList {
  import opened Wrappers
  import opened FormText

  /** An expense as this component declares it. */
  datatype ListedExpense = ListedExpense(id: int, activity: string, amount: int, category: string)

  /** The edited values `onEditExpense` receives. */
  datatype ExpenseFields = ExpenseFields(activity: string, amount: int, category: string)

  /** What `onEditExpense` receives: the id of the clicked row and its edited values. */
  datatype ExpenseEdit = ExpenseEdit(id: int, updated: ExpenseFields)

  /** The three inputs of an edited row. */
  datatype Field = EditedActivity | EditedAmount | EditedCategory

  class ListEditor {
    var editingId: Option<int>
    var editedActivity: string
    var editedAmount: string
    var editedCategory: string

    constructor ()
      ensures editingId == None
      ensures editedActivity == "" && editedAmount == "" && editedCategory == ""
    {
      editingId := None;
      editedActivity, editedAmount, editedCategory := "", "", "";
    }

    /** The row with id `id` shows its edit inputs. */
    predicate IsEditing(id: int)
      reads this
    {
      editingId == Some(id)
    }

    /** The `onChange` handler of one edit input: that field takes the typed text. */
    method Change(field: Field, text: string)
      modifies this
      ensures editingId == old(editingId)
      ensures editedActivity == (if field == EditedActivity then text else old(editedActivity))
      ensures editedAmount == (if field == EditedAmount then text else old(editedAmount))
      ensures editedCategory == (if field == EditedCategory then text else old(editedCategory))
    {
      match field
      case EditedActivity => editedActivity := text;
      case EditedAmount => editedAmount := text;
      case EditedCategory => editedCategory := text;
    }

    /**
     * `handleEdit(expense)`: the slot now holds `expense.id`, only that row
     * is in edit mode, and the edit fields are preloaded (the amount through
     * `toString`, given as `showNumber`).
     */
    method HandleEdit(expense: ListedExpense, showNumber: int -> string)
      modifies this
      ensures editingId == Some(expense.id)
      ensures forall id :: IsEditing(id) <==> id == expense.id
      ensures editedActivity == expense.activity
      ensures editedAmount == showNumber(expense.amount)
      ensures editedCategory == expense.category
    {
      editingId := Some(expense.id);
      editedActivity := expense.activity;
      editedAmount := showNumber(expense.amount);
      editedCategory := expense.category;
    }

    /**
     * `handleSaveEdit(id)`: with all three edit fields filled, emit the
     * edit for the clicked row `id` and close the slot (the fields keep
     * their text); otherwise emit nothing and change nothing.
     */
    method HandleSaveEdit(id: int, toNumber: string -> int) returns (emitted: Option<ExpenseEdit>)
      modifies this
      ensures editedActivity == old(editedActivity) && editedAmount == old(editedAmount)
      ensures editedCategory == old(editedCategory)
      ensures Filled(old(editedActivity)) && Filled(old(editedAmount)) && Filled(old(editedCategory)) ==>
                && emitted == Some(ExpenseEdit(id, ExpenseFields(old(editedActivity), toNumber(old(editedAmount)), old(editedCategory))))
                && editingId == None
      ensures !(Filled(old(editedActivity)) && Filled(old(editedAmount)) && Filled(old(editedCategory))) ==>
                emitted == None && editingId == old(editingId)
    {
      if Filled(editedActivity) && Filled(editedAmount) && Filled(editedCategory) {
        emitted := Some(ExpenseEdit(id, ExpenseFields(editedActivity, toNumber(editedAmount), editedCategory)));
        editingId := None;
      } else {
        emitted := None;
      }
    }

    /** The Cancel button: close the slot, emit nothing. */
    method Cancel()
      modifies this
      ensures editingId == None
      ensures forall id :: !IsEditing(id)
      ensures editedActivity == old(editedActivity) && editedAmount == old(editedAmount)
      ensures editedCategory == old(editedCategory)
    {
      editingId := None;
    }
  }

  /**
   * Rows shown in edit mode (`editingId === expense.id`): with distinct
   * ids, at most one.
   */
  function RowsInEditMode(slot: Option<int>, expenses: seq<ListedExpense>): (rows: set<int>)
    ensures forall i :: i in rows <==> 0 <= i < |expenses| && slot == Some(expenses[i].id)
    ensures (forall i, j :: 0 <= i < j < |expenses| ==> expenses[i].id != expenses[j].id) ==>
              forall i, j :: i in rows && j in rows ==> i == j
  {
    set i | 0 <= i < |expenses| && slot == Some(expenses[i].id)
  }
}
