/**
 * The CategoryBudgets component: the add form and the single edit slot
 * over the budget rows. Rows are keyed by category label, and the slot
 * holds the label of the row being edited, if any.
 */
module CategoryBudgets {
  import opened Wrappers
  import opened FormText

  /** What `onAddCategoryBudget` receives, and the new values of an edit. */
  datatype BudgetInput = BudgetInput(category: string, budget: int)

  /** What `onEditCategoryBudget` receives: the row's old label and the edited values. */
  datatype BudgetEdit = BudgetEdit(oldCategory: string, updated: BudgetInput)

  /** The four text inputs of the component. */
  datatype Field = NewCategory | NewBudget | EditedCategory | EditedBudget

  class BudgetEditor {
    var newCategory: string
    var newBudget: string
    var editingCategory: Option<string>
    var editedCategory: string
    var editedBudget: string

    constructor ()
      ensures newCategory == "" && newBudget == "" && editingCategory == None
      ensures editedCategory == "" && editedBudget == ""
    {
      newCategory, newBudget, editingCategory := "", "", None;
      editedCategory, editedBudget := "", "";
    }

    /** The row for category `c` shows its edit inputs. */
    predicate IsEditing(c: string)
      reads this
    {
      editingCategory == Some(c)
    }

    /** The `onChange` handler of one input: that field takes the typed text. */
    method Change(field: Field, text: string)
      modifies this
      ensures editingCategory == old(editingCategory)
      ensures newCategory == (if field == NewCategory then text else old(newCategory))
      ensures newBudget == (if field == NewBudget then text else old(newBudget))
      ensures editedCategory == (if field == EditedCategory then text else old(editedCategory))
      ensures editedBudget == (if field == EditedBudget then text else old(editedBudget))
    {
      match field
      case NewCategory => newCategory := text;
      case NewBudget => newBudget := text;
      case EditedCategory => editedCategory := text;
      case EditedBudget => editedBudget := text;
    }

    /**
     * `handleSubmit`: with both add fields filled, emit them (the budget
     * through `Number`, given as `toNumber`) and clear both; otherwise emit
     * nothing and change nothing.
     */
    method HandleSubmit(toNumber: string -> int) returns (emitted: Option<BudgetInput>)
      modifies this
      ensures editingCategory == old(editingCategory)
      ensures editedCategory == old(editedCategory) && editedBudget == old(editedBudget)
      ensures Filled(old(newCategory)) && Filled(old(newBudget)) ==>
                && emitted == Some(BudgetInput(old(newCategory), toNumber(old(newBudget))))
                && newCategory == "" && newBudget == ""
      ensures !(Filled(old(newCategory)) && Filled(old(newBudget))) ==>
                emitted == None && newCategory == old(newCategory) && newBudget == old(newBudget)
    {
      if Filled(newCategory) && Filled(newBudget) {
        emitted := Some(BudgetInput(newCategory, toNumber(newBudget)));
        newCategory := "";
        newBudget := "";
      } else {
        emitted := None;
      }
    }

    /**
     * `handleEdit(category, budget)`: the slot now holds `category`, and
     * only that row is in edit mode; the edit fields are preloaded (the
     * budget through `toString`, given as `showNumber`).
     */
    method HandleEdit(category: string, budget: int, showNumber: int -> string)
      modifies this
      ensures editingCategory == Some(category)
      ensures forall c :: IsEditing(c) <==> c == category
      ensures editedCategory == category && editedBudget == showNumber(budget)
      ensures newCategory == old(newCategory) && newBudget == old(newBudget)
    {
      editingCategory := Some(category);
      editedCategory := category;
      editedBudget := showNumber(budget);
    }

    /**
     * `handleSaveEdit(oldCategory)`: with both edit fields filled, emit the
     * edit for the clicked row and close the slot (the edit fields keep
     * their text); otherwise emit nothing and change nothing.
     */
    method HandleSaveEdit(oldCategory: string, toNumber: string -> int) returns (emitted: Option<BudgetEdit>)
      modifies this
      ensures editedCategory == old(editedCategory) && editedBudget == old(editedBudget)
      ensures newCategory == old(newCategory) && newBudget == old(newBudget)
      ensures Filled(old(editedCategory)) && Filled(old(editedBudget)) ==>
                && emitted == Some(BudgetEdit(oldCategory, BudgetInput(old(editedCategory), toNumber(old(editedBudget)))))
                && editingCategory == None
      ensures !(Filled(old(editedCategory)) && Filled(old(editedBudget))) ==>
                emitted == None && editingCategory == old(editingCategory)
    {
      if Filled(editedCategory) && Filled(editedBudget) {
        emitted := Some(BudgetEdit(oldCategory, BudgetInput(editedCategory, toNumber(editedBudget))));
        editingCategory := None;
      } else {
        emitted := None;
      }
    }

    /** The Cancel button: close the slot, emit nothing. */
    method Cancel()
      modifies this
      ensures editingCategory == None
      ensures forall c :: !IsEditing(c)
      ensures newCategory == old(newCategory) && newBudget == old(newBudget)
      ensures editedCategory == old(editedCategory) && editedBudget == old(editedBudget)
    {
      editingCategory := None;
    }
  }

  /**
   * Labels of the rows shown in edit mode (`editingCategory === cb.category`):
   * every such row carries the one label in the slot.
   */
  function RowsInEditMode(slot: Option<string>, labels: seq<string>): (rows: set<int>)
    ensures forall i :: i in rows <==> 0 <= i < |labels| && slot == Some(labels[i])
    ensures slot.None? ==> rows == {}
    ensures forall i, j :: i in rows && j in rows ==> labels[i] == labels[j]
  {
    set i | 0 <= i < |labels| && slot == Some(labels[i])
  }
}
