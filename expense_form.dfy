/**
 * The ExpenseForm component: three text fields and a submit handler that
 * emits a new expense through `onAddExpense` when every field is filled
 * in, and then clears the form.
 */
module ExpenseForm {
  import opened Wrappers
  import opened FormText

  /** What `onAddExpense` receives. */
  datatype ExpenseInput = ExpenseInput(activity: string, amount: int, category: string)

  /** The three inputs of the form. */
  datatype Field = Activity | Amount | Category

  class Form {
    var activity: string
    var amount: string
    var category: string

    constructor ()
      ensures activity == "" && amount == "" && category == ""
    {
      activity, amount, category := "", "", "";
    }

    /** The `onChange` handler of one input: that field takes the typed text. */
    method Change(field: Field, text: string)
      modifies this
      ensures field == Activity ==> activity == text && amount == old(amount) && category == old(category)
      ensures field == Amount ==> amount == text && activity == old(activity) && category == old(category)
      ensures field == Category ==> category == text && activity == old(activity) && amount == old(amount)
    {
      match field
      case Activity => activity := text;
      case Amount => amount := text;
      case Category => category := text;
    }

    /**
     * `handleSubmit`: with all three fields filled, emit them (the amount
     * through `Number`, given as `toNumber`) and clear the form; otherwise
     * emit nothing and change nothing.
     */
    method HandleSubmit(toNumber: string -> int) returns (emitted: Option<ExpenseInput>)
      modifies this
      ensures Filled(old(activity)) && Filled(old(amount)) && Filled(old(category)) ==>
                && emitted == Some(ExpenseInput(old(activity), toNumber(old(amount)), old(category)))
                && activity == "" && amount == "" && category == ""
      ensures !(Filled(old(activity)) && Filled(old(amount)) && Filled(old(category))) ==>
                && emitted == None
                && activity == old(activity) && amount == old(amount) && category == old(category)
    {
      if Filled(activity) && Filled(amount) && Filled(category) {
        emitted := Some(ExpenseInput(activity, toNumber(amount), category));
        activity := "";
        amount := "";
        category := "";
      } else {
        emitted := None;
      }
    }
  }
}
