/** The text-field test shared by the client's forms. */
module FormText {
  /** JavaScript truthiness of a string: only the empty string is falsy (no trimming). */
  predicate Filled(s: string)
  {
    s != ""
  }

  /** Whitespace is not trimmed: a field holding only a space passes the guard. */
  lemma BlankIsFilled()
    ensures Filled(" ") && !Filled("")
  {
  }
}
