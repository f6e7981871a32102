/** The data the script works on. */
module Dataset {
  import opened Builtins

  /** One heldout line split on tabs: input sequence, output sequence and
      attention (alignment) string, each a space-separated token string. The
      attention field is the last one. */
  type Record = seq<string>

  /** Table name to (word to word) table, as built from the training file. */
  type Tables = map<string, map<string, string>>

  /** Every word a table yields is a whitespace-free token. */
  ghost predicate WordValues(tables: Tables) {
    forall name, key :: name in tables && key in tables[name] ==> IsWord(tables[name][key])
  }
}
