/** The verdict a comparison gives each thing it compares. */
module Vocabulary {
  datatype DiffState = Added | Deleted | Modified | Unchanged
}
