/** Nullable values, as C# `T?` references, and the string test the source uses on them. */
module Wrappers {

  /** A C# nullable reference: `None` stands for `null`. */
  datatype Option<+T> = None | Some(value: T)

  /** `string.IsNullOrEmpty`. */
  predicate IsNullOrEmpty(s: Option<string>) {
    match s
    case None => true
    case Some(v) => v == ""
  }
}
