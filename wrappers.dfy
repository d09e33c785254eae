/** A C# reference that may be null: `None` is `null`, `Some(v)` a non-null value. */
module Wrappers {

  datatype Option<+T> = None | Some(value: T)
}
