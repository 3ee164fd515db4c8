/** The optional value used wherever the agent has a nil pointer, an absent row or an unset field. */
module Prelude {
  datatype Option<+T> = None | Some(value: T)
}
