// Shared types: an optional value, and what becomes of a request that changes something.
module Wrappers {
  datatype Option<+T> = None | Some(value: T)

  // Unheard: the other side took the change, but its answer was lost.
  datatype Write = Confirmed | Failed | Unheard
}
