/** Small shared definitions. */
module Prelude {
  datatype Option<+T> = None | Some(value: T)

  /** The concatenation of the parts. */
  function Flatten<T>(parts: seq<seq<T>>): seq<T> {
    if parts == [] then [] else parts[0] + Flatten(parts[1..])
  }
}
