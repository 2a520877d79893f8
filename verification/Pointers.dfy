/** The values a FIFO carries, and optional values. */
module Pointers {

  /** A `void *`. Only its identity matters, so an address is a natural number. */
  type Pointer = nat

  const NULL: Pointer := 0

  datatype Option<+T> = None | Some(value: T)

  /** `q` with `o` at the end, if there is an `o`. */
  function Extend<T>(q: seq<T>, o: Option<T>): (r: seq<T>) {
    match o
    case None => q
    case Some(x) => q + [x]
  }

  /** `q` with `o` in front, if there is an `o`. */
  function Prepend<T>(o: Option<T>, q: seq<T>): (r: seq<T>) {
    match o
    case None => q
    case Some(x) => [x] + q
  }

  /** 1 if there is an `o`. */
  function Size<T>(o: Option<T>): (r: nat) {
    if o.None? then 0 else 1
  }
}
