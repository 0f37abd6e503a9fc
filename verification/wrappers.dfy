/** Small result types shared by the three tiers. */
module Wrappers {

  /** An optional value; `None` stands for Go's nil error. */
  datatype Option<+T> = None | Some(value: T)

  /** Go's `(string, error)` pair: a value together with an optional error. */
  datatype Fetched<+E> = Fetched(value: string, err: Option<E>)
}
