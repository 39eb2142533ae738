/** The optional value used wherever the source returns `None`. */
module Wrappers {
  datatype Option<+T> = None | Some(value: T)
}

/** Python's list indexing, where a negative index counts from the end. */
module PyList {
  /** The position `xs[i]` refers to in a list of length `n`; outside `-n <= i < n`
      Python raises IndexError. */
  function PyIndex(i: int, n: nat): (k: nat)
    requires -(n as int) <= i < n
    ensures k < n
    ensures i >= 0 ==> k == i
    ensures i < 0 ==> k == n + i
  {
    if i < 0 then i + n else i
  }
}
