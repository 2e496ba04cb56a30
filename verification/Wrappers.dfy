/** Shared value types, and a fact about sequences. */
module Wrappers {

  /** A value that may be absent: a pointer that may be NULL. */
  datatype Option<+T> = None | Some(value: T)
  {
    /** The present values, as a sequence of length 0 or 1. */
    function ToSeq(): seq<T> {
      if Some? then [value] else []
    }
  }

  type Byte = b: nat | b < 256

  /** The outcome of an operation that may refuse its input. */
  datatype Result<+T> = Ok(value: T) | Err

  lemma Associates<T>(a: seq<T>, b: seq<T>, c: seq<T>)
    ensures (a + b) + c == a + (b + c)
  {
  }
}
