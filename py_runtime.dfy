/** The few pieces of Python's runtime behaviour the engine relies on:
    optional values, the IndexError a failed subscript raises, and the
    meaning of a (possibly negative) list index. */
module PyRuntime {

  datatype Option<+T> = None | Some(value: T)

  /** The only exception the modelled code can raise. */
  datatype PyError = IndexError

  /** A Python call either returns a value or raises. */
  datatype Result<+T> = Ok(value: T) | Err(error: PyError)

  /** Python's `xs[i]` on a list of length `n`: indices `-n .. n-1` are
      accepted, a negative one counting from the end; anything else raises.
      The position used is `i` reduced modulo `n`. */
  function Index(i: int, n: nat): (r: Option<nat>)
    ensures r.Some? <==> -(n as int) <= i < n
    ensures r.Some? ==> r.value < n && r.value == i % n
  {
    if 0 <= i < n then Some(i)
    else if -(n as int) <= i < 0 then Some(i + n)
    else None
  }
}
