/** Option and Result values, and the Python exceptions the modelled code can raise. */
module Wrappers {

  datatype Option<+T> = None | Some(value: T)

  datatype Result<+R, +E> = Ok(value: R) | Err(error: E)

  /** The exceptions the result-list code lets escape (or swallows). */
  datatype Exception =
    | KeyError(key: string)   // `db[objid]` on an id the database does not hold
    | IndexError(row: int)    // `_list[row]` outside the list
    | AssertionError          // `assert False` after no presentation matched
    | StopIteration           // `next()` on an exhausted iterator

  /** Python's `xs[row]` on a list of length `n`: negative rows count from the end. */
  function PyIndex(n: nat, row: int): (r: Option<nat>)
    ensures r.Some? <==> 0 <= row + n && row < n
    ensures r.Some? ==> r.value < n && (r.value == row || r.value == row + n)
  {
    if 0 <= row < n then Some(row)
    else if 0 <= row + n && row < 0 then Some(row + n)
    else None
  }
}
