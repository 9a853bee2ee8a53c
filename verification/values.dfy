/**
  Values shared by every stress-test driver: the few shapes of Python data the
  stress tester inspects, and the per-call result record every lookup returns.
 */
module Values {

  /** A value that may be missing (Python `None`, or a key that is absent). */
  datatype Option<T> = None | Some(value: T)

  /** A JSON object field as the stress tester reads it: the key may be absent, hold
      `null`, or hold a value. */
  datatype Field<T> = Absent | Null | Present(value: T)

  /** An identifier (CURIE) such as "MONDO:0005148". */
  type Curie = string

  /** The "status" of a call. Python stores either a string (the sentinel
      "timeout" or a job status), an integer HTTP code, or None (a job status
      field that was missing or null). Keys of the status histogram are these
      values, so the string "timeout" reported by a job and the sentinel are
      the same key, exactly as in a Python dict. */
  datatype Status = Label(name: string) | HttpCode(code: int) | Missing

  /** The value `status` holds before any response has arrived. */
  const Timeout: Status := Label("timeout")

  /** One call's result record. `batch` is the list of identifiers the call
      carried; only the batch-size sweep records it, every other driver leaves
      it `None`. Timing fields are not modelled. */
  datatype CallResult = CallResult(status: Status, numResults: nat, batch: Option<seq<Curie>>)

  /** The smaller of two integers (Python's `min`). */
  function Min(a: int, b: int): int {
    if a <= b then a else b
  }

  /** No element is listed twice, as with the keys of a dict. */
  predicate Distinct<T(==)>(xs: seq<T>) {
    forall x, y :: 0 <= x < y < |xs| ==> xs[x] != xs[y]
  }
}
