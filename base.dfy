/** Results, options and the exceptions the tool can raise. */
module Base {

  datatype Option<+T> = None | Some(value: T)

  /** The exceptions the modelled code raises. YoExc is the tool's own
      user-facing error; the others are Python errors that the code lets
      escape unchanged. */
  datatype Exc =
    | YoExc(msg: string)
      /** A YoExc whose message lists these configuration names in the
          (unspecified) iteration order of a Python set. */
    | MissingConfig(section: string, missing: set<string>)
    | IndexError
    | KeyError(key: string)
    | ValueError(msg: string)
      /** `i` read before assignment in a loop that ran zero times. */
    | UnboundLocalError
      /** A file the code stats does not exist. */
    | FileNotFound(path: string)
      /** A value of the wrong JSON type reached a conversion. */
    | TypeError

  datatype Result<+T> = Ok(value: T) | Err(exc: Exc) {
    predicate IsFailure() { Err? }
    function PropagateFailure<U>(): Result<U>
      requires Err?
    {
      Err(exc)
    }
    function Extract(): T
      requires Ok?
    {
      value
    }
  }

  /** The result of an operation that returns None or raises. */
  datatype Outcome = Pass | Fail(exc: Exc) {
    predicate IsFailure() { Fail? }
    function PropagateFailure(): Outcome
      requires Fail?
    {
      this
    }
  }

  /** No element occurs twice. */
  predicate Distinct<K(==)>(s: seq<K>) {
    forall i, j :: 0 <= i < j < |s| ==> s[i] != s[j]
  }
}
