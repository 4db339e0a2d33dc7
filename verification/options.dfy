/** The optional value used throughout the model: Python's `None` result,
    a missing dictionary entry, or an exception swallowed by a blanket
    `except` all become `None`. The failure-compatible members allow `:-`. */
module Options {

  datatype Option<+T> = None | Some(value: T) {

    predicate IsFailure() {
      None?
    }

    function PropagateFailure<U>(): Option<U>
      requires None?
    {
      None
    }

    function Extract(): T
      requires Some?
    {
      value
    }

    /** The value held, or `default` when there is none (`d.get(k, default)`). */
    function GetOr(default: T): T {
      match this
      case Some(v) => v
      case None => default
    }
  }
}
