/** The source's nil pointers and (value, error) returns as values. */
module Options {

  datatype Option<T> = None | Some(value: T) {
    predicate IsFailure() {
      None?
    }

    function GetOr(default: T): T {
      if Some? then value else default
    }

    function PropagateFailure<U>(): Option<U>
      requires None?
    {
      None
    }

    function Extract(): T
      requires Some?
    {
      value
    }
  }
}
