/** Types shared by the models. */
module Common {

  datatype Option<+T> = None | Some(value: T)

  /** The sequence holding an optional value. */
  function Opt<T>(o: Option<T>): seq<T> {
    if o.Some? then [o.value] else []
  }
}
