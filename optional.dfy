/** The optional value used for JavaScript's `null` / `undefined` throughout the model. */
module Optional {

  datatype Option<+T> = None | Some(value: T) {

    /** The encapsulated value, or `default` when there is none (JavaScript's `??`). */
    function GetOr(default: T): (r: T)
      ensures Some? ==> r == value
      ensures None? ==> r == default
    {
      match this
      case Some(v) => v
      case None => default
    }
  }
}
