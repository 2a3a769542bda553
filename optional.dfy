/** The `undefined`-or-value shape that the TypeScript sources write as `T | undefined` or `x?: T`. */
module Optional {

  datatype Option<T> = None | Some(value: T) {

    /** The `??` operator: the value when present, otherwise the default. */
    function GetOr(default: T): T {
      match this
      case Some(v) => v
      case None => default
    }
  }
}
