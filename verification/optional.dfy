/** The `T | null` and "maybe present" shapes of the TypeScript source. */
module Optional {

  /** `None` stands for `null` (or an absent property), `Some(v)` for a value. */
  datatype Option<+T> = None | Some(value: T) {

    /** Returns the value held in `Some`, or `default` for `None`. */
    function GetOr(default: T): T {
      match this
      case Some(v) => v
      case None => default
    }
  }
}
