/** The value-or-undefined type shared by the model: TypeScript's `T | undefined`. */
module Options {
  datatype Option<+T> = None | Some(value: T)

  /** `a ?? b` */
  function GetOr<T>(a: Option<T>, b: T): T {
    if a.Some? then a.value else b
  }

  function OrElse<T>(a: Option<T>, b: Option<T>): Option<T> {
    if a.Some? then a else b
  }
}
