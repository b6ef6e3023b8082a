/** The `T | null` values of the component's state cells. */
module Options {

  datatype Option<+T> = None | Some(value: T)
}
