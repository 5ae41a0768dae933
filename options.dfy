/** Python's `None`-or-value, used for every optional quantity of the backend. */
module Options {

  datatype Option<+T> = None | Some(value: T)
}
