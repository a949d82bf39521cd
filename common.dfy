/** Values that JavaScript represents with `null`/`undefined`. */
module Common {

  datatype Option<+T> = None | Some(value: T)
}
