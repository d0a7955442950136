/** JavaScript `null` / `undefined` alongside a present value. */
module Optional {

  datatype Option<+T> = None | Some(value: T)
}
