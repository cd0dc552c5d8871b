/** An optional value, shared by the modules of the watch face model. */
module Optional {

  datatype Option<T> = None | Some(value: T)
}
