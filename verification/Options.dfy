/** An optional value; `None` also stands for a thrown error or a fault. */
module Options {
  datatype Option<+T> = None | Some(value: T)
}
