module NshOption {
  datatype Option<+T> = None | Some(value: T)
}
