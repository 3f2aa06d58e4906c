/** The option type that stands for Rust's `Option` throughout the model. */
module Options {
  datatype Option<+T> = None | Some(value: T)
}
