/** The optional-value type shared by the tokenizer modules. */
module Options {

  datatype Option<+T> = None | Some(value: T)
}
