/** The optional value that the bot's Python code expresses with `None`. */
module Wrappers {
  datatype Option<+T> = None | Some(value: T)
}
