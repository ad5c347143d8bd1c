/** The optional value used wherever the bot works with `None`. */
module Wrappers {

  datatype Option<+T> = None | Some(value: T)
}
