/** The optional value used wherever the bot reads something that may be absent:
    `null` from a DOM query, `undefined` from an array index, a missing query parameter. */
module Wrappers {

  datatype Option<+T> = None | Some(value: T)
}
