/** The optional value used where `chess-pieces.js` uses a reference or `null`. */
module Wrappers {

  datatype Option<+T> = None | Some(value: T)
}
