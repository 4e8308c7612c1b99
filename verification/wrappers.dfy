/** The optional value used for "null" fields of the engines (en-passant target, multi-jump piece, king square). */
module Wrappers {
  datatype Option<+T> = None | Some(value: T)
}
