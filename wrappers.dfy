/** The optional values Swift writes as `T?`. */
module Wrappers {

  datatype Option<+V> = None | Some(value: V)

  /** Outcome of a scanner helper of the lexicon mini-language: a value, Swift's `nil`
      (the caller tries something else), or a `fatalError` (the program stops). */
  datatype Scan<+V> = Parsed(value: V) | NoMatch | Fatal
}
