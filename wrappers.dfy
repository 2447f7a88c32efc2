/** Small failure-carrying datatypes shared by every stage of the pipeline. */
module Wrappers {

  /** Rust's Option. */
  datatype Option<+T> = None | Some(value: T)

  /** The outcome of a parsing step that starts at some cursor position:
      either the parsed value and the position just after it, or a failure
      (the source panics, through a failed assertion or an unwrap). */
  datatype Parsed<+T> = Parsed(value: T, next: nat) | Failed

  /** Packs what a parser method returned (its result, or None after a
      panic) together with its final cursor, for comparison with a
      specification function. */
  function Outcome<T>(r: Option<T>, pos: nat): Parsed<T>
  {
    if r.Some? then Parsed(r.value, pos) else Failed
  }
}
