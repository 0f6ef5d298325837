/** Java references that may be null, as values. */
module Nullable {

  /** A Java reference that is either null (None) or set (Some). */
  datatype Option<+T> = None | Some(value: T)

  /** The text Java's string concatenation produces for a nullable String: "null" for null. */
  function JavaText(s: Option<string>): string
  {
    match s
    case None => "null"
    case Some(t) => t
  }
}
