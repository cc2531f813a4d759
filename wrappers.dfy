/** Java's two ways of not returning a value: a `null` reference (Option)
    and a thrown exception (Outcome). */
module Wrappers {

  /** A Java reference that may be `null` (None). */
  datatype Option<+T> = None | Some(value: T) {
    function GetOr(default: T): T {
      match this
      case Some(v) => v
      case None => default
    }
  }

  /** The result of a Java call: the value it returned, or the exception it
      threw, identified by its message. */
  datatype Outcome<+T> = Returned(value: T) | Raised(reason: string)

  // Exception messages of the collaborators that are not part of this model.
  const TransportFailure: string := "transport failure"
  const IndexOutOfBounds: string := "index out of bounds"
  const InvalidCommandApdu: string := "invalid command APDU"
  const InvalidResponseApdu: string := "response APDU must be at least 2 bytes long"
  const ClassCast: string := "class cast"
  const NumberFormatException: string := "number format"
  const NullPointer: string := "null pointer"
}
