/** Wrappers shared by the whole model.
    - Option<T> stands for a C# reference that may be null (or a Nullable<T>).
    - Result<T> stands for a computation that either returns a value or throws one of the
      exceptions the source can raise on that path.
 */
module Wrappers {

  /** A value that may be absent: `None` is the C# `null`. */
  datatype Option<+T> = None | Some(value: T) {

    /** The C# `??` operator: this value if present, otherwise `fallback`. */
    function OrElse(fallback: T): T {
      match this
      case Some(v) => v
      case None => fallback
    }

    /** `a ?? b` where both sides may be null. */
    function Or(fallback: Option<T>): Option<T> {
      if Some? then this else fallback
    }
  }

  /** The exceptions the modelled code can raise. */
  datatype Error =
    | NullReference            // a member access on a null reference
    | ArgumentOutOfRange       // `Substring` with an index outside the string
    | EmptySequence            // `Last()` of an empty array
    | ArgumentNull             // a null path passed to `FileInfo`
    | InvalidCast              // a cast of an object to a type it does not have

  /** Either a returned value or a thrown exception. */
  datatype Result<+T> = Success(value: T) | Failure(error: Error)
}
