/** The optional value used for nullable fields and for replies that may be
    missing, and the answer of a database or auth call. */
module Wrappers {

  datatype Option<+T> = None | Some(value: T)

  /** What a database or auth client call answers: its data, or its error
      with the error's message. */
  datatype Reply<+T> = Ok(value: T) | Failed(message: string)
}
