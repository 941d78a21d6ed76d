// Shared vocabulary of the five services: identifiers, error codes and results.
module Base {

  // A uuid is opaque to the model: only equality matters. NIL is the all-zero uuid, but nothing depends on
  // its bits.
  datatype Uuid = Uuid(bits: nat)

  const NIL: Uuid

  datatype Option<+T> = None | Some(value: T)

  datatype Code = NotFound | InvalidArgument | PermissionDenied | InsufficientFunds | Conflict | Internal

  datatype Result<+T> = Ok(value: T) | Err(code: Code)

  // How a database write ends. A misreported write returns an error although it took effect.
  datatype Fate = Works | Fails | Misreported {
    predicate Happens() {
      !Fails?
    }

    function Error(): Option<Code> {
      if Works? then None else Some(Internal)
    }
  }
}
