/** Failure-carrying values shared by the whole model: the exceptions the
    ledger raises and the Option/Result wrappers that carry them. */
module Wrappers {

  datatype Option<+T> = None | Some(value: T)

  /** What a store driver reports when a store operation fails. */
  datatype Fault =
    | DuplicateKey   // the unique index on a collection refused an insert
    | IoError        // any other failure of the data store (network, lock timeout, ...)

  /** The exceptions raised inside a unit of work. */
  datatype Error =
    | BadRequest(message: string)   // BadRequestException with its message
    | WalletNotFound                // NotFoundException raised by the wallet lookup
    | StoreFailure(fault: Fault)    // an error thrown by the data store itself

  datatype Result<+T> = Ok(value: T) | Err(error: Error)
}
