/** The storage error taxonomy.  Only the error kinds are modelled; the messages the
    source formats into them are not. */
module Errors {

  datatype CommonErrorKind = InvalidStructure | InvalidState

  datatype WalletStorageError =
    | ItemNotFound        // no item (or metadata row) matches
    | ItemAlreadyExists   // an item or tag uniqueness violation while creating
    | NotFound            // the wallet is absent at open or delete
    | AlreadyExists       // the wallet's metadata row already exists
    | ConfigError         // config or credentials missing
    | IOError             // any other backend failure
    | CommonError(kind: CommonErrorKind)
}
