/** The program's error codes, with the two failures the runtime raises itself. */
module PoolErrors {
  datatype PoolError =
    | TreeError
    | UnknownRoot
    | WrongVerifier
    | InvalidProof
    | InsufficientVault
    | RecipientMismatch
    | ExtAmountMustBeNonPositive
    | NoteTooLarge
    | ZeroAmount
    | InvalidProofLength
    | InvalidField
    | ZeroNullifier
    | DuplicateNullifier
    | SelfTransfer
    | AccountConstraint // an account does not meet its declared constraints
    | TokenError        // the token program refused a transfer
}
