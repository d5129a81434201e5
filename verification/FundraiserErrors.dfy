/** The ways a fundraiser instruction can fail. */
module FundraiserErrors {
  datatype FundraiserError =
    // the program's own codes, 6000 to 6007
    | TargetNotMet
    | TargetMet
    | ContributionTooBig
    | ContributionTooSmall
    | MaximumContributionsReached
    | FundraiserNotEnded
    | FundraiserEnded
    | InvalidAmount
    // built-in program errors
    | NotEnoughAccountKeys
    | MissingRequiredSignature
    | InvalidInstructionData
    | InvalidAccountData
    | IllegalOwner
    | AccountAlreadyInitialized
    | ArithmeticOverflow
    // raised by the system and token programs
    | AccountInUse
    | InsufficientLamports
    | InsufficientFunds
    | TokenOverflow
}
