/** The ways a staking instruction can fail. */
module StakingErrors {
  datatype StakingError =
    // declared by the program
    | InvalidOwner
    | AlreadyStaked
    | AssetNotStaked
    | InvalidTimestamp
    | FreezePeriodNotElapsed
    | InvalidRewardsBps
    | ArithmeticOverflow
    // raised by the account constraints, the called programs or the runtime
    | AccountNotInitialized
    | AccountInUse
    | PluginNotFound
    | SupplyOverflow
    | Panicked
}
