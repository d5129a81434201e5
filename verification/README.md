# Verified models of the staking, fundraiser and whitelist programs

Three on-chain programs of the repository, modelled in Dafny 4.11 and proved correct:

* **NFT staking** (`programs/anchor-core-staking`). All state is text in ordered attribute lists. The lists
  are rebuilt by loops, timestamps are parsed and printed, counters live on the collection. The proofs show
  that this text machinery is a simple machine of staking sessions, and what that machine pays over any run.
* **Fundraiser** (`pinocchio-fundraiser`). Four instructions over byte-buffer records, a vault, wallets and
  lamports. The proofs give the byte layout, exact success conditions, the ledger of every round,
  conservation, exactly when refunds in any order are solvent, what a payout leaves behind, rent, and the one-way
  end of a round.
* **Whitelist table** (`whitelist_transfer_hook_q2`). A bounded vector changed in place that acts as a map,
  and the transfer hook that consults it.

`dafny verify dfyconfig.toml` verifies the whole project. Nothing here runs the programs.

## How it is organised

| file | content |
|---|---|
| `Rust.dfy`, `Sums.dfy` | Rust integers and `Result`; sums over finite maps |
| `Decimal.dfy`, `Attributes.dfy`, `Rewards.dfy` | text of an `i64`; attribute lists; the reward formula |
| `Staking.dfy` | each staking instruction as a function of the accounts (`Apply`) |
| `StakingProgram.dfy` | the instructions with their loops and account writes, proved equal to `Apply` |
| `Sessions.dfy`, `StakingRefinement.dfy` | the machine of sessions; the invariant and the simulation |
| `StakingRuns.dfy`, `StakingGuarantees.dfy` | theorems over whole runs |
| `StakingOutcomes.dfy` | every outcome of the staking instructions, errors included, on any list and on reachable accounts |
| `LittleEndian.dfy`, `FundraiserRecords.dfy` | byte encodings; the records and the views that change them in place |
| `FundraiserRules.dfy`, `FundraiserChain.dfy` | amount and time gates; each instruction as a function of the accounts |
| `FundraiserProgram.dfy` | the instructions on byte buffers, with rollback, proved equal to `Apply` |
| `FundraiserInvariant.dfy`, `FundraiserEffects.dfy` | conservation, the invariant, exact success conditions and effects |
| `FundraiserOutcomes.dfy` | every outcome of the fundraiser's instructions, errors included |
| `FundraiserRuns.dfy`, `FundraiserShares.dfy` | whole runs: conservation, the ledger of every round, what a payout needs |
| `FundraiserRefunds.dfy`, `FundraiserSettlement.dfy` | refunds in any order; the one-way end of a round |
| `FundraiserRent.dfy`, `FundraiserCarryOver.dfy` | rent over runs; what a payout leaves behind for the next round |
| `Whitelist.dfy`, `WhitelistVault.dfy` | the table as a map, runs, size, hook; the vault with its array |

A *run* is any sequence of calls, failed ones included; a failed call changes nothing, because a transaction is
atomic. Times never decrease. A *log* is the list of the successful calls of a run, and histories (sessions,
contributions, direct deposits) are functions of the log alone, not of what the accounts store.

Modelling choices:

* Rust integer widths, checked, saturating and truncating operations, and the wrap of `as u64` are explicit.
* The account constraints of stake, claim and unstake (configuration present, asset present, signer owns it)
  are part of `Apply` and fail with their own errors. The update authority is the program's own address.
* Derived addresses stand for their seeds: a contributor record for contributor and bump, the fundraiser for
  its maker and bump. Signers hold private keys, so no signer is the fundraiser's address.
* The fundraiser model has three steps outside the program: a wallet opens a token account, tokens are minted,
  tokens are sent. So tokens can be placed directly in the vault, as the repository's own test does
  (`pinocchio-fundraiser/src/tests/mod.rs:226`).
* Theorems state constants as numbers (86400 seconds, 16 entries, account counts, byte offsets) and attribute
  keys as text, not through the names the model gives them.
* Mint decimals and rent minimums are parameters. The theorems on rent start from accounts that hold exactly
  their minimum.

Where the source and its comments differ, the model follows the code: `constants.rs:15-17` says that unstake
advances `last_claim`, while unstake resets it to "0" (`unstake.rs:154-157`); `ReachableList` says so for every
asset that is not staked.

Two properties turn out to be narrower than one might expect, and are proved exactly:

* Initialize of the fundraiser accepts every target above `3 * 10^decimals`, but a contribution is possible
  only for targets from `10 * 10^decimals` to `floor((2^64 - 1) / 10)`; a round opened with any other target
  never takes a contribution (`SomeAmountPasses`, `InitializeAcceptsMore`, `DeadRound`).
* A payout closes the fundraiser and its vault but no contributor record (`check_contributions.rs:73-79`), and a
  later initialize starts a round with a total of zero beside those records. The difference between the live
  records and the running total is always the sum of the records that were there when the round was opened
  (`LedgerHolds`); so the total equals the live records exactly in rounds opened without a live record, first or
  later (`RoundLedger`, `OpenedClean`). Refunding every live record of a missed round succeeds, in every order, if
  and only if the round was opened without one (`RefundAnyRound`); first rounds always were (`RefundSolvency`).
  Rounds with something carried over do occur (`SomethingCarried`, `LeftBehind`), and after every payout reached
  by contributions alone reopening carries over at least the whole target (`ReopeningCarries`).

## Model

| member | source | states |
|---|---|---|
| Decimal.RoundTripExactly | programs/anchor-core-staking/src/instructions/unstake.rs:92-105 | printing a number and parsing the text gives the number back exactly when it is an i64 |
| Decimal.RoundTrip | programs/anchor-core-staking/src/instructions/stake.rs:74-86 | every i64 survives the text round trip, the minimum and negatives included |
| Decimal.ParseExactly | programs/anchor-core-staking/src/instructions/unstake.rs:92-105 | exactly which texts are read as an i64 and as which: digits by their positions, leading zeros and one sign allowed, in range |
| Decimal.TextIsCanonical | programs/anchor-core-staking/src/instructions/stake.rs:74-86 | what is printed is the one text without plus, leading zeros or minus zero that is read back as the number |
| Rust.TruncDivMeaning | programs/anchor-core-staking/src/instructions/claim_rewards.rs:129-133 | the division of the model rounds toward zero: remainder smaller than the divisor and of the dividend's sign |
| Rust.PowersOfTen | pinocchio-fundraiser/src/instructions/utils.rs:18-22 | powers of ten for every exponent |
| Attributes.LayoutReads | programs/anchor-core-staking/src/instructions/stake.rs:72-86 | a list with the three staking attributes behind the others: each found exactly once with the value written, the others untouched |
| Attributes.CounterLayoutReads | programs/anchor-core-staking/src/utils.rs:70-77 | the same for the two collection counters |
| Attributes.WithoutTwice | programs/anchor-core-staking/src/instructions/unstake.rs:87-109 | filtering a list twice is filtering by both key sets, in order |
| Attributes.WithoutParts | programs/anchor-core-staking/src/utils.rs:46-55 | an attribute is dropped or kept where it stands: content and order of the rest are unchanged |
| Attributes.LastValueMeaning | programs/anchor-core-staking/src/instructions/claim_rewards.rs:94-120 | a key stored more than once counts with its last value; none is found exactly if the key does not occur |
| Rewards.RewardIsFloor | programs/anchor-core-staking/src/instructions/unstake.rs:192-198 | the reward formula succeeds exactly when each product fits, with the exact reward rounded down |
| Rewards.RewardRefusals | programs/anchor-core-staking/src/instructions/unstake.rs:192-198 | which failure it is when the reward does not fit; a negative number of days is never paid at 6 decimals |
| Rewards.SplitPayments | programs/anchor-core-staking/src/instructions/unstake.rs:192-198 | splitting a period into n payments, any decimals: never more than one payment, at most n-1 units less, equal at 6 decimals |
| Rewards.NoRemainder | programs/anchor-core-staking/src/instructions/claim_rewards.rs:176-182 | at 6 decimals a day pays exactly 100 * rewards_bps base units, without rounding |
| Rewards.SafeDays | programs/anchor-core-staking/src/instructions/claim_rewards.rs:176-182 | at 6 decimals no u16 bps overflows the formula exactly up to 281,479,271 days |
| StakingProgram.StripForStake | programs/anchor-core-staking/src/instructions/stake.rs:56-70 | the stake loop keeps exactly the non-staking attributes, and fails exactly if some staked entry is not "false" |
| StakingProgram.ScanForClaim | programs/anchor-core-staking/src/instructions/claim_rewards.rs:89-120 | the claim loop: kept list, staked flag and both clocks are what was read last; it fails only as reading the clocks fails |
| StakingProgram.ScanForUnstake | programs/anchor-core-staking/src/instructions/unstake.rs:77-109 | the same for the unstake loop, which drops all staking attributes |
| StakingProgram.RebuildForClaim | programs/anchor-core-staking/src/instructions/claim_rewards.rs:89-153 | from the fetched list to the new list and the days due, or the first error in the handler's order |
| StakingProgram.RebuildForUnstake | programs/anchor-core-staking/src/instructions/unstake.rs:77-157 | the same for unstake, freeze gate included |
| StakingProgram.ScanCounters | programs/anchor-core-staking/src/utils.rs:39-57 | the counter loop: kept list, and both counters as read last or zero |
| StakingProgram.Program.UpdateCollectionStakedCount | programs/anchor-core-staking/src/utils.rs:24-105 | the new collection list, or the error with the list unchanged |
| StakingProgram.Program.MintTo | programs/anchor-core-staking/src/instructions/claim_rewards.rs:175-205 | amount with its checked products in order; supply and owner's balance grow by it, nothing is minted for zero |
| StakingProgram.Program.Stake | programs/anchor-core-staking/src/instructions/stake.rs:45-168 | the stake handler, step by step, leads to the specified accounts or error |
| StakingProgram.Program.ClaimRewards | programs/anchor-core-staking/src/instructions/claim_rewards.rs:73-208 | the claim handler, step by step, leads to the specified accounts or error |
| StakingProgram.Program.Unstake | programs/anchor-core-staking/src/instructions/unstake.rs:61-225 | the unstake handler, step by step, leads to the specified accounts or error |
| StakingProgram.Program.Execute | programs/anchor-core-staking/src/lib.rs:17-47 | one transaction with account constraints and rollback: the specified next accounts in every case |
| StakingProgram.Program.constructor | programs/anchor-core-staking/src/instructions/create_collection.rs:24-43 | a fresh collection without plugins, configuration or rewards |
| StakingRefinement.GenesisInvariant | programs/anchor-core-staking/src/instructions/create_collection.rs:24-43 | the fresh collection satisfies the invariant and stands for the empty ledger |
| StakingRefinement.WellKeptReads | programs/anchor-core-staking/src/instructions/claim_rewards.rs:94-126 | on a well-kept list no timestamp fails to parse, and the clocks read are those of the session |
| StakingRefinement.WellKeptTexts | programs/anchor-core-staking/src/instructions/unstake.rs:146-157 | in every state with the invariant a list is the attributes of others and the three staking attributes, with exactly these texts |
| StakingRefinement.StakeRefines | programs/anchor-core-staking/src/instructions/stake.rs:45-86 | on well-kept lists stake succeeds exactly if the asset is not staked, and opens a session now |
| StakingRefinement.DaysSplit | programs/anchor-core-staking/src/instructions/claim_rewards.rs:141-153 | days due since the reward clock plus days paid are the whole days of the session |
| StakingRefinement.AdvanceFits | programs/anchor-core-staking/src/instructions/claim_rewards.rs:143-149 | advancing the reward clock by the days paid never overflows |
| StakingRefinement.ClaimRefines | programs/anchor-core-staking/src/instructions/claim_rewards.rs:73-153 | on well-kept lists claim pays what is due and raises the days paid to the whole session |
| StakingRefinement.UnstakeRefines | programs/anchor-core-staking/src/instructions/unstake.rs:61-157 | on well-kept lists unstake succeeds exactly from staked_at + 86400 * freeze_period on, pays (now - staked_at) / 86400 less the days paid, and closes the session |
| StakingRefinement.CounterRefines | programs/anchor-core-staking/src/utils.rs:39-77 | the counter text moves by exactly delta, fails exactly at the largest lifetime |
| StakingRefinement.PayRefines | programs/anchor-core-staking/src/instructions/unstake.rs:192-222 | a payment succeeds exactly when it fits formula and supply; supply equals the sum of balances before and after |
| StakingRefinement.Simulates | programs/anchor-core-staking/src/instructions/claim_rewards.rs:94-153 | one call: success exactly when the session machine allows it, same payment, abstraction of the result is its successor, invariant kept |
| StakingRuns.RunKeepsInvariant | programs/anchor-core-staking/src/instructions/stake.rs:45-168 | the invariant holds on every reachable state |
| StakingRuns.RunRefines | programs/anchor-core-staking/src/instructions/claim_rewards.rs:94-153 | along every run the attribute lists stand for the ledger the session machine reaches |
| StakingRuns.RunSucceedsAsAllowed | programs/anchor-core-staking/src/instructions/unstake.rs:87-133 | along every run each call succeeds exactly as the session machine allows, with its payment |
| StakingRuns.HistoryAgrees | programs/anchor-core-staking/src/instructions/claim_rewards.rs:129-182 | every asset, every run: stakes and unstakes alternate; days paid are the whole days of closed sessions plus those of the open one |
| StakingRuns.SupplyBySessions | programs/anchor-core-staking/src/instructions/claim_rewards.rs:129-205 | supply, and each owner's rewards, are 100 * rewards_bps per whole session day, independent of the claim schedule |
| StakingGuarantees.CountersCount | programs/anchor-core-staking/src/utils.rs:59-68 | total_staked is the number of staked assets and stakes minus unstakes; lifetime is the number of stakes |
| StakingGuarantees.ClampNeverActs | programs/anchor-core-staking/src/utils.rs:45-68 | counters always parse, and neither the clamp at zero nor the fallback to zero ever changes a value |
| StakingGuarantees.SessionPays | programs/anchor-core-staking/src/instructions/unstake.rs:128-133 | stake at s, any calls, unstake at T: exactly floor((T-s)/86400) days paid and 100 * rewards_bps units each |
| StakingGuarantees.FreezeClock | programs/anchor-core-staking/src/instructions/unstake.rs:114-124 | after any claims the owner's unstake at T succeeds if and only if T >= s + 86400 * freeze_period and the arithmetic fits |
| StakingGuarantees.StakeKeepsOthers | programs/anchor-core-staking/src/instructions/stake.rs:57-86 | on every list, stake keeps the other attributes in content and order |
| StakingGuarantees.ClaimKeepsOthers | programs/anchor-core-staking/src/instructions/claim_rewards.rs:94-153 | on every list, claim keeps everything but last_claim, staked flag and freeze clock included |
| StakingGuarantees.UnstakeKeepsOthers | programs/anchor-core-staking/src/instructions/unstake.rs:87-157 | on every list, unstake keeps the other attributes in content and order |
| StakingGuarantees.CounterKeepsOthers | programs/anchor-core-staking/src/utils.rs:39-77 | on every collection list, the update keeps the other attributes in content and order |
| StakingGuarantees.RunKeepsOthers | programs/anchor-core-staking/src/instructions/initialize.rs:39-48 | over every run from any accounts: foreign attributes, owners and a set configuration never change |
| StakingGuarantees.ReachableAsset | programs/anchor-core-staking/src/instructions/stake.rs:129-154 | every reachable asset: both plugins exactly if ever staked, frozen exactly while staked, each staking key once, all timestamps parse |
| StakingGuarantees.ReachableList | programs/anchor-core-staking/src/instructions/unstake.rs:146-157 | the attribute list of every reachable asset text by text from its history: both clocks "0" after an unstake, the last stake and the days paid since while staked |
| StakingGuarantees.ReachableCollection | programs/anchor-core-staking/src/utils.rs:70-77 | the attribute list of the collection text by text from the numbers of stakes and unstakes |
| StakingGuarantees.RunProvenance | programs/anchor-core-staking/src/instructions/initialize.rs:39-48 | over every run the configuration is that of the one initialize, and each asset belongs to who minted it |
| StakingOutcomes.StakeOutcome | programs/anchor-core-staking/src/instructions/stake.rs:56-86 | stake on any list: refused exactly for a staked entry other than "false", otherwise exactly these three attributes behind the others |
| StakingOutcomes.ClaimOutcome | programs/anchor-core-staking/src/instructions/claim_rewards.rs:82-153 | claim on any list: each error with its exact condition, never an overflow; the reward clock ends less than a day from now |
| StakingOutcomes.LegacyClaim | programs/anchor-core-staking/src/instructions/claim_rewards.rs:125-126 | a list without last_claim is paid whole days from staked_at, and gets a last_claim |
| StakingOutcomes.UnstakeOutcome | programs/anchor-core-staking/src/instructions/unstake.rs:72-157 | unstake on any list: each error with its exact condition, and exactly the list written |
| StakingOutcomes.CounterOutcome | programs/anchor-core-staking/src/utils.rs:39-77 | the counters on any collection list: unreadable counts as zero, clamp at zero, overflow exactly at the ends of i64 |
| StakingOutcomes.ConstraintOutcome | programs/anchor-core-staking/src/instructions/stake.rs:18-28 | a missing configuration or asset, and a signer who is not the owner, are the only ways to these two errors |
| StakingOutcomes.StakeRefusals | programs/anchor-core-staking/src/instructions/stake.rs:45-168 | the owner's stake on reachable accounts: which error exactly when |
| StakingOutcomes.PayRefusals | programs/anchor-core-staking/src/instructions/claim_rewards.rs:176-205 | a payment at 6 decimals: which error exactly when |
| StakingOutcomes.ClaimRefusals | programs/anchor-core-staking/src/instructions/claim_rewards.rs:73-208 | the owner's claim on reachable accounts, in terms of the session: which error exactly when |
| StakingOutcomes.UnstakeRefusals | programs/anchor-core-staking/src/instructions/unstake.rs:61-225 | the owner's unstake on reachable accounts, in terms of the session: which error exactly when |
| LittleEndian.U64RoundTrip | pinocchio-fundraiser/src/state/fundraiser.rs:42-56 | u64 and eight little-endian bytes correspond one to one |
| LittleEndian.I64RoundTrip | pinocchio-fundraiser/src/state/fundraiser.rs:58-64 | the same for i64 in two's complement |
| LittleEndian.ByteByByte | pinocchio-fundraiser/src/state/fundraiser.rs:42-64 | the value of eight bytes by their positions, lowest first, with the top bit as the sign |
| FundraiserRecords.ReadBack | pinocchio-fundraiser/src/instructions/utils.rs:7-16 | read_u64 reads back a number encoded anywhere inside a buffer |
| FundraiserRecords.LayoutBijection | pinocchio-fundraiser/src/state/fundraiser.rs:3-24 | fundraiser records and buffers of length LEN correspond one to one |
| FundraiserRecords.ContributorBijection | pinocchio-fundraiser/src/state/contributor.rs:3-19 | contributor records and buffers of length LEN correspond one to one |
| FundraiserRecords.FieldOffsets | pinocchio-fundraiser/src/state/fundraiser.rs:5-16 | the bytes of each field, 90 and 9 in all |
| FundraiserRecords.FieldWritten | pinocchio-fundraiser/src/state/fundraiser.rs:30-72 | overwriting the bytes of one field changes that field of the record and no other |
| FundraiserRecords.Fundraiser.SetMaker | pinocchio-fundraiser/src/state/fundraiser.rs:30-32 | in place: the maker is set, every other byte is unchanged |
| FundraiserRecords.Fundraiser.SetMintToRaise | pinocchio-fundraiser/src/state/fundraiser.rs:38-40 | in place: the mint is set, every other byte is unchanged |
| FundraiserRecords.Fundraiser.SetAmountToRaise | pinocchio-fundraiser/src/state/fundraiser.rs:46-48 | in place: the target is set, every other byte is unchanged |
| FundraiserRecords.Fundraiser.SetCurrentAmount | pinocchio-fundraiser/src/state/fundraiser.rs:54-56 | in place: the running total is set, every other byte is unchanged |
| FundraiserRecords.Fundraiser.SetTimeStarted | pinocchio-fundraiser/src/state/fundraiser.rs:62-64 | in place: the start time is set, every other byte is unchanged |
| FundraiserRecords.Fundraiser.SetDuration | pinocchio-fundraiser/src/state/fundraiser.rs:70-72 | in place: the duration is set, every other byte is unchanged |
| FundraiserRecords.Contributor.SetAmount | pinocchio-fundraiser/src/state/contributor.rs:25-27 | in place: the amount is set, the bump is unchanged |
| FundraiserRules.DeadlineExact | pinocchio-fundraiser/src/instructions/utils.rs:24-28 | for all i64 inputs a fundraiser has ended exactly if its duration is not zero and now >= started + 86400 * duration |
| FundraiserRules.EndedForGood | pinocchio-fundraiser/src/instructions/utils.rs:24-28 | an ended fundraiser stays ended |
| FundraiserRules.CheckAmountMeaning | pinocchio-fundraiser/src/instructions/contribute.rs:86-114 | exactly which amounts pass all gates of contribute, and the sums they lead to |
| FundraiserRules.CheckAmountRefusals | pinocchio-fundraiser/src/instructions/contribute.rs:86-114 | which amount gate refuses, each error with its exact condition |
| FundraiserRules.CheckTargetRefusals | pinocchio-fundraiser/src/instructions/initialize.rs:47-55 | the target gate, each error with its exact condition |
| FundraiserRules.SomeAmountPasses | pinocchio-fundraiser/src/instructions/contribute.rs:86-109 | some amount passes for a fresh record if and only if 10 * 10^decimals <= target <= floor((2^64-1)/10) |
| FundraiserRules.InitializeAcceptsMore | pinocchio-fundraiser/src/instructions/initialize.rs:47-55 | initialize accepts exactly the targets above 3 * 10^decimals, among them some that no contribution can meet |
| FundraiserProgram.ParseCall | pinocchio-fundraiser/src/lib.rs:20-41 | at least 6, 8, 7, 8 accounts and 11, 10, any, any bytes for the first byte 0, 1, 2, 3, signed; each error in its order; bump, amount and duration from their bytes |
| FundraiserProgram.ParseRoundTrip | pinocchio-fundraiser/src/lib.rs:26-31 | every instruction is read back from its data as it was sent; one account fewer, or no signature, gives exactly that error |
| FundraiserProgram.Program.ProcessInitialize | pinocchio-fundraiser/src/instructions/initialize.rs:17-94 | initialize on byte buffers leads to the specified accounts or error |
| FundraiserProgram.Program.CreateContributorIfNeeded | pinocchio-fundraiser/src/instructions/contribute.rs:126-163 | an existing record is kept, a missing one is created empty at its own address |
| FundraiserProgram.Program.ProcessContribute | pinocchio-fundraiser/src/instructions/contribute.rs:23-124 | contribute on byte buffers leads to the specified accounts or error |
| FundraiserProgram.Program.FinishContribute | pinocchio-fundraiser/src/instructions/contribute.rs:66-121 | contribute from the point where the record exists |
| FundraiserProgram.Program.ProcessCheckContributions | pinocchio-fundraiser/src/instructions/check_contributions.rs:15-82 | check_contributions leads to the specified accounts or error |
| FundraiserProgram.Program.FinishCheckContributions | pinocchio-fundraiser/src/instructions/check_contributions.rs:60-81 | target gate, payout of the whole vault, both closes |
| FundraiserProgram.Program.ProcessRefund | pinocchio-fundraiser/src/instructions/refund.rs:17-98 | refund on byte buffers leads to the specified accounts or error |
| FundraiserProgram.Program.FinishRefund | pinocchio-fundraiser/src/instructions/refund.rs:80-94 | transfer, checked subtraction and close, in that order |
| FundraiserProgram.Program.ProcessInstruction | pinocchio-fundraiser/src/lib.rs:20-41 | one transaction from raw instruction data: the specified next accounts, every account restored on failure |
| FundraiserInvariant.CloseConserves | pinocchio-fundraiser/src/instructions/utils.rs:86-99 | closing an account preserves total lamports |
| FundraiserInvariant.CloseSucceeds | pinocchio-fundraiser/src/instructions/utils.rs:91-96 | the checked addition of a close cannot overflow while all lamports fit a u64 |
| FundraiserInvariant.StepConserves | pinocchio-fundraiser/src/instructions/contribute.rs:116-117 | every successful instruction preserves all tokens of every mint, and all lamports |
| FundraiserInvariant.StepKeepsInvariant | pinocchio-fundraiser/src/instructions/initialize.rs:72-91 | only the vault belongs to the fundraiser's address, fixed fields stay, supplies stay within u64 |
| FundraiserEffects.ContributeExactly | pinocchio-fundraiser/src/instructions/contribute.rs:58-117 | contribute succeeds if and only if the listed conditions hold |
| FundraiserEffects.CheckExactly | pinocchio-fundraiser/src/instructions/check_contributions.rs:46-79 | check_contributions succeeds if and only if the vault has reached the target and the maker has or can fund a token account |
| FundraiserEffects.RefundExactly | pinocchio-fundraiser/src/instructions/refund.rs:56-94 | refund succeeds if and only if ended, below target, and the amount is within vault and running total |
| FundraiserOutcomes.InitializeOutcome | pinocchio-fundraiser/src/instructions/initialize.rs:17-82 | initialize: each error with its exact condition |
| FundraiserOutcomes.ContributeAdmission | pinocchio-fundraiser/src/instructions/contribute.rs:46-84 | contribute up to the amount gates: accounts, creation of the record, deadline, each error with its exact condition |
| FundraiserOutcomes.ContributeOutcome | pinocchio-fundraiser/src/instructions/contribute.rs:81-117 | contribute with its accounts in order: each error with its exact condition |
| FundraiserOutcomes.CheckOutcome | pinocchio-fundraiser/src/instructions/check_contributions.rs:33-79 | check_contributions: each error with its exact condition, none past the target gate |
| FundraiserOutcomes.RefundOutcome | pinocchio-fundraiser/src/instructions/refund.rs:36-94 | refund: each error with its exact condition, deadline before target before amounts; a success named the round's maker and mint |
| FundraiserOutcomes.OnlySignersWallet | pinocchio-fundraiser/src/instructions/utils.rs:86-99 | no step charges or pays a wallet other than its signer's |
| FundraiserRuns.RunKeepsInvariant | pinocchio-fundraiser/src/instructions/initialize.rs:72-91 | the invariant holds at the end of every run |
| FundraiserRuns.RunConserves | pinocchio-fundraiser/src/instructions/utils.rs:86-99 | over every run tokens only come from minting and lamports are never created or lost |
| FundraiserRuns.RoundTerms | pinocchio-fundraiser/src/instructions/initialize.rs:82-91 | over every run the terms of an open round are those of its initialize |
| FundraiserRuns.LedgerHolds | pinocchio-fundraiser/src/instructions/contribute.rs:103-120 | all runs, all rounds: vault = total + direct deposits; records = total + carried over; each record = its contributions |
| FundraiserRuns.FirstRound | pinocchio-fundraiser/src/instructions/contribute.rs:86-109 | in a first round nothing is carried over and every record lies between 10^decimals and the cap |
| FundraiserRuns.CleanRound | pinocchio-fundraiser/src/instructions/contribute.rs:86-109 | in every round that carries nothing over, every record lies between 10^decimals and the cap, and its contributor has a token account |
| FundraiserRuns.RecordsPositive | pinocchio-fundraiser/src/instructions/contribute.rs:86-109 | every live record of every reachable state holds a positive amount |
| FundraiserRuns.RoundLedger | pinocchio-fundraiser/src/instructions/contribute.rs:103-120 | in every round: the total equals the sum of the live records if and only if nothing was carried over; the vault is then that sum plus direct deposits |
| FundraiserRuns.FirstRoundLedger | pinocchio-fundraiser/src/instructions/contribute.rs:103-120 | in a first round the total equals the sum of the live records, and the vault that sum plus direct deposits |
| FundraiserShares.SharesHold | pinocchio-fundraiser/src/instructions/contribute.rs:86-120 | all runs, all rounds: what a record was given this round is within record and cap, and these shares together cover the running total |
| FundraiserShares.TenRecords | pinocchio-fundraiser/src/instructions/contribute.rs:86-109 | in any round without direct deposits a payout needs ten live records contributed to in that round, eleven if ten does not divide the target |
| FundraiserRefunds.RefundNext | pinocchio-fundraiser/src/instructions/refund.rs:63-94 | in a missed round that carries nothing over, any one more refund succeeds and leaves a missed round |
| FundraiserRefunds.RefundSome | pinocchio-fundraiser/src/instructions/refund.rs:63-94 | refunds of any of the records, in any order, all succeed and pay exactly |
| FundraiserRefunds.RefundsExactly | pinocchio-fundraiser/src/instructions/refund.rs:56-94 | any state, any records, any order: all refunds succeed if and only if the total covers their sum and each contributor has a token account; what they take from total and vault |
| FundraiserRefunds.RefundAnyRound | pinocchio-fundraiser/src/instructions/refund.rs:63-94 | after any history below target, refunding all records in any permutation succeeds if and only if nothing was carried over; it then returns every contribution and leaves only direct deposits |
| FundraiserRefunds.RefundSolvency | pinocchio-fundraiser/src/instructions/refund.rs:63-94 | the first-round case of it, where no condition is left |
| FundraiserCarryOver.OpenedClean | pinocchio-fundraiser/src/instructions/initialize.rs:72-91 | opening a round carries over the sum of the live records, which is zero if and only if there is none |
| FundraiserCarryOver.LeftBehind | pinocchio-fundraiser/src/instructions/check_contributions.rs:73-79 | after payout and reopening, every record of the paid round is still there, all of it carried over, total and vault zero, and its refund fails at every later time on these accounts |
| FundraiserCarryOver.ReopeningCarries | pinocchio-fundraiser/src/instructions/check_contributions.rs:60-79 | after a payout reached by contributions alone, reopening carries over at least the whole target |
| FundraiserCarryOver.SomethingCarried | pinocchio-fundraiser/src/instructions/check_contributions.rs:73-79 | a run of five successful steps from fresh accounts that carries a record into its second round |
| FundraiserRent.RunKeepsRent | pinocchio-fundraiser/src/instructions/utils.rs:86-99 | over every run, each derived account holds exactly its rent minimum while it exists, and no lamports after |
| FundraiserRent.RefundReturnsRent | pinocchio-fundraiser/src/instructions/refund.rs:94 | after any run, a refund returns the record's rent to its contributor |
| FundraiserRent.PayoutReturnsRent | pinocchio-fundraiser/src/instructions/check_contributions.rs:73-79 | after any run, a payout returns the rent of vault and fundraiser to the maker, less a new token account |
| FundraiserRent.ReopenExactly | pinocchio-fundraiser/src/instructions/initialize.rs:37-82 | after any run that ends closed, initialize succeeds if and only if mint, target and the maker's lamports allow it: nothing of an earlier round is in the way |
| FundraiserRent.PayoutFundsReopening | pinocchio-fundraiser/src/instructions/initialize.rs:57-82 | after a payout into a token account the maker already had, the rents returned pay for the next round: it opens for every known mint and every target above 3 * 10^decimals |
| FundraiserSettlement.OverForGood | pinocchio-fundraiser/src/instructions/contribute.rs:81-84 | past the deadline, or closed, a round stays so, and nothing that needs it open succeeds |
| FundraiserSettlement.RefundSettles | pinocchio-fundraiser/src/instructions/check_contributions.rs:60-79 | after a refund no contribution of the round succeeds, and no payout unless tokens are placed directly in the vault |
| FundraiserSettlement.PayoutSettles | pinocchio-fundraiser/src/instructions/check_contributions.rs:60-79 | after the payout no refund, contribution or second payout of the round succeeds |
| FundraiserSettlement.DeadRound | pinocchio-fundraiser/src/instructions/initialize.rs:47-55 | a round opened with an infeasible target never takes a contribution |
| Whitelist.Position | whitelist_transfer_hook_q2/programs/whitelist-transfer-hook-q2/src/state.rs:54-59 | the first entry of a user, or the length if there is none |
| Whitelist.TableLookup | whitelist_transfer_hook_q2/programs/whitelist-transfer-hook-q2/src/state.rs:25-29 | finding the first entry is looking the user up in the map |
| Whitelist.TableSize | whitelist_transfer_hook_q2/programs/whitelist-transfer-hook-q2/src/state.rs:44-47 | the length of the vector is the number of users in the map |
| Whitelist.UpsertIsUpdate | whitelist_transfer_hook_q2/programs/whitelist-transfer-hook-q2/src/state.rs:36-52 | upsert is map update; each error with its exact condition: amount zero, or a new user with 16 listed |
| Whitelist.RemoveIsDelete | whitelist_transfer_hook_q2/programs/whitelist-transfer-hook-q2/src/state.rs:54-64 | remove is map deletion, refused exactly for a user not listed |
| Whitelist.RemoveKeepsOrder | whitelist_transfer_hook_q2/programs/whitelist-transfer-hook-q2/src/state.rs:54-64 | a removal keeps the order of all other users |
| Whitelist.UpsertKeepsOrder | whitelist_transfer_hook_q2/programs/whitelist-transfer-hook-q2/src/state.rs:39-49 | a listed user keeps the position, a new one is last |
| Whitelist.AllowedMeaning | whitelist_transfer_hook_q2/programs/whitelist-transfer-hook-q2/src/state.rs:22-34 | an amount is allowed exactly if 0 < amount <= map[user]; each error with its exact condition |
| Whitelist.RunRefines | whitelist_transfer_hook_q2/programs/whitelist-transfer-hook-q2/src/state.rs:36-64 | over every sequence of upserts and removes: distinct users, positive amounts, at most 16, and the same map |
| Whitelist.RunOrder | whitelist_transfer_hook_q2/programs/whitelist-transfer-hook-q2/src/state.rs:36-64 | over every sequence of upserts and removes the users stand in the order of the insertions still in force |
| Whitelist.EncodedSizeFits | whitelist_transfer_hook_q2/programs/whitelist-transfer-hook-q2/src/state.rs:19-20 | the account data always fit 8 + LEN, and fill it exactly with 16 entries |
| Whitelist.EncodedFields | whitelist_transfer_hook_q2/programs/whitelist-transfer-hook-q2/src/state.rs:8-17 | the bytes of each field and of each entry, in order |
| Whitelist.HookExactly | whitelist_transfer_hook_q2/programs/whitelist-transfer-hook-q2/src/instructions/transfer_hook.rs:46-66 | a transfer is accepted if and only if it is in progress, the mints agree, one side is the vault account and 0 < amount <= map[user]; each error with its exact condition |
| WhitelistVault.Vault.Find | whitelist_transfer_hook_q2/programs/whitelist-transfer-hook-q2/src/state.rs:25-29 | the linear search over the array finds the first entry |
| WhitelistVault.Vault.AssertAllowed | whitelist_transfer_hook_q2/programs/whitelist-transfer-hook-q2/src/state.rs:22-34 | the three checks in their order, with their errors |
| WhitelistVault.Vault.UpsertWhitelistEntry | whitelist_transfer_hook_q2/programs/whitelist-transfer-hook-q2/src/state.rs:36-52 | in place: overwrite, append or refuse, as specified on the sequence |
| WhitelistVault.Vault.RemoveWhitelistEntry | whitelist_transfer_hook_q2/programs/whitelist-transfer-hook-q2/src/state.rs:54-64 | in place: the shifting removal, as specified on the sequence |
| WhitelistVault.Vault.Hook | whitelist_transfer_hook_q2/programs/whitelist-transfer-hook-q2/src/instructions/transfer_hook.rs:46-91 | the hook with its constraints, its choice of the user and the table lookup |

## Left out

- Cross-program calls as code: plugin, token, system and associated-token operations are small functions on
  the ledger; plugin authority rules and the fetching of raw plugin bytes are not modelled.
- Transfers of an asset or of reward tokens outside the staking program: owners are fixed, and `rewards` holds
  what each owner's reward account received. The reward account's creation is not modelled.
- StakingProgram.Program.Execute: does not represent the constraints that an asset's update authority is the
  collection and the collection's is the program; the model has one collection, which owns every asset.
- Other fundraisers at the same time: the model follows one fundraiser address over all its rounds.
- Token accounts of the fundraiser's address other than the vault opened by initialize.
- Closing of wallets' token accounts, and lamports sent between wallets or to derived addresses from outside.
- Bump search and address hashing; compute units; logging; the numbers of error codes (errors are named).
- The length error of `from_account_info`: the buffers of the model always have their record's length.
- Whitelist: the admin constraint, initialization of mint and extra account metas, and minting.
- `accel-p-escrow` and `anchor-escrow-q2-2026`: straight-line transfers with one open state.
- `generic-storage`, `persistent-todo`, `magicblock_er_example`, `solana_gpt_oracle_tuktuk`: wrappers around
  libraries that are not part of this repository, with little logic of their own.
