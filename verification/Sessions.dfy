/**
 The staking program without text: per asset at most one open session, which knows when it began and how
 many days it has paid, and for the collection the supply and two counters. What the program should do is
 easiest to read here; `StakingRefinement` proves that the attribute lists do exactly this.
 */
module Sessions {
  import opened Rust
  import opened Rewards
  import opened Staking

  datatype Status = Fresh | Idle | Staked(stakedAt: int, daysPaid: nat)

  datatype Holding = Holding(owner: Pubkey, status: Status)

  datatype Ledger = Ledger(
    config: Option<Config>,
    holdings: map<Pubkey, Holding>,
    supply: nat,
    staked: int,
    lifetime: int)

  function Bps(config: Option<Config>): nat {
    if config.Some? then config.value.rewardsBps else 0
  }

  /** Base units per day: the mint has 6 decimals, so a day pays bps * 10^6 / 10000. */
  function DailyPay(config: Option<Config>): nat {
    100 * Bps(config)
  }

  function StatusIn(a: Ledger, id: Pubkey): Status {
    if id in a.holdings then a.holdings[id].status else Fresh
  }

  /** Whole days of a session open since `stakedAt`. */
  function SessionDays(stakedAt: int, now: int): int {
    (now - stakedAt) / 86400
  }

  /** Days of an open session not yet paid. */
  function Due(status: Status, now: int): int
    requires status.Staked?
  {
    SessionDays(status.stakedAt, now) - status.daysPaid
  }

  predicate Permitted(a: Ledger, signer: Pubkey, id: Pubkey) {
    a.config.Some? && id in a.holdings && a.holdings[id].owner == signer
  }

  /** The reward of `days` days fits the formula and the supply. */
  predicate Payable(a: Ledger, days: int) {
    && days * Bps(a.config) * 1_000_000 <= U64_MAX
    && a.supply + days * DailyPay(a.config) <= U64_MAX
  }

  /** The calls that succeed. */
  predicate Enabled(a: Ledger, call: Call) {
    match call.op
    case Initialize(_, _) => a.config.None?
    case MintAsset(id) => id !in a.holdings
    case Stake(id) =>
      && Permitted(a, call.signer, id)
      && !StatusIn(a, id).Staked?
      && a.lifetime < I64_MAX
    case ClaimRewards(id) =>
      var status := StatusIn(a, id);
      && Permitted(a, call.signer, id)
      && status.Staked?
      && FitsI64(call.now - (status.stakedAt + status.daysPaid * 86400))
      && Payable(a, Due(status, call.now))
    case Unstake(id) =>
      var status := StatusIn(a, id);
      && Permitted(a, call.signer, id)
      && status.Staked?
      && FitsI64(call.now - status.stakedAt)
      && call.now >= status.stakedAt + a.config.value.freezePeriod * 86400
      && Payable(a, Due(status, call.now))
  }

  function SetStatus(a: Ledger, id: Pubkey, status: Status): map<Pubkey, Holding>
    requires id in a.holdings
  {
    a.holdings[id := Holding(a.holdings[id].owner, status)]
  }

  /** Days a call pays. */
  function PaidDays(a: Ledger, call: Call): int {
    match call.op
    case ClaimRewards(id) => if StatusIn(a, id).Staked? then Due(StatusIn(a, id), call.now) else 0
    case Unstake(id) => if StatusIn(a, id).Staked? then Due(StatusIn(a, id), call.now) else 0
    case _ => 0
  }

  predicate Clocked(a: Ledger, now: int) {
    forall id <- a.holdings :: a.holdings[id].status.Staked? ==>
      a.holdings[id].status.stakedAt + a.holdings[id].status.daysPaid * 86400 <= now
  }

  function After(a: Ledger, call: Call): (b: Ledger)
    requires Enabled(a, call) && Clocked(a, call.now)
  {
    match call.op
    case Initialize(bps, freezePeriod) => a.(config := Some(Config(bps, freezePeriod, 6)))
    case MintAsset(id) => a.(holdings := a.holdings[id := Holding(call.signer, Fresh)])
    case Stake(id) =>
      a.(holdings := SetStatus(a, id, Staked(call.now, 0)), staked := a.staked + 1, lifetime := a.lifetime + 1)
    case ClaimRewards(id) =>
      var stakedAt := StatusIn(a, id).stakedAt;
      a.(holdings := SetStatus(a, id, Staked(stakedAt, SessionDays(stakedAt, call.now))),
         supply := a.supply + PaidDays(a, call) * DailyPay(a.config))
    case Unstake(id) =>
      a.(holdings := SetStatus(a, id, Idle), staked := a.staked - 1,
         supply := a.supply + PaidDays(a, call) * DailyPay(a.config))
  }

  /** One call on the abstract machine: a call that is not enabled changes nothing. */
  function LedgerNext(a: Ledger, call: Call): Ledger {
    if Enabled(a, call) && Clocked(a, call.now) then After(a, call) else a
  }

  function StakedIds(a: Ledger): set<Pubkey> {
    set id | id in a.holdings && a.holdings[id].status.Staked?
  }
}
