/**
 The staking program as a function of its accounts: what each instruction computes from the attribute
 lists of an asset and of the collection, the freeze flag, the configuration and the reward mint.
 `StakingProgram` runs the same instructions step by step and is proved against `Apply`.
 */
module Staking {
  import opened Rust
  import opened Decimal
  import opened Attributes
  import opened Rewards
  import opened StakingErrors

  datatype Config = Config(rewardsBps: u16, freezePeriod: u16, decimals: u8)

  /** An asset account: its owner and its two plugins, each absent until the first stake. */
  datatype Asset = Asset(owner: Pubkey, attributes: Option<seq<Attribute>>, frozen: Option<bool>)

  /** All accounts of one collection; `rewards` holds what each owner's reward account received. */
  datatype World = World(
    config: Option<Config>,
    assets: map<Pubkey, Asset>,
    collection: Option<seq<Attribute>>,
    supply: u64,
    rewards: map<Pubkey, nat>)

  const GENESIS := World(None, map[], None, 0, map[])

  datatype Op =
    | Initialize(rewardsBps: u16, freezePeriod: u16)
    | MintAsset(id: Pubkey)
    | Stake(id: Pubkey)
    | ClaimRewards(id: Pubkey)
    | Unstake(id: Pubkey)

  datatype Call = Call(signer: Pubkey, now: i64, op: Op)

  /** What a successful call paid: the reward days and the base units minted for them. */
  datatype Receipt = Receipt(days: int, minted: int)

  datatype Clocks = Clocks(stakedAt: i64, lastClaim: i64)

  function ListOf(fetched: Option<seq<Attribute>>): seq<Attribute> {
    match fetched
    case None => []
    case Some(list) => list
  }

  /** Every `staked` entry, if there is one, says "false". */
  predicate MayStake(list: seq<Attribute>) {
    forall i | 0 <= i < |list| && list[i].key == KEY_STAKED :: list[i].value == "false"
  }

  /** The two clocks of a staked asset; the reward clock defaults to the freeze clock. */
  function ReadClocks(list: seq<Attribute>): Result<Clocks, StakingError> {
    if !Parses(list, KEY_STAKED_AT) || !Parses(list, KEY_LAST_CLAIM) then Err(InvalidTimestamp)
    else if LastValue(list, KEY_STAKED) != Some("true") then Err(AssetNotStaked)
    else
      var stakedAt := Number(list, KEY_STAKED_AT, 0);
      Ok(Clocks(stakedAt, Number(list, KEY_LAST_CLAIM, stakedAt)))
  }

  /** Whole days between two timestamps, rounded toward zero. */
  function WholeDays(since: i64, now: i64): Result<i64, StakingError> {
    var elapsed :- CheckedI64(now - since, InvalidTimestamp);
    Ok(TruncDiv(elapsed, SECONDS_PER_DAY))
  }

  function StakeList(fetched: Option<seq<Attribute>>, now: i64): Result<seq<Attribute>, StakingError> {
    if !MayStake(ListOf(fetched)) then Err(AlreadyStaked)
    else Ok(Layout(Without(ListOf(fetched), STAKING_KEYS), "true", ToText(now), ToText(now)))
  }

  /** The list after a claim and the days it pays; the list is left alone when no whole day is due. */
  function ClaimList(fetched: Option<seq<Attribute>>, now: i64): Result<(seq<Attribute>, i64), StakingError> {
    if fetched.None? then Err(AssetNotStaked)
    else
      var list := fetched.value;
      var clocks :- ReadClocks(list);
      var days :- WholeDays(clocks.lastClaim, now);
      if days == 0 then Ok((list, 0))
      else
        var advance :- CheckedI64(days * SECONDS_PER_DAY, ArithmeticOverflow);
        var lastClaim :- CheckedI64(clocks.lastClaim + advance, ArithmeticOverflow);
        Ok((Without(list, {KEY_LAST_CLAIM}) + [Attribute(KEY_LAST_CLAIM, ToText(lastClaim))], days))
  }

  /** The list after an unstake and the days it still pays. */
  function UnstakeList(fetched: Option<seq<Attribute>>, now: i64, freezePeriod: u16)
    : Result<(seq<Attribute>, i64), StakingError>
  {
    if fetched.None? then Err(AssetNotStaked)
    else
      var clocks :- ReadClocks(fetched.value);
      var stakedDays :- WholeDays(clocks.stakedAt, now);
      if stakedDays < freezePeriod then Err(FreezePeriodNotElapsed)
      else
        var days :- WholeDays(clocks.lastClaim, now);
        Ok((Layout(Without(fetched.value, STAKING_KEYS), "false", "0", "0"), days))
  }

  /** The collection list after the counters move by `delta`. */
  function CounterList(fetched: Option<seq<Attribute>>, delta: i64): Result<seq<Attribute>, StakingError> {
    var list := ListOf(fetched);
    var moved :- CheckedI64(Number(list, KEY_TOTAL_STAKED, 0) + delta, ArithmeticOverflow);
    var current := if moved < 0 then 0 else moved;
    var grown := Number(list, KEY_TOTAL_STAKED_LIFETIME, 0) + if delta > 0 then delta else 0;
    var lifetime :- CheckedI64(grown, ArithmeticOverflow);
    Ok(CounterLayout(Without(list, COUNTER_KEYS), ToText(current), ToText(lifetime)))
  }

  function RewardsOf(w: World, owner: Pubkey): nat {
    if owner in w.rewards then w.rewards[owner] else 0
  }

  /** Mints the reward of `days` days to `owner`; nothing is minted when the amount is zero. */
  function Pay(w: World, owner: Pubkey, days: i64, config: Config): Result<(World, Receipt), StakingError> {
    var amount :- RewardAmount(days, config.rewardsBps, config.decimals);
    if amount == 0 then Ok((w, Receipt(days, 0)))
    else
      var balance :- CheckedU64(RewardsOf(w, owner) + amount, SupplyOverflow);
      var supply :- CheckedU64(w.supply + amount, SupplyOverflow);
      Ok((w.(supply := supply, rewards := w.rewards[owner := balance]), Receipt(days, amount)))
  }

  /** The account constraints of stake, claim and unstake. */
  function CheckAccounts(w: World, signer: Pubkey, id: Pubkey): Result<Config, StakingError> {
    if w.config.None? || id !in w.assets then Err(AccountNotInitialized)
    else if w.assets[id].owner != signer then Err(InvalidOwner)
    else Ok(w.config.value)
  }

  function ApplyStake(w: World, id: Pubkey, now: i64): Result<(World, Receipt), StakingError>
    requires id in w.assets
  {
    var asset := w.assets[id];
    var list :- StakeList(asset.attributes, now);
    var counters :- CounterList(w.collection, 1);
    var staked := asset.(attributes := Some(list), frozen := Some(true));
    Ok((w.(assets := w.assets[id := staked], collection := Some(counters)), Receipt(0, 0)))
  }

  function ApplyClaim(w: World, id: Pubkey, now: i64, config: Config): Result<(World, Receipt), StakingError>
    requires id in w.assets
  {
    var asset := w.assets[id];
    var (list, days) :- ClaimList(asset.attributes, now);
    if days == 0 then Ok((w, Receipt(0, 0)))
    else Pay(w.(assets := w.assets[id := asset.(attributes := Some(list))]), asset.owner, days, config)
  }

  function ApplyUnstake(w: World, id: Pubkey, now: i64, config: Config): Result<(World, Receipt), StakingError>
    requires id in w.assets
  {
    var asset := w.assets[id];
    var (list, days) :- UnstakeList(asset.attributes, now, config.freezePeriod);
    if asset.frozen.None? then Err(PluginNotFound)
    else
      var counters :- CounterList(w.collection, -1);
      var thawed := asset.(attributes := Some(list), frozen := Some(false));
      Pay(w.(assets := w.assets[id := thawed], collection := Some(counters)), asset.owner, days, config)
  }

  /** One call: the new accounts and the receipt, or the error that leaves every account as it was. */
  function Apply(w: World, call: Call): Result<(World, Receipt), StakingError> {
    match call.op
    case Initialize(bps, freezePeriod) =>
      if w.config.Some? then Err(AccountInUse)
      else Ok((w.(config := Some(Config(bps, freezePeriod, 6))), Receipt(0, 0)))
    case MintAsset(id) =>
      if id in w.assets then Err(AccountInUse)
      else Ok((w.(assets := w.assets[id := Asset(call.signer, None, None)]), Receipt(0, 0)))
    case Stake(id) =>
      var _ :- CheckAccounts(w, call.signer, id);
      ApplyStake(w, id, call.now)
    case ClaimRewards(id) =>
      var config :- CheckAccounts(w, call.signer, id);
      ApplyClaim(w, id, call.now, config)
    case Unstake(id) =>
      var config :- CheckAccounts(w, call.signer, id);
      ApplyUnstake(w, id, call.now, config)
  }

  /** The accounts after a call, successful or not. */
  function Next(w: World, call: Call): World {
    match Apply(w, call)
    case Ok((next, _)) => next
    case Err(_) => w
  }
}
