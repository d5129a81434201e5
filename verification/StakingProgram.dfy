/**
 The staking instructions as they run: loops over attribute lists with accumulators, then one account
 write after another. A handler that fails may leave writes behind; the runtime discards them.
 */
module StakingProgram {
  import opened Rust
  import opened Decimal
  import opened Attributes
  import opened Rewards
  import opened StakingErrors
  import opened Staking

  /** What reading one more attribute adds to the carried-over list. */
  lemma KeepOneMore(list: seq<Attribute>, i: nat, keys: set<string>)
    requires i < |list|
    ensures Without(list[..i + 1], keys) == Without(list[..i], keys) + if list[i].key in keys then [] else [list[i]]
  {
    assert list[..i + 1] == list[..i] + [list[i]];
    PushFiltered(list[..i], list[i], keys);
  }

  /** What reading one more attribute adds to the knowledge about a key. */
  lemma ReadOneMore(list: seq<Attribute>, i: nat, key: string)
    requires i < |list|
    ensures LastValue(list[..i + 1], key) ==
            if list[i].key == key then Some(list[i].value) else LastValue(list[..i], key)
    ensures Parses(list[..i], key) && (list[i].key == key ==> ParseI64(list[i].value).Some?) ==>
              Parses(list[..i + 1], key)
    ensures list[i].key == key && ParseI64(list[i].value).None? ==> !Parses(list, key)
  {
    assert list[..i + 1] == list[..i] + [list[i]];
    PushRead(list[..i], list[i], key);
    assert forall j | 0 <= j < i :: list[..i + 1][j] == list[..i][j];
  }

  /** Stake's pass over the list: everything but the staking attributes, unless the asset is staked. */
  method StripForStake(list: seq<Attribute>) returns (r: Result<seq<Attribute>, StakingError>)
    ensures r == if MayStake(list) then Ok(Without(list, STAKING_KEYS)) else Err(AlreadyStaked)
  {
    var attributesList: seq<Attribute> := [];
    for i := 0 to |list|
      invariant attributesList == Without(list[..i], STAKING_KEYS)
      invariant forall j | 0 <= j < i && list[j].key == KEY_STAKED :: list[j].value == "false"
    {
      KeepOneMore(list, i, STAKING_KEYS);
      var attribute := list[i];
      if attribute.key == KEY_STAKED {
        if attribute.value != "false" {
          return Err(AlreadyStaked);
        }
      } else if attribute.key == KEY_STAKED_AT || attribute.key == KEY_LAST_CLAIM {
      } else {
        attributesList := attributesList + [attribute];
      }
    }
    assert list[..|list|] == list;
    return Ok(attributesList);
  }

  /** The accumulators of the claim and unstake loops. */
  datatype Scan = Scan(kept: seq<Attribute>, isStaked: bool, stakedAt: i64, lastClaim: Option<i64>)

  /** The accumulators after the loop: the attributes outside `dropped`, and what was read last under each key. */
  ghost predicate Scanned(list: seq<Attribute>, dropped: set<string>, scan: Scan) {
    && scan.kept == Without(list, dropped)
    && scan.isStaked == (LastValue(list, KEY_STAKED) == Some("true"))
    && Parses(list, KEY_STAKED_AT) && Parses(list, KEY_LAST_CLAIM)
    && scan.stakedAt == Number(list, KEY_STAKED_AT, 0)
    && match LastValue(list, KEY_LAST_CLAIM)
       case None => scan.lastClaim.None?
       case Some(text) => scan.lastClaim.Some? && scan.lastClaim == ParseI64(text)
  }

  /** Claim's pass over the list: only the reward clock is dropped, to be pushed again later. */
  method ScanForClaim(list: seq<Attribute>) returns (r: Result<Scan, StakingError>)
    ensures r.Ok? ==> Scanned(list, {KEY_LAST_CLAIM}, r.value)
    ensures r.Err? ==> ReadClocks(list) == Err(r.error)
  {
    var attributesList: seq<Attribute> := [];
    var isStaked := false;
    var stakedAt: i64 := 0;
    var lastClaim: Option<i64> := None;
    for i := 0 to |list|
      invariant Scanned(list[..i], {KEY_LAST_CLAIM}, Scan(attributesList, isStaked, stakedAt, lastClaim))
    {
      KeysDistinct();
      KeepOneMore(list, i, {KEY_LAST_CLAIM});
      ReadOneMore(list, i, KEY_STAKED);
      ReadOneMore(list, i, KEY_STAKED_AT);
      ReadOneMore(list, i, KEY_LAST_CLAIM);
      var attribute := list[i];
      if attribute.key == KEY_STAKED {
        isStaked := attribute.value == "true";
        attributesList := attributesList + [attribute];
      } else if attribute.key == KEY_STAKED_AT {
        var parsed := ParseI64(attribute.value);
        if parsed.None? {
          return Err(InvalidTimestamp);
        }
        stakedAt := parsed.value;
        attributesList := attributesList + [attribute];
      } else if attribute.key == KEY_LAST_CLAIM {
        lastClaim := ParseI64(attribute.value);
        if lastClaim.None? {
          return Err(InvalidTimestamp);
        }
      } else {
        attributesList := attributesList + [attribute];
      }
    }
    assert list[..|list|] == list;
    return Ok(Scan(attributesList, isStaked, stakedAt, lastClaim));
  }

  /** Unstake's pass over the list: all three staking attributes are dropped, to be pushed again reset. */
  method ScanForUnstake(list: seq<Attribute>) returns (r: Result<Scan, StakingError>)
    ensures r.Ok? ==> Scanned(list, STAKING_KEYS, r.value)
    ensures r.Err? ==> ReadClocks(list) == Err(r.error)
  {
    var attributesList: seq<Attribute> := [];
    var isStaked := false;
    var stakedAt: i64 := 0;
    var lastClaim: Option<i64> := None;
    for i := 0 to |list|
      invariant Scanned(list[..i], STAKING_KEYS, Scan(attributesList, isStaked, stakedAt, lastClaim))
    {
      KeysDistinct();
      KeepOneMore(list, i, STAKING_KEYS);
      ReadOneMore(list, i, KEY_STAKED);
      ReadOneMore(list, i, KEY_STAKED_AT);
      ReadOneMore(list, i, KEY_LAST_CLAIM);
      var attribute := list[i];
      if attribute.key == KEY_STAKED {
        isStaked := attribute.value == "true";
      } else if attribute.key == KEY_STAKED_AT {
        var parsed := ParseI64(attribute.value);
        if parsed.None? {
          return Err(InvalidTimestamp);
        }
        stakedAt := parsed.value;
      } else if attribute.key == KEY_LAST_CLAIM {
        lastClaim := ParseI64(attribute.value);
        if lastClaim.None? {
          return Err(InvalidTimestamp);
        }
      } else {
        attributesList := attributesList + [attribute];
      }
    }
    assert list[..|list|] == list;
    return Ok(Scan(attributesList, isStaked, stakedAt, lastClaim));
  }

  /** Claim up to its plugin write: the list to write and the days to pay, zero days for the early no-op. */
  method RebuildForClaim(fetched: Option<seq<Attribute>>, now: i64)
    returns (r: Result<(seq<Attribute>, i64), StakingError>)
    ensures r == ClaimList(fetched, now)
  {
    if fetched.None? {
      return Err(AssetNotStaked);
    }
    var scan :- ScanForClaim(fetched.value);
    var Scan(attributesList, isStaked, stakedAt, lastClaim) := scan;
    if !isStaked {
      return Err(AssetNotStaked);
    }
    var since := if lastClaim.Some? then lastClaim.value else stakedAt;
    assert ReadClocks(fetched.value) == Ok(Clocks(stakedAt, since));
    if !FitsI64(now - since) {
      return Err(InvalidTimestamp);
    }
    var rewardDays := TruncDiv(now - since, SECONDS_PER_DAY);
    if rewardDays == 0 {
      return Ok((fetched.value, 0));
    }
    if !FitsI64(rewardDays * SECONDS_PER_DAY) || !FitsI64(since + rewardDays * SECONDS_PER_DAY) {
      return Err(ArithmeticOverflow);
    }
    attributesList := attributesList + [Attribute(KEY_LAST_CLAIM, ToText(since + rewardDays * SECONDS_PER_DAY))];
    return Ok((attributesList, rewardDays));
  }

  /** Unstake up to its plugin writes: the list to write and the days to pay. */
  method RebuildForUnstake(fetched: Option<seq<Attribute>>, now: i64, freezePeriod: u16)
    returns (r: Result<(seq<Attribute>, i64), StakingError>)
    ensures r == UnstakeList(fetched, now, freezePeriod)
  {
    if fetched.None? {
      return Err(AssetNotStaked);
    }
    var scan :- ScanForUnstake(fetched.value);
    var Scan(attributesList, isStaked, stakedAt, lastClaim) := scan;
    if !isStaked {
      return Err(AssetNotStaked);
    }
    var since := if lastClaim.Some? then lastClaim.value else stakedAt;
    assert ReadClocks(fetched.value) == Ok(Clocks(stakedAt, since));
    if !FitsI64(now - stakedAt) {
      return Err(InvalidTimestamp);
    }
    if TruncDiv(now - stakedAt, SECONDS_PER_DAY) < freezePeriod {
      return Err(FreezePeriodNotElapsed);
    }
    if !FitsI64(now - since) {
      return Err(InvalidTimestamp);
    }
    var rewardDays := TruncDiv(now - since, SECONDS_PER_DAY);
    attributesList := attributesList + [
      Attribute(KEY_STAKED, "false"), Attribute(KEY_STAKED_AT, "0"), Attribute(KEY_LAST_CLAIM, "0")];
    return Ok((attributesList, rewardDays));
  }

  /** The counter update's pass over the collection list; an unreadable counter counts as zero. */
  method ScanCounters(list: seq<Attribute>) returns (kept: seq<Attribute>, totalStaked: i64, totalStakedLifetime: i64)
    ensures kept == Without(list, COUNTER_KEYS)
    ensures totalStaked == Number(list, KEY_TOTAL_STAKED, 0)
    ensures totalStakedLifetime == Number(list, KEY_TOTAL_STAKED_LIFETIME, 0)
  {
    kept, totalStaked, totalStakedLifetime := [], 0, 0;
    for i := 0 to |list|
      invariant kept == Without(list[..i], COUNTER_KEYS)
      invariant totalStaked == Number(list[..i], KEY_TOTAL_STAKED, 0)
      invariant totalStakedLifetime == Number(list[..i], KEY_TOTAL_STAKED_LIFETIME, 0)
    {
      KeysDistinct();
      KeepOneMore(list, i, COUNTER_KEYS);
      ReadOneMore(list, i, KEY_TOTAL_STAKED);
      ReadOneMore(list, i, KEY_TOTAL_STAKED_LIFETIME);
      var attribute := list[i];
      if attribute.key == KEY_TOTAL_STAKED {
        var parsed := ParseI64(attribute.value);
        totalStaked := if parsed.Some? then parsed.value else 0;
      } else if attribute.key == KEY_TOTAL_STAKED_LIFETIME {
        var parsed := ParseI64(attribute.value);
        totalStakedLifetime := if parsed.Some? then parsed.value else 0;
      } else {
        kept := kept + [attribute];
      }
    }
    assert list[..|list|] == list;
  }

  class Program {
    var config: Option<Config>
    var assets: map<Pubkey, Asset>
    var collection: Option<seq<Attribute>>
    var supply: u64
    var rewards: map<Pubkey, nat>

    ghost function Accounts(): World
      reads this
    {
      World(config, assets, collection, supply, rewards)
    }

    constructor ()
      ensures Accounts() == GENESIS
    {
      config, assets, collection, supply, rewards := None, map[], None, 0, map[];
    }

    method UpdateCollectionStakedCount(delta: i64) returns (r: Result<(), StakingError>)
      modifies this`collection
      ensures match CounterList(old(collection), delta)
              case Ok(list) => r == Ok(()) && collection == Some(list)
              case Err(e) => r == Err(e) && collection == old(collection)
    {
      var attributesList, totalStaked: int, totalStakedLifetime: int := [], 0, 0;
      if collection.Some? {
        attributesList, totalStaked, totalStakedLifetime := ScanCounters(collection.value);
      }
      totalStaked := totalStaked + delta;
      if !FitsI64(totalStaked) {
        return Err(ArithmeticOverflow);
      }
      if totalStaked < 0 {
        totalStaked := 0;
      }
      if delta > 0 {
        totalStakedLifetime := totalStakedLifetime + delta;
        if !FitsI64(totalStakedLifetime) {
          return Err(ArithmeticOverflow);
        }
      }
      attributesList := attributesList + [
        Attribute(KEY_TOTAL_STAKED, ToText(totalStaked)),
        Attribute(KEY_TOTAL_STAKED_LIFETIME, ToText(totalStakedLifetime))];
      collection := Some(attributesList);
      return Ok(());
    }

    method MintTo(owner: Pubkey, days: i64) returns (r: Result<Receipt, StakingError>)
      requires config.Some?
      modifies this`supply, this`rewards
      ensures match Pay(old(Accounts()), owner, days, config.value)
              case Ok((w, receipt)) => r == Ok(receipt) && Accounts() == w
              case Err(e) => r == Err(e)
    {
      var amount: int := AsU64(days) * config.value.rewardsBps;
      if !FitsU64(amount) {
        return Err(InvalidRewardsBps);
      }
      if !FitsU64(Pow10(config.value.decimals)) {
        return Err(Panicked);
      }
      amount := amount * Pow10(config.value.decimals);
      if !FitsU64(amount) {
        return Err(InvalidRewardsBps);
      }
      amount := amount / 10000;
      if amount > 0 {
        var balance := if owner in rewards then rewards[owner] else 0;
        if !FitsU64(balance + amount) || !FitsU64(supply + amount) {
          return Err(SupplyOverflow);
        }
        rewards := rewards[owner := balance + amount];
        supply := supply + amount;
      }
      return Ok(Receipt(days, amount));
    }

    method Stake(id: Pubkey, now: i64) returns (r: Result<Receipt, StakingError>)
      requires id in assets
      modifies this`assets, this`collection
      ensures match ApplyStake(old(Accounts()), id, now)
              case Ok((w, receipt)) => r == Ok(receipt) && Accounts() == w
              case Err(e) => r == Err(e)
    {
      var attributesList: seq<Attribute> := [];
      if assets[id].attributes.Some? {
        attributesList :- StripForStake(assets[id].attributes.value);
      }
      attributesList := attributesList + [
        Attribute(KEY_STAKED, "true"), Attribute(KEY_STAKED_AT, ToText(now)), Attribute(KEY_LAST_CLAIM, ToText(now))];
      assert StakeList(assets[id].attributes, now) == Ok(attributesList);
      ghost var staked := assets[id].(attributes := Some(attributesList), frozen := Some(true));
      // add or update the Attributes plugin, then add or update the FreezeDelegate plugin
      assets := assets[id := assets[id].(attributes := Some(attributesList))];
      assets := assets[id := assets[id].(frozen := Some(true))];
      assert assets == old(assets)[id := staked];
      var _ :- UpdateCollectionStakedCount(1);
      return Ok(Receipt(0, 0));
    }

    method ClaimRewards(id: Pubkey, now: i64) returns (r: Result<Receipt, StakingError>)
      requires id in assets && config.Some?
      modifies this`assets, this`supply, this`rewards
      ensures match ApplyClaim(old(Accounts()), id, now, config.value)
              case Ok((w, receipt)) => r == Ok(receipt) && Accounts() == w
              case Err(e) => r == Err(e)
    {
      hide ClaimList, Pay;
      var rebuilt :- RebuildForClaim(assets[id].attributes, now);
      var (attributesList, rewardDays) := rebuilt;
      if rewardDays == 0 {
        return Ok(Receipt(0, 0));
      }
      assets := assets[id := assets[id].(attributes := Some(attributesList))];
      r := MintTo(assets[id].owner, rewardDays);
    }

    method Unstake(id: Pubkey, now: i64) returns (r: Result<Receipt, StakingError>)
      requires id in assets && config.Some?
      modifies this`assets, this`collection, this`supply, this`rewards
      ensures match ApplyUnstake(old(Accounts()), id, now, config.value)
              case Ok((w, receipt)) => r == Ok(receipt) && Accounts() == w
              case Err(e) => r == Err(e)
    {
      hide UnstakeList, CounterList, Pay;
      var rebuilt :- RebuildForUnstake(assets[id].attributes, now, config.value.freezePeriod);
      var (attributesList, rewardDays) := rebuilt;
      ghost var thawed := assets[id].(attributes := Some(attributesList), frozen := Some(false));
      assets := assets[id := assets[id].(attributes := Some(attributesList))];
      if assets[id].frozen.None? {
        return Err(PluginNotFound);
      }
      assets := assets[id := assets[id].(frozen := Some(false))];
      assert assets == old(assets)[id := thawed];
      var _ :- UpdateCollectionStakedCount(-1);
      r := MintTo(assets[id].owner, rewardDays);
    }

    /** One transaction: the account constraints, the handler, and on failure the rollback. */
    method Execute(call: Call) returns (r: Result<Receipt, StakingError>)
      modifies this
      ensures match Apply(old(Accounts()), call)
              case Ok((w, receipt)) => r == Ok(receipt)
              case Err(e) => r == Err(e)
      ensures Accounts() == Next(old(Accounts()), call)
    {
      if call.op.Initialize? {
        if config.Some? {
          return Err(AccountInUse);
        }
        config := Some(Config(call.op.rewardsBps, call.op.freezePeriod, 6));
        return Ok(Receipt(0, 0));
      }
      var id := call.op.id;
      if call.op.MintAsset? {
        if id in assets {
          return Err(AccountInUse);
        }
        assets := assets[id := Asset(call.signer, None, None)];
        return Ok(Receipt(0, 0));
      }
      if config.None? || id !in assets {
        return Err(AccountNotInitialized);
      }
      if assets[id].owner != call.signer {
        return Err(InvalidOwner);
      }
      var saved := (assets, collection, supply, rewards);
      match call.op {
        case Stake(_) => r := Stake(id, call.now);
        case ClaimRewards(_) => r := ClaimRewards(id, call.now);
        case Unstake(_) => r := Unstake(id, call.now);
      }
      if r.Err? {
        assets, collection, supply, rewards := saved.0, saved.1, saved.2, saved.3;
      }
    }
  }
}
