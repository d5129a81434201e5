/**
 Every outcome of the staking instructions, errors included. The first part is about arbitrary attribute
 lists: repeated keys, unreadable texts, lists written before the reward clock existed. The second part is
 about the accounts that calls can lead to, in terms of the open session.
 */
module StakingOutcomes {
  import opened Rust
  import opened Decimal
  import opened Attributes
  import opened Rewards
  import opened StakingErrors
  import opened Staking
  import opened Sessions
  import opened StakingRefinement
  import opened Sums

  // ---------------------------------------------------------------- any list

  /** Every clock in the list is the text of an i64. */
  predicate ReadableClocks(list: seq<Attribute>) {
    forall i | 0 <= i < |list| && list[i].key in {"staked_at", "last_claim"} :: ParseI64(list[i].value).Some?
  }

  predicate SaysStaked(list: seq<Attribute>) {
    LastValue(list, "staked") == Some("true")
  }

  /** The freeze clock as last written, zero if it was never. */
  function FreezeSince(list: seq<Attribute>): int {
    var text := LastValue(list, "staked_at");
    if text.Some? && ParseI64(text.value).Some? then ParseI64(text.value).value else 0
  }

  /** The reward clock as last written; the freeze clock, if the list is older than reward clocks. */
  function RewardSince(list: seq<Attribute>): int {
    var text := LastValue(list, "last_claim");
    if text.Some? && ParseI64(text.value).Some? then ParseI64(text.value).value else FreezeSince(list)
  }

  lemma ReadsClocks(list: seq<Attribute>)
    ensures ReadClocks(list) ==
            if !ReadableClocks(list) then Err(InvalidTimestamp)
            else if !SaysStaked(list) then Err(AssetNotStaked)
            else Ok(Clocks(FreezeSince(list), RewardSince(list)))
  {
    hide LastValue, ParseI64;
  }

  /** Stake refuses exactly a list with a `staked` entry other than "false"; otherwise it drops the staking
      entries and writes three new ones. */
  lemma StakeOutcome(fetched: Option<seq<Attribute>>, now: i64)
    ensures var r, list := StakeList(fetched, now), ListOf(fetched);
            && (r == Err(AlreadyStaked) <==>
                  exists i :: 0 <= i < |list| && list[i].key == "staked" && list[i].value != "false")
            && (r.Err? ==> r == Err(AlreadyStaked))
            && (r.Ok? ==>
                  r.value == Without(list, {"staked", "staked_at", "last_claim"})
                  + [Attribute("staked", "true"), Attribute("staked_at", ToText(now)),
                     Attribute("last_claim", ToText(now))])
  {
    hide Without, ToText;
  }

  lemma QuotientMeaning(x: int)
    ensures x >= 0 ==> 0 <= x - 86400 * TruncDiv(x, 86400) < 86400 && TruncDiv(x, 86400) >= 0
    ensures x < 0 ==> -86400 < x - 86400 * TruncDiv(x, 86400) <= 0 && TruncDiv(x, 86400) <= 0
  {
    TruncDivMeaning(x, 86400);
  }

  /**
   Claim on any list. It fails exactly without a list, on an unreadable clock, on an asset not staked, or if the
   time since the reward clock is no i64, and never for overflow. Otherwise the reward clock moves by whole days
   to less than a day from now, and nothing is written when that is no day at all.
   */
  lemma ClaimOutcome(fetched: Option<seq<Attribute>>, now: i64)
    ensures var r, list := ClaimList(fetched, now), ListOf(fetched);
            && (r == Err(AssetNotStaked) <==> fetched.None? || (ReadableClocks(list) && !SaysStaked(list)))
            && (r == Err(InvalidTimestamp) <==>
                  fetched.Some? && (!ReadableClocks(list) || (SaysStaked(list) && !FitsI64(now - RewardSince(list)))))
            && (r.Err? ==> r.error in {AssetNotStaked, InvalidTimestamp})
            && (r.Ok? ==>
                  var (after, days) := r.value;
                  var clock := RewardSince(list) + 86400 * days;
                  && (now >= RewardSince(list) ==> days >= 0 && clock <= now < clock + 86400)
                  && (now < RewardSince(list) ==> days <= 0 && now <= clock < now + 86400)
                  && after == if days == 0 then list
                              else Without(list, {"last_claim"}) + [Attribute("last_claim", ToText(clock))])
  {
    if fetched.Some? {
      var list := fetched.value;
      ReadsClocks(list);
      hide ReadClocks, Without, ToText, ReadableClocks, RewardSince, FreezeSince;
      QuotientMeaning(now - RewardSince(list));
    }
  }

  /** A list from before the reward clock existed is paid from the freeze clock, and gets a reward clock. */
  lemma LegacyClaim(list: seq<Attribute>, now: i64)
    requires ClaimList(Some(list), now).Ok? && forall i | 0 <= i < |list| :: list[i].key != "last_claim"
    requires FreezeSince(list) <= now
    ensures var (after, days) := ClaimList(Some(list), now).value;
            && days == (now - FreezeSince(list)) / 86400
            && (days > 0 ==> after == list + [Attribute("last_claim", ToText(FreezeSince(list) + 86400 * days))])
  {
    ClaimOutcome(Some(list), now);
    LastValueMeaning(list, "last_claim");
    NothingDropped(list, "last_claim");
    assert RewardSince(list) == FreezeSince(list);
    hide ClaimList, LastValue, FreezeSince, RewardSince, ReadableClocks, SaysStaked, ToText, Without;
  }

  lemma {:induction false} NothingDropped(list: seq<Attribute>, key: string)
    requires forall i | 0 <= i < |list| :: list[i].key != key
    ensures Without(list, {key}) == list
    decreases |list|
  {
    if list != [] {
      NothingDropped(list[..|list| - 1], key);
    }
  }

  /** Less than `freezePeriod` days, rounded toward zero, between the freeze clock and now. */
  predicate TooEarly(since: int, now: int, freezePeriod: u16) {
    now - since < 86400 * freezePeriod && (freezePeriod == 0 ==> now - since <= -86400)
  }

  /** Unstake on any list: every error with its condition, and the list written. */
  lemma UnstakeOutcome(fetched: Option<seq<Attribute>>, now: i64, freezePeriod: u16)
    ensures var r, list := UnstakeList(fetched, now, freezePeriod), ListOf(fetched);
            var readable, staked := ReadableClocks(list), SaysStaked(list);
            var early := TooEarly(FreezeSince(list), now, freezePeriod);
            && (r == Err(AssetNotStaked) <==> fetched.None? || (readable && !staked))
            && (r == Err(FreezePeriodNotElapsed) <==>
                  fetched.Some? && readable && staked && FitsI64(now - FreezeSince(list)) && early)
            && (r == Err(InvalidTimestamp) <==>
                  && fetched.Some?
                  && (!readable
                      || (staked && !FitsI64(now - FreezeSince(list)))
                      || (staked && !early && !FitsI64(now - RewardSince(list)))))
            && (r.Err? ==> r.error in {AssetNotStaked, FreezePeriodNotElapsed, InvalidTimestamp})
            && (r.Ok? ==>
                  var (after, days) := r.value;
                  var clock := RewardSince(list) + 86400 * days;
                  && (now >= RewardSince(list) ==> days >= 0 && clock <= now < clock + 86400)
                  && (now < RewardSince(list) ==> days <= 0 && now <= clock < now + 86400)
                  && after == Without(list, {"staked", "staked_at", "last_claim"})
                     + [Attribute("staked", "false"), Attribute("staked_at", "0"), Attribute("last_claim", "0")])
  {
    if fetched.Some? {
      var list := fetched.value;
      ReadsClocks(list);
      hide ReadClocks, Without, ReadableClocks, RewardSince, FreezeSince;
      QuotientMeaning(now - FreezeSince(list));
      QuotientMeaning(now - RewardSince(list));
    }
  }

  /** What a counter stands for: the number last written under its key; nothing or no number counts as zero. */
  function CounterIn(list: seq<Attribute>, key: string): int {
    var text := LastValue(list, key);
    if text.Some? && ParseI64(text.value).Some? then ParseI64(text.value).value else 0
  }

  /** The counters on any collection list: the staked one clamped at zero, the lifetime one only growing. */
  lemma CounterOutcome(fetched: Option<seq<Attribute>>, delta: i64)
    requires delta == 1 || delta == -1
    ensures var r, list := CounterList(fetched, delta), ListOf(fetched);
            var staked, lifetime := CounterIn(list, "total_staked"), CounterIn(list, "total_staked_lifetime");
            && (r == Err(ArithmeticOverflow) <==>
                  (delta == 1 && (staked == I64_MAX || lifetime == I64_MAX)) || (delta == -1 && staked == I64_MIN))
            && (r.Err? ==> r == Err(ArithmeticOverflow))
            && (r.Ok? ==>
                  r.value == Without(list, {"total_staked", "total_staked_lifetime"})
                  + [Attribute("total_staked", ToText(if staked + delta < 0 then 0 else staked + delta)),
                     Attribute("total_staked_lifetime", ToText(if delta == 1 then lifetime + 1 else lifetime))])
  {
    hide Without, ToText, ParseI64, LastValue;
  }

  // ---------------------------------------------------------------- reachable accounts

  /** The account constraints of stake, claim and unstake hold. */
  predicate Admitted(w: World, signer: Pubkey, id: Pubkey) {
    w.config.Some? && id in w.assets && w.assets[id].owner == signer
  }

  /** A missing configuration or asset, and then a signer who does not own the asset, refuse any handler; no
      other failure looks like these two. */
  lemma ConstraintOutcome(w: World, call: Call)
    requires call.op.Stake? || call.op.ClaimRewards? || call.op.Unstake?
    ensures w.config.None? || call.op.id !in w.assets <==> Apply(w, call) == Err(AccountNotInitialized)
    ensures w.config.Some? && call.op.id in w.assets && w.assets[call.op.id].owner != call.signer <==>
            Apply(w, call) == Err(InvalidOwner)
  {
    if Admitted(w, call.signer, call.op.id) {
      HandlerErrors(w, call);
    }
    hide StakeList, ClaimList, UnstakeList, CounterList, Pay;
  }

  /** No list, counter or payment fails like an account constraint. */
  lemma NoConstraintError(fetched: Option<seq<Attribute>>, now: i64, freezePeriod: u16)
    ensures var constraints: set<StakingError> := {AccountNotInitialized, InvalidOwner};
            && (StakeList(fetched, now).Err? ==> StakeList(fetched, now).error !in constraints)
            && (ClaimList(fetched, now).Err? ==> ClaimList(fetched, now).error !in constraints)
            && (UnstakeList(fetched, now, freezePeriod).Err? ==>
                  UnstakeList(fetched, now, freezePeriod).error !in constraints)
  {
    StakeOutcome(fetched, now);
    ClaimOutcome(fetched, now);
    UnstakeOutcome(fetched, now, freezePeriod);
    hide StakeList, ClaimList, UnstakeList;
  }

  lemma NoPaymentError(w: World, owner: Pubkey, days: i64, config: Config)
    ensures var r := Pay(w, owner, days, config);
            r != Err(AccountNotInitialized) && r != Err(InvalidOwner)
  {
    hide Pow10, AsU64;
  }

  lemma HandlerErrors(w: World, call: Call)
    requires call.op.Stake? || call.op.ClaimRewards? || call.op.Unstake?
    requires Admitted(w, call.signer, call.op.id)
    ensures Apply(w, call) != Err(AccountNotInitialized) && Apply(w, call) != Err(InvalidOwner)
  {
    hide CounterList, StakeList, ClaimList, UnstakeList, Pay;
    var asset, config := w.assets[call.op.id], w.config.value;
    NoConstraintError(asset.attributes, call.now, config.freezePeriod);
    CounterErrors(w.collection);
    match call.op {
      case Stake(_) =>
      case ClaimRewards(id) =>
        var r := ClaimList(asset.attributes, call.now);
        if r.Ok? {
          var claimed := asset.(attributes := Some(r.value.0));
          NoPaymentError(w.(assets := w.assets[id := claimed]), asset.owner, r.value.1, config);
        }
      case Unstake(id) =>
        var r, counters := UnstakeList(asset.attributes, call.now, config.freezePeriod), CounterList(w.collection, -1);
        if r.Ok? && counters.Ok? {
          var thawed := asset.(attributes := Some(r.value.0), frozen := Some(false));
          var counted := w.(assets := w.assets[id := thawed], collection := Some(counters.value));
          NoPaymentError(counted, asset.owner, r.value.1, config);
        }
    }
  }

  lemma CounterErrors(fetched: Option<seq<Attribute>>)
    ensures CounterList(fetched, 1).Err? ==> CounterList(fetched, 1) == Err(ArithmeticOverflow)
    ensures CounterList(fetched, -1).Err? ==> CounterList(fetched, -1) == Err(ArithmeticOverflow)
  {
    CounterOutcome(fetched, 1);
    CounterOutcome(fetched, -1);
    hide CounterList;
  }

  /** A second initialize of the collection, and minting an asset twice, are refused. */
  lemma CreationOutcome(w: World, call: Call)
    requires call.op.Initialize? || call.op.MintAsset?
    ensures Apply(w, call) == Err(AccountInUse) <==>
            (call.op.Initialize? && w.config.Some?) || (call.op.MintAsset? && call.op.id in w.assets)
    ensures Apply(w, call).Err? ==> Apply(w, call) == Err(AccountInUse)
  {
  }

  /** Stake by the owner fails exactly for an open session or a lifetime counter at its end. */
  lemma StakeRefusals(w: World, before: int, call: Call)
    requires Invariant(w, before) && before <= call.now && call.op.Stake?
    requires Admitted(w, call.signer, call.op.id)
    ensures var r, staked := Apply(w, call), StatusOf(w.assets[call.op.id]).Staked?;
            && (r == Err(AlreadyStaked) <==> staked)
            && (r == Err(ArithmeticOverflow) <==> !staked && LedgerOf(w).lifetime == I64_MAX)
            && (r.Err? ==> r.error in {AlreadyStaked, ArithmeticOverflow})
  {
    hide StakeList, CounterList, WellKept, WellCounted, StatusOf, Number, ToText, Without, LastValue;
    var asset := w.assets[call.op.id];
    StakeRefines(asset, before, call.now);
    StakeOutcome(asset.attributes, call.now);
    CounterRefines(w.collection, 1);
    CounterOutcome(w.collection, 1);
    hide CounterIn;
  }

  /** With 6 decimals a payment fails exactly if the formula or the supply overflows. */
  lemma PayRefusals(w: World, owner: Pubkey, days: i64, config: Config)
    requires Sum(w.rewards) == w.supply && config.decimals == 6 && days >= 0
    ensures var r, amount := Pay(w, owner, days, config), days * (100 * config.rewardsBps);
            && (r == Err(InvalidRewardsBps) <==> days * config.rewardsBps * 1_000_000 > U64_MAX)
            && (r == Err(SupplyOverflow) <==>
                  days * config.rewardsBps * 1_000_000 <= U64_MAX && w.supply + amount > U64_MAX)
            && (r.Err? ==> r.error in {InvalidRewardsBps, SupplyOverflow})
  {
    SixDecimals(days, config.rewardsBps);
    PayRefines(w, owner, days, config);
    hide RewardAmount;
  }

  lemma ListErrors(asset: Asset, before: int, now: i64, freezePeriod: u16)
    requires WellKept(asset, before) && before <= now
    ensures var status := StatusOf(asset);
            && (!status.Staked? ==>
                  && ClaimList(asset.attributes, now) == Err(AssetNotStaked)
                  && UnstakeList(asset.attributes, now, freezePeriod) == Err(AssetNotStaked))
            && (status.Staked? ==>
                  && status.stakedAt + status.daysPaid * 86400 <= now
                  && (!FitsI64(now - (status.stakedAt + status.daysPaid * 86400)) ==>
                        ClaimList(asset.attributes, now) == Err(InvalidTimestamp))
                  && (!FitsI64(now - status.stakedAt) ==>
                        UnstakeList(asset.attributes, now, freezePeriod) == Err(InvalidTimestamp))
                  && (FitsI64(now - status.stakedAt) && now < status.stakedAt + 86400 * freezePeriod ==>
                        UnstakeList(asset.attributes, now, freezePeriod) == Err(FreezePeriodNotElapsed)))
  {
    if asset.attributes.Some? {
      WellKeptReads(asset, before);
      hide WellKept, ReadClocks, Without, StatusOf;
      if StatusOf(asset).Staked? {
        QuotientMeaning(now - StatusOf(asset).stakedAt);
      }
    }
  }

  /** Claim by the owner, in terms of the open session: every error with its condition. */
  lemma ClaimRefusals(w: World, before: int, call: Call)
    requires Invariant(w, before) && before <= call.now && call.op.ClaimRewards?
    requires Admitted(w, call.signer, call.op.id)
    ensures var r, status, bps := Apply(w, call), StatusOf(w.assets[call.op.id]), w.config.value.rewardsBps;
            && (r == Err(AssetNotStaked) <==> !status.Staked?)
            && (status.Staked? ==>
                  var fits := call.now - (status.stakedAt + 86400 * status.daysPaid) <= I64_MAX;
                  var due := (call.now - status.stakedAt) / 86400 - status.daysPaid;
                  && (r == Err(InvalidTimestamp) <==> !fits)
                  && (r == Err(InvalidRewardsBps) <==> fits && due * bps * 1_000_000 > U64_MAX)
                  && (r == Err(SupplyOverflow) <==>
                        fits && due * bps * 1_000_000 <= U64_MAX && w.supply + due * (100 * bps) > U64_MAX))
            && (r.Err? ==> r.error in {AssetNotStaked, InvalidTimestamp, InvalidRewardsBps, SupplyOverflow})
  {
    hide ClaimList, UnstakeList, WellKept, WellCounted, StatusOf, Number, Pay;
    var id, config := call.op.id, w.config.value;
    var asset := w.assets[id];
    ClaimRefines(asset, before, call.now);
    ListErrors(asset, before, call.now, config.freezePeriod);
    var r := ClaimList(asset.attributes, call.now);
    if r.Ok? {
      var claimed := w.(assets := w.assets[id := asset.(attributes := Some(r.value.0))]);
      PayRefusals(claimed, asset.owner, r.value.1, config);
    }
  }

  /** Unstake by the owner, in terms of the open session: every error with its condition. */
  lemma UnstakeRefusals(w: World, before: int, call: Call)
    requires Invariant(w, before) && before <= call.now && call.op.Unstake?
    requires Admitted(w, call.signer, call.op.id)
    ensures var r, status, config := Apply(w, call), StatusOf(w.assets[call.op.id]), w.config.value;
            && (r == Err(AssetNotStaked) <==> !status.Staked?)
            && (status.Staked? ==>
                  var fits, bps := call.now - status.stakedAt <= I64_MAX, config.rewardsBps;
                  var ripe := call.now >= status.stakedAt + 86400 * config.freezePeriod;
                  var due := (call.now - status.stakedAt) / 86400 - status.daysPaid;
                  && (r == Err(InvalidTimestamp) <==> !fits)
                  && (r == Err(FreezePeriodNotElapsed) <==> fits && !ripe)
                  && (r == Err(InvalidRewardsBps) <==> fits && ripe && due * bps * 1_000_000 > U64_MAX)
                  && (r == Err(SupplyOverflow) <==>
                        fits && ripe && due * bps * 1_000_000 <= U64_MAX && w.supply + due * (100 * bps) > U64_MAX))
            && (r.Err? ==>
                  r.error in
                  {AssetNotStaked, InvalidTimestamp, FreezePeriodNotElapsed, InvalidRewardsBps, SupplyOverflow})
  {
    hide ClaimList, UnstakeList, CounterList, WellKept, WellCounted, StatusOf, Number, Pay;
    var id, config := call.op.id, w.config.value;
    var asset := w.assets[id];
    UnstakeRefines(asset, before, call.now, config.freezePeriod);
    ListErrors(asset, before, call.now, config.freezePeriod);
    var r := UnstakeList(asset.attributes, call.now, config.freezePeriod);
    if r.Ok? {
      InvariantClocked(w, before, call.now);
      assert id in StakedIds(LedgerOf(w));
      CounterRefines(w.collection, -1);
      var thawed := asset.(attributes := Some(r.value.0), frozen := Some(false));
      var counted := w.(assets := w.assets[id := thawed], collection := Some(CounterList(w.collection, -1).value));
      PayRefusals(counted, asset.owner, r.value.1, config);
    }
  }

  /** An asset that never got the freeze plugin cannot be unstaked. */
  lemma NoFreezePlugin(w: World, call: Call)
    requires call.op.Unstake? && Admitted(w, call.signer, call.op.id)
    requires w.assets[call.op.id].frozen.None?
    requires UnstakeList(w.assets[call.op.id].attributes, call.now, w.config.value.freezePeriod).Ok?
    ensures Apply(w, call) == Err(PluginNotFound)
  {
    hide UnstakeList, CounterList, Pay;
  }
}
