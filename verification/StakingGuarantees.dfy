/**
 Guarantees of the staking program along runs: the collection counters, one session from stake to unstake,
 the freeze period, frozen flags and plugins, and what happens to the attributes of others.
 */
module StakingGuarantees {
  import opened Rust
  import opened Decimal
  import opened Attributes
  import opened Rewards
  import opened Staking
  import opened Sessions
  import opened StakingRefinement
  import opened StakingRuns

  // ---------------------------------------------------------------- collection counters

  predicate IsStaked(asset: Asset) {
    asset.attributes.Some? && LastValue(asset.attributes.value, KEY_STAKED) == Some("true")
  }

  function StakedAssets(w: World): set<Pubkey> {
    set id | id in w.assets && IsStaked(w.assets[id])
  }

  lemma CountStep(a: Ledger, call: Call)
    requires Enabled(a, call) && Clocked(a, call.now)
    ensures var b := After(a, call);
            && b.lifetime == a.lifetime + (if call.op.Stake? then 1 else 0)
            && b.staked == a.staked + (if call.op.Stake? then 1 else 0) - (if call.op.Unstake? then 1 else 0)
  {
  }

  lemma {:induction false} CountsAgree(start: int, calls: seq<Call>)
    requires Chronological(start, calls)
    ensures var a, log := LedgerOf(Run(GENESIS, calls)), Log(GENESIS, calls);
            a.lifetime == AllStakes(log) && a.staked == AllStakes(log) - AllUnstakes(log)
    decreases |calls|
  {
    GenesisInvariant(start);
    if calls != [] {
      var front, call := calls[..|calls| - 1], calls[|calls| - 1];
      LastCall(GENESIS, start, calls);
      CountsAgree(start, front);
      LastEvent(GENESIS, calls);
      var a, r := LedgerOf(Run(GENESIS, front)), Apply(Run(GENESIS, front), call);
      hide Invariant, LedgerOf, Apply, Next, Run, Enabled, Clocked, After;
      if r.Ok? {
        CountStep(a, call);
        PushEvent(Log(GENESIS, front), Event(call, r.value.1), call.signer);
      }
    }
  }

  lemma StakedAssetsMeaning(w: World)
    ensures StakedIds(LedgerOf(w)) == StakedAssets(w)
  {
    hide Number, LastValue;
  }

  /**
   In every reachable state `total_staked` is the number of staked assets and the successful stakes minus the
   successful unstakes, and `total_staked_lifetime` is the number of successful stakes.
   */
  lemma CountersCount(start: int, calls: seq<Call>)
    requires Chronological(start, calls)
    ensures var w, log := Run(GENESIS, calls), Log(GENESIS, calls);
            && Number(ListOf(w.collection), KEY_TOTAL_STAKED, 0) == |StakedAssets(w)|
            && |StakedAssets(w)| == AllStakes(log) - AllUnstakes(log)
            && Number(ListOf(w.collection), KEY_TOTAL_STAKED_LIFETIME, 0) == AllStakes(log)
  {
    var w := Run(GENESIS, calls);
    CountsAgree(start, calls);
    GenesisInvariant(start);
    RunKeepsInvariant(GENESIS, start, calls);
    StakedAssetsMeaning(w);
    hide Run, Log, WellKept, WellCounted, StakedAssets, StakedIds, AllStakes, AllUnstakes;
  }

  /**
   The clamp at zero and the fallback for unreadable counters never act: on every state with the invariant
   both counters are readable, and a successful unstake lowers a counter that is at least one.
   */
  lemma ClampNeverActs(w: World, before: int, call: Call)
    requires Invariant(w, before) && before <= call.now && Apply(w, call).Ok?
    ensures var list, after := ListOf(w.collection), ListOf(Next(w, call).collection);
            && Parses(list, KEY_TOTAL_STAKED) && Parses(list, KEY_TOTAL_STAKED_LIFETIME)
            && (call.op.Unstake? ==> Number(list, KEY_TOTAL_STAKED, 0) >= 1)
            && Number(after, KEY_TOTAL_STAKED, 0) ==
               Number(list, KEY_TOTAL_STAKED, 0)
               + (if call.op.Stake? then 1 else 0) - (if call.op.Unstake? then 1 else 0)
  {
    ReadableCounters(w.collection);
    Simulates(w, before, call);
    CountStep(LedgerOf(w), call);
    hide WellKept, WellCounted, Apply, Enabled, Clocked, After, Next, Parses;
  }

  lemma ReadableCounters(collection: Option<seq<Attribute>>)
    requires WellCounted(collection)
    ensures Parses(ListOf(collection), KEY_TOTAL_STAKED) && Parses(ListOf(collection), KEY_TOTAL_STAKED_LIFETIME)
  {
    if collection.Some? {
      var list := collection.value;
      var others := Without(list, COUNTER_KEYS);
      KeysDistinct();
      forall i | 0 <= i < |others|
        ensures list[i].key !in COUNTER_KEYS
      {
        KeptKeys(list, COUNTER_KEYS, i);
        assert list[i] == others[i];
      }
    }
  }

  // ---------------------------------------------------------------- one session

  /** The session of `id` open in `a` is still open in `b`: same start and owner, more days paid, as the log says. */
  ghost predicate StillOpen(a: Ledger, log: seq<Event>, b: Ledger, id: Pubkey) {
    var before, after := StatusIn(a, id), StatusIn(b, id);
    && before.Staked? && after.Staked?
    && id in a.holdings && id in b.holdings && b.holdings[id].owner == a.holdings[id].owner
    && a.config.Some? && b.config == a.config
    && after.stakedAt == before.stakedAt
    && after.daysPaid == before.daysPaid + DaysPaid(log, id)
    && Minted(log, id) == DaysPaid(log, id) * DailyPay(a.config)
    && Stakes(log, id) == Unstakes(log, id) == 0
  }

  lemma StillOpenStep(a: Ledger, log: seq<Event>, b: Ledger, call: Call, e: Event, id: Pubkey)
    requires StillOpen(a, log, b, id) && Enabled(b, call) && Clocked(b, call.now)
    requires e == Event(call, Receipt(PaidDays(b, call), PaidDays(b, call) * DailyPay(b.config)))
    requires !IsUnstake(e, id)
    ensures StillOpen(a, log + [e], After(b, call), id)
  {
    StatusStep(b, call, id);
    PushEvent(log, e, id);
    assert After(b, call).holdings[id].owner == b.holdings[id].owner;
    hide Enabled, Clocked, After, Stakes, Unstakes, DaysPaid, Minted;
    Distribute(DaysPaid(log, id), PaidDays(b, call), DailyPay(b.config));
  }

  /** While an open session of `id` is not closed, calls only pay it days. */
  lemma {:induction false} OpenSession(w: World, start: int, calls: seq<Call>, id: Pubkey)
    requires Invariant(w, start) && Chronological(start, calls) && w.config.Some?
    ensures StatusIn(LedgerOf(w), id).Staked? && Unstakes(Log(w, calls), id) == 0 ==>
              StillOpen(LedgerOf(w), Log(w, calls), LedgerOf(Run(w, calls)), id)
    decreases |calls|
  {
    LedgerFields(w);
    if calls != [] && StatusIn(LedgerOf(w), id).Staked? && Unstakes(Log(w, calls), id) == 0 {
      var front, call := calls[..|calls| - 1], calls[|calls| - 1];
      LastCall(w, start, calls);
      LastEvent(w, calls);
      var b, r := LedgerOf(Run(w, front)), Apply(Run(w, front), call);
      hide Invariant, LedgerOf, Apply, Next, Run, Log, Enabled, Clocked, After, StillOpen;
      OpenSession(w, start, front, id);
      if r.Ok? {
        PushEvent(Log(w, front), Event(call, r.value.1), id);
        StillOpenStep(LedgerOf(w), Log(w, front), b, call, Event(call, r.value.1), id);
      }
    }
  }

  /** A successful stake of `id`, then any calls at all that do not succeed in unstaking it. */
  ghost predicate SessionRun(w: World, start: int, stake: Call, id: Pubkey, middle: seq<Call>) {
    && Invariant(w, start) && start <= stake.now && Chronological(stake.now, middle)
    && stake.op == Stake(id) && Apply(w, stake).Ok?
    && Unstakes(Log(Next(w, stake), middle), id) == 0
  }

  /** Where such a run leads. */
  lemma SessionState(w: World, start: int, stake: Call, id: Pubkey, middle: seq<Call>)
    requires SessionRun(w, start, stake, id, middle)
    ensures var w1 := Next(w, stake);
            var w2, log := Run(w1, middle), Log(w1, middle);
            var status := StatusIn(LedgerOf(w2), id);
            && Invariant(w2, EndTime(stake.now, middle))
            && w2.config == w.config && w.config.Some?
            && id in w2.assets && w2.assets[id].owner == stake.signer
            && status.Staked? && status.stakedAt == stake.now && status.daysPaid == DaysPaid(log, id)
            && Minted(log, id) == DaysPaid(log, id) * DailyPay(w.config)
  {
    hide Invariant, LedgerOf, Apply, Next, Run, Log, Clocked, DaysPaid, Minted;
    var w1 := Next(w, stake);
    Simulates(w, start, stake);
    StatusStep(LedgerOf(w), stake, id);
    LedgerFields(w);
    LedgerFields(w1);
    OpenSession(w1, stake.now, middle, id);
    RunKeepsInvariant(w1, stake.now, middle);
    LedgerFields(Run(w1, middle));
  }

  /**
   Claim-schedule independence of one session: a stake at s, any calls in between, an unstake at T; claims and
   unstake together pay exactly floor((T - s) / 86400) days, and mint 100 * rewards_bps base units for each.
   */
  lemma SessionPays(w: World, start: int, stake: Call, id: Pubkey, middle: seq<Call>, unstake: Call)
    requires SessionRun(w, start, stake, id, middle)
    requires EndTime(stake.now, middle) <= unstake.now && unstake.op == Unstake(id)
    ensures var log, last := Log(Next(w, stake), middle), Apply(Run(Next(w, stake), middle), unstake);
            var days := (unstake.now - stake.now) / 86400;
            && w.config.Some?
            && (last.Ok? ==>
                  && DaysPaid(log, id) + last.value.1.days == days
                  && Minted(log, id) + last.value.1.minted == days * (100 * w.config.value.rewardsBps))
  {
    hide Invariant, LedgerOf, Apply, Next, Run, Log, Enabled, Clocked, After, DaysPaid, Minted, SessionRun;
    var w2, log := Run(Next(w, stake), middle), Log(Next(w, stake), middle);
    SessionState(w, start, stake, id, middle);
    Simulates(w2, EndTime(stake.now, middle), unstake);
    LedgerFields(w2);
    if Apply(w2, unstake).Ok? {
      StatusStep(LedgerOf(w2), unstake, id);
      Distribute(DaysPaid(log, id), PaidDays(LedgerOf(w2), unstake), DailyPay(w.config));
    }
  }

  /**
   The freeze clock is unaffected by claims: after a stake at s and any calls in between, an unstake by the
   owner at T succeeds if and only if T >= s + 86400 * freeze_period and the arithmetic fits, where what is
   due is the whole session less the days already paid.
   */
  lemma FreezeClock(w: World, start: int, stake: Call, id: Pubkey, middle: seq<Call>, unstake: Call)
    requires SessionRun(w, start, stake, id, middle)
    requires EndTime(stake.now, middle) <= unstake.now && unstake.op == Unstake(id)
    ensures var w2, log := Run(Next(w, stake), middle), Log(Next(w, stake), middle);
            var due := (unstake.now - stake.now) / 86400 - DaysPaid(log, id);
            && w.config.Some?
            && (Apply(w2, unstake).Ok? <==>
                  && unstake.signer == stake.signer
                  && unstake.now >= stake.now + w.config.value.freezePeriod * 86400
                  && FitsI64(unstake.now - stake.now)
                  && due * w.config.value.rewardsBps * 1_000_000 <= U64_MAX
                  && w2.supply + due * (100 * w.config.value.rewardsBps) <= U64_MAX)
  {
    hide Invariant, LedgerOf, Apply, Next, Run, Log, Clocked, After, DaysPaid, Minted, SessionRun;
    var w2 := Run(Next(w, stake), middle);
    SessionState(w, start, stake, id, middle);
    Simulates(w2, EndTime(stake.now, middle), unstake);
    LedgerFields(w2);
  }

  // ---------------------------------------------------------------- attributes of others

  /** The attributes that are none of the staking ones. */
  function Others(asset: Asset): seq<Attribute> {
    Without(ListOf(asset.attributes), STAKING_KEYS)
  }

  lemma StakeKeepsOthers(fetched: Option<seq<Attribute>>, now: i64)
    requires StakeList(fetched, now).Ok?
    ensures Without(StakeList(fetched, now).value, STAKING_KEYS) == Without(ListOf(fetched), STAKING_KEYS)
  {
    WithoutTwice(ListOf(fetched), STAKING_KEYS, STAKING_KEYS);
    assert STAKING_KEYS + STAKING_KEYS == STAKING_KEYS;
    LayoutReads(Without(ListOf(fetched), STAKING_KEYS), "true", ToText(now), ToText(now));
  }

  /** A claim keeps even the freeze clock and the staked flag: only the reward clock moves. */
  lemma ClaimKeepsOthers(fetched: Option<seq<Attribute>>, now: i64)
    requires ClaimList(fetched, now).Ok?
    ensures var list := ClaimList(fetched, now).value.0;
            && Without(list, {KEY_LAST_CLAIM}) == Without(ListOf(fetched), {KEY_LAST_CLAIM})
            && Without(list, STAKING_KEYS) == Without(ListOf(fetched), STAKING_KEYS)
  {
    var before, after := fetched.value, ClaimList(fetched, now).value.0;
    if after != before {
      var kept, last := Without(before, {KEY_LAST_CLAIM}), after[|after| - 1];
      assert after == kept + [last];
      WithoutTwice(before, {KEY_LAST_CLAIM}, {KEY_LAST_CLAIM});
      WithoutTwice(before, {KEY_LAST_CLAIM}, STAKING_KEYS);
      assert {KEY_LAST_CLAIM} + {KEY_LAST_CLAIM} == {KEY_LAST_CLAIM} && {KEY_LAST_CLAIM} + STAKING_KEYS == STAKING_KEYS;
      PushFiltered(kept, last, {KEY_LAST_CLAIM});
      PushFiltered(kept, last, STAKING_KEYS);
    }
  }

  lemma UnstakeKeepsOthers(fetched: Option<seq<Attribute>>, now: i64, freezePeriod: u16)
    requires UnstakeList(fetched, now, freezePeriod).Ok?
    ensures Without(UnstakeList(fetched, now, freezePeriod).value.0, STAKING_KEYS) ==
            Without(ListOf(fetched), STAKING_KEYS)
  {
    WithoutTwice(fetched.value, STAKING_KEYS, STAKING_KEYS);
    assert STAKING_KEYS + STAKING_KEYS == STAKING_KEYS;
    LayoutReads(Without(fetched.value, STAKING_KEYS), "false", "0", "0");
  }

  lemma CounterKeepsOthers(fetched: Option<seq<Attribute>>, delta: i64)
    requires CounterList(fetched, delta).Ok?
    ensures Without(CounterList(fetched, delta).value, COUNTER_KEYS) == Without(ListOf(fetched), COUNTER_KEYS)
  {
    var list, after := ListOf(fetched), CounterList(fetched, delta).value;
    WithoutTwice(list, COUNTER_KEYS, COUNTER_KEYS);
    assert COUNTER_KEYS + COUNTER_KEYS == COUNTER_KEYS;
    CounterLayoutReads(Without(list, COUNTER_KEYS), after[|after| - 2].value, after[|after| - 1].value);
  }

  /**
   No call, on any accounts whatever, adds, drops, changes or reorders an attribute that is not the program's:
   neither on an asset nor on the collection. Owners and a set configuration stay as they are, too.
   */
  ghost predicate KeepsOthers(w: World, next: World) {
    && (forall id <- w.assets ::
          && id in next.assets
          && Others(next.assets[id]) == Others(w.assets[id])
          && next.assets[id].owner == w.assets[id].owner)
    && Without(ListOf(next.collection), COUNTER_KEYS) == Without(ListOf(w.collection), COUNTER_KEYS)
    && (w.config.Some? ==> next.config == w.config)
  }

  lemma CallKeepsOthers(w: World, call: Call)
    ensures KeepsOthers(w, Next(w, call))
  {
    hide Without, StakeList, ClaimList, UnstakeList, CounterList, RewardAmount;
    if Apply(w, call).Ok? && !call.op.Initialize? && !call.op.MintAsset? {
      var asset, next := w.assets[call.op.id], Next(w, call);
      match call.op {
        case Stake(id) =>
          StakeKeepsOthers(asset.attributes, call.now);
          CounterKeepsOthers(w.collection, 1);
        case ClaimRewards(id) =>
          ClaimKeepsOthers(asset.attributes, call.now);
        case Unstake(id) =>
          UnstakeKeepsOthers(asset.attributes, call.now, w.config.value.freezePeriod);
          CounterKeepsOthers(w.collection, -1);
      }
      assert next.assets.Keys == w.assets.Keys;
    }
  }

  lemma {:induction false} RunKeepsOthers(w: World, calls: seq<Call>)
    ensures KeepsOthers(w, Run(w, calls))
    decreases |calls|
  {
    if calls != [] {
      var front := calls[..|calls| - 1];
      hide Next, Others, Without, ListOf;
      RunKeepsOthers(w, front);
      CallKeepsOthers(Run(w, front), calls[|calls| - 1]);
    }
  }

  // ---------------------------------------------------------------- reachable assets

  /**
   Every asset that the program's instructions can lead to: both plugins exist exactly if it was ever staked;
   it is frozen exactly while it is staked, that is while it has one stake more than unstakes; then each
   staking attribute occurs exactly once, every timestamp a handler reads can be parsed, and an asset that is
   not staked has both clocks reset to "0".
   */
  lemma ReachableAsset(start: int, calls: seq<Call>, id: Pubkey)
    requires Chronological(start, calls) && id in Run(GENESIS, calls).assets
    ensures var asset, log := Run(GENESIS, calls).assets[id], Log(GENESIS, calls);
            && (asset.attributes.Some? <==> Stakes(log, id) > 0)
            && (asset.frozen.Some? <==> Stakes(log, id) > 0)
            && (asset.frozen == Some(true) <==> IsStaked(asset))
            && Stakes(log, id) == Unstakes(log, id) + (if IsStaked(asset) then 1 else 0)
            && (asset.attributes.Some? ==>
                  var list := asset.attributes.value;
                  && (forall key <- STAKING_KEYS :: Occurrences(list, key) == 1)
                  && Parses(list, KEY_STAKED_AT) && Parses(list, KEY_LAST_CLAIM)
                  && (!IsStaked(asset) ==>
                        LastValue(list, "staked_at") == Some("0") && LastValue(list, "last_claim") == Some("0")))
  {
    var w := Run(GENESIS, calls);
    GenesisInvariant(start);
    RunKeepsInvariant(GENESIS, start, calls);
    HistoryAgrees(start, calls, id);
    AssetShape(w.assets[id], EndTime(start, calls));
    assert StatusIn(LedgerOf(w), id) == StatusOf(w.assets[id]);
    hide Run, Log, WellKept, WellCounted, StakedIds, Occurrences, Parses;
  }

  lemma AssetShape(asset: Asset, now: int)
    requires WellKept(asset, now)
    ensures (asset.frozen.Some? <==> asset.attributes.Some?)
    ensures (asset.frozen == Some(true) <==> IsStaked(asset))
    ensures StatusOf(asset).Staked? <==> IsStaked(asset)
    ensures StatusOf(asset).Fresh? <==> asset.attributes.None?
    ensures asset.attributes.Some? ==>
              var list := asset.attributes.value;
              && (forall key <- STAKING_KEYS :: Occurrences(list, key) == 1)
              && Parses(list, KEY_STAKED_AT) && Parses(list, KEY_LAST_CLAIM)
              && (!IsStaked(asset) ==>
                    LastValue(list, "staked_at") == Some("0") && LastValue(list, "last_claim") == Some("0"))
  {
    if asset.attributes.Some? {
      var list := asset.attributes.value;
      WellKeptReads(asset, now);
      LayoutReads(Without(list, STAKING_KEYS), TextOf(list, KEY_STAKED), TextOf(list, KEY_STAKED_AT),
          TextOf(list, KEY_LAST_CLAIM));
      hide Layout, Without, Occurrences, Parses, LastValue;
    }
  }

  // ---------------------------------------------------------------- exactly what is stored

  /** All attributes of assets and of the collection are the program's own. */
  ghost predicate OnlyOwn(w: World) {
    && (forall id <- w.assets :: Others(w.assets[id]) == [])
    && Without(ListOf(w.collection), COUNTER_KEYS) == []
  }

  lemma OnlyOwnStep(w: World, call: Call)
    requires OnlyOwn(w)
    ensures OnlyOwn(Next(w, call))
  {
    CallKeepsOthers(w, call);
    NewAssetsEmpty(w, call);
    hide Next, Without, ListOf;
  }

  lemma NewAssetsEmpty(w: World, call: Call)
    ensures forall id <- Next(w, call).assets | id !in w.assets :: Others(Next(w, call).assets[id]) == []
  {
    hide StakeList, ClaimList, UnstakeList, CounterList, RewardAmount;
  }

  lemma {:induction false} RunOnlyOwn(calls: seq<Call>)
    ensures OnlyOwn(Run(GENESIS, calls))
    decreases |calls|
  {
    if calls != [] {
      hide Next, OnlyOwn;
      RunOnlyOwn(calls[..|calls| - 1]);
      OnlyOwnStep(Run(GENESIS, calls[..|calls| - 1]), calls[|calls| - 1]);
    }
  }

  /**
   The attribute list of every reachable asset, text by text, from its history alone: none before the first
   stake; while staked, the time of the last stake and that time advanced by 86400 seconds for every day the
   open session has paid; after an unstake the flag "false" and both clocks "0".
   */
  lemma ReachableList(start: int, calls: seq<Call>, id: Pubkey)
    requires Chronological(start, calls) && id in Run(GENESIS, calls).assets
    ensures var asset, log := Run(GENESIS, calls).assets[id], Log(GENESIS, calls);
            var staked, since := Stakes(log, id) > Unstakes(log, id), LastStake(log, id);
            && asset.frozen == (if Stakes(log, id) == 0 then None else Some(staked))
            && asset.attributes ==
               if Stakes(log, id) == 0 then None
               else if staked then
                 Some([Attribute("staked", "true"), Attribute("staked_at", ToText(since)),
                       Attribute("last_claim", ToText(since + 86400 * (DaysPaid(log, id) - ClosedDays(log, id))))])
               else Some([Attribute("staked", "false"), Attribute("staked_at", "0"), Attribute("last_claim", "0")])
  {
    hide Run, Log, Invariant, LedgerOf, StatusOf, OnlyOwn, ToText, Stakes, Unstakes, DaysPaid, ClosedDays, LastStake;
    var w := Run(GENESIS, calls);
    GenesisInvariant(start);
    RunKeepsInvariant(GENESIS, start, calls);
    HistoryAgrees(start, calls, id);
    RunOnlyOwn(calls);
    KeptAsset(w, EndTime(start, calls), id);
    ListByStatus(w.assets[id], EndTime(start, calls));
  }

  lemma KeptAsset(w: World, now: int, id: Pubkey)
    requires Invariant(w, now) && OnlyOwn(w) && id in w.assets
    ensures WellKept(w.assets[id], now) && Others(w.assets[id]) == []
    ensures StatusIn(LedgerOf(w), id) == StatusOf(w.assets[id])
  {
    hide WellKept, Others, StatusOf, Number, Without;
  }

  lemma ListByStatus(asset: Asset, now: int)
    requires WellKept(asset, now) && Others(asset) == []
    ensures match StatusOf(asset)
            case Fresh => asset.attributes.None? && asset.frozen.None?
            case Idle =>
              && asset.attributes ==
                 Some([Attribute("staked", "false"), Attribute("staked_at", "0"), Attribute("last_claim", "0")])
              && asset.frozen == Some(false)
            case Staked(stakedAt, days) =>
              && asset.attributes ==
                 Some([Attribute("staked", "true"), Attribute("staked_at", ToText(stakedAt)),
                       Attribute("last_claim", ToText(stakedAt + 86400 * days))])
              && asset.frozen == Some(true)
  {
    if asset.attributes.Some? {
      WellKeptTexts(asset, now);
      var list := asset.attributes.value;
      assert Without(list, {"staked", "staked_at", "last_claim"}) == [];
      assert |list| == 3 && list == [list[0], list[1], list[2]];
    }
    hide WellKept, StatusOf, Without, ToText, Others;
  }

  /** The attribute list of the collection, text by text: none before the first stake, then the two counters. */
  lemma ReachableCollection(start: int, calls: seq<Call>)
    requires Chronological(start, calls)
    ensures var log := Log(GENESIS, calls);
            Run(GENESIS, calls).collection ==
            if AllStakes(log) == 0 then None
            else Some([Attribute("total_staked", ToText(AllStakes(log) - AllUnstakes(log))),
                       Attribute("total_staked_lifetime", ToText(AllStakes(log)))])
  {
    hide Run, Log, Invariant, OnlyOwn, ToText, AllStakes, AllUnstakes, StakedAssets, Number;
    var w := Run(GENESIS, calls);
    GenesisInvariant(start);
    RunKeepsInvariant(GENESIS, start, calls);
    CountersCount(start, calls);
    RunOnlyOwn(calls);
    CollectionList(w, EndTime(start, calls));
  }

  lemma CollectionList(w: World, now: int)
    requires Invariant(w, now) && OnlyOwn(w)
    ensures var list := ListOf(w.collection);
            && (w.collection.None? <==> Number(list, KEY_TOTAL_STAKED_LIFETIME, 0) == 0)
            && Number(list, KEY_TOTAL_STAKED_LIFETIME, 0) >= 0
            && (w.collection.Some? ==>
                  w.collection == Some([
                    Attribute("total_staked", ToText(Number(list, KEY_TOTAL_STAKED, 0))),
                    Attribute("total_staked_lifetime", ToText(Number(list, KEY_TOTAL_STAKED_LIFETIME, 0)))]))
  {
    hide WellKept, StakedIds, StatusOf, Without, ToText, Others;
    if w.collection.Some? {
      var list := w.collection.value;
      assert |list| == 2 && list[0].key == "total_staked" && list[1].key == "total_staked_lifetime";
      assert list == [list[0], list[1]];
    }
  }

  // ---------------------------------------------------------------- where terms and owners come from

  /** The configuration is that of the one successful initialize, and every asset belongs to who minted it. */
  ghost predicate Provenance(log: seq<Event>, w: World) {
    && (w.config.Some? <==> exists e <- log :: e.call.op.Initialize?)
    && (forall e <- log | e.call.op.Initialize? ::
          w.config == Some(Config(e.call.op.rewardsBps, e.call.op.freezePeriod, 6)))
    && (forall id :: id in w.assets <==> exists e <- log :: e.call.op == MintAsset(id))
    && (forall e <- log | e.call.op.MintAsset? ::
          e.call.op.id in w.assets && w.assets[e.call.op.id].owner == e.call.signer)
  }

  /** Which configuration, assets and owners there are after a call. */
  lemma TermsStep(w: World, call: Call)
    requires Apply(w, call).Ok?
    ensures var next := Apply(w, call).value.0;
            match call.op
            case Initialize(bps, freezePeriod) =>
              w.config.None? && next.config == Some(Config(bps, freezePeriod, 6)) && next.assets == w.assets
            case MintAsset(id) =>
              id !in w.assets && next.config == w.config
              && next.assets == w.assets[id := Asset(call.signer, None, None)]
            case _ =>
              next.config == w.config && next.assets.Keys == w.assets.Keys
              && forall id <- w.assets :: next.assets[id].owner == w.assets[id].owner
  {
    hide StakeList, ClaimList, UnstakeList, CounterList, RewardAmount;
  }

  lemma ProvenanceStep(log: seq<Event>, w: World, call: Call, e: Event)
    requires Provenance(log, w) && Apply(w, call).Ok? && e.call == call
    ensures Provenance(log + [e], Apply(w, call).value.0)
  {
    TermsStep(w, call);
    hide Apply;
    var more := log + [e];
    assert e in more && forall f <- log :: f in more;
    assert forall f <- more :: f in log || f == e;
  }

  lemma {:induction false} RunProvenance(calls: seq<Call>)
    ensures Provenance(Log(GENESIS, calls), Run(GENESIS, calls))
    decreases |calls|
  {
    if calls != [] {
      var front, call := calls[..|calls| - 1], calls[|calls| - 1];
      hide Apply, Provenance;
      RunProvenance(front);
      LastEvent(GENESIS, calls);
      if Apply(Run(GENESIS, front), call).Ok? {
        var (next, receipt) := Apply(Run(GENESIS, front), call).value;
        ProvenanceStep(Log(GENESIS, front), Run(GENESIS, front), call, Event(call, receipt));
      }
    }
  }
}
