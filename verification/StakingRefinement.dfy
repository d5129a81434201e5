/**
 The attribute lists carry exactly the abstract ledger: an abstraction function, an invariant of the
 concrete accounts, and a step-by-step simulation in both directions (success and failure).
 */
module StakingRefinement {
  import opened Rust
  import opened Decimal
  import opened Attributes
  import opened Rewards
  import opened StakingErrors
  import opened Staking
  import opened Sessions
  import opened Sums

  // ---------------------------------------------------------------- abstraction

  function TextOf(list: seq<Attribute>, key: string): string {
    match LastValue(list, key)
    case None => ""
    case Some(text) => text
  }

  function StatusOf(asset: Asset): Status {
    match asset.attributes
    case None => Fresh
    case Some(list) =>
      if LastValue(list, KEY_STAKED) == Some("true") then
        var stakedAt := Number(list, KEY_STAKED_AT, 0);
        var lastClaim := Number(list, KEY_LAST_CLAIM, stakedAt);
        Staked(stakedAt, if lastClaim >= stakedAt then (lastClaim - stakedAt) / 86400 else 0)
      else Idle
  }

  function LedgerOf(w: World): Ledger {
    Ledger(
      w.config,
      map id | id in w.assets :: Holding(w.assets[id].owner, StatusOf(w.assets[id])),
      w.supply,
      Number(ListOf(w.collection), KEY_TOTAL_STAKED, 0),
      Number(ListOf(w.collection), KEY_TOTAL_STAKED_LIFETIME, 0))
  }

  // ---------------------------------------------------------------- invariant

  /** The list ends with the three staking attributes, and the others before them are none of these. */
  ghost predicate InLayout(list: seq<Attribute>) {
    list == Layout(Without(list, STAKING_KEYS), TextOf(list, KEY_STAKED), TextOf(list, KEY_STAKED_AT),
        TextOf(list, KEY_LAST_CLAIM))
  }

  /** The clocks of a staked asset are printed numbers, those of any other are reset. */
  ghost predicate PrintedClocks(list: seq<Attribute>) {
    var stakedAt, lastClaim := TextOf(list, KEY_STAKED_AT), TextOf(list, KEY_LAST_CLAIM);
    if TextOf(list, KEY_STAKED) == "true" then
      && (ParseI64(stakedAt).Some? ==> stakedAt == ToText(ParseI64(stakedAt).value))
      && (ParseI64(lastClaim).Some? ==> lastClaim == ToText(ParseI64(lastClaim).value))
    else stakedAt == lastClaim == "0"
  }

  ghost predicate PrintedCounters(list: seq<Attribute>) {
    && TextOf(list, KEY_TOTAL_STAKED) == ToText(Number(list, KEY_TOTAL_STAKED, 0))
    && TextOf(list, KEY_TOTAL_STAKED_LIFETIME) == ToText(Number(list, KEY_TOTAL_STAKED_LIFETIME, 0))
    && Number(list, KEY_TOTAL_STAKED_LIFETIME, 0) >= 1
  }

  /** Both plugins or neither; in layout; flag and freeze agree; the clocks of a staked asset are printed numbers
      a whole number of days apart, those of any other are "0". */
  ghost predicate WellKept(asset: Asset, now: int) {
    match asset.attributes
    case None => asset.frozen.None?
    case Some(list) =>
      && InLayout(list)
      && TextOf(list, KEY_STAKED) in {"true", "false"}
      && asset.frozen == Some(TextOf(list, KEY_STAKED) == "true")
      && ParseI64(TextOf(list, KEY_STAKED_AT)).Some?
      && ParseI64(TextOf(list, KEY_LAST_CLAIM)).Some?
      && (TextOf(list, KEY_STAKED) == "true" ==>
            var stakedAt := ParseI64(TextOf(list, KEY_STAKED_AT)).value;
            var lastClaim := ParseI64(TextOf(list, KEY_LAST_CLAIM)).value;
            lastClaim == stakedAt + StatusOf(asset).daysPaid * 86400 <= now)
      && PrintedClocks(list)
  }

  /** The collection list ends with the two counters, both printed numbers; it exists from the first stake on. */
  ghost predicate WellCounted(collection: Option<seq<Attribute>>) {
    var list := ListOf(collection);
    collection.Some? ==>
      && list == CounterLayout(
           Without(list, COUNTER_KEYS), TextOf(list, KEY_TOTAL_STAKED), TextOf(list, KEY_TOTAL_STAKED_LIFETIME))
      && ParseI64(TextOf(list, KEY_TOTAL_STAKED)).Some?
      && ParseI64(TextOf(list, KEY_TOTAL_STAKED_LIFETIME)).Some?
      && PrintedCounters(list)
  }

  ghost predicate Invariant(w: World, now: int) {
    && (w.config.Some? ==> w.config.value.decimals == 6)
    && (forall id <- w.assets :: WellKept(w.assets[id], now))
    && WellCounted(w.collection)
    && LedgerOf(w).staked == |StakedIds(LedgerOf(w))| <= LedgerOf(w).lifetime
    && Sum(w.rewards) == w.supply
  }

  lemma GenesisInvariant(now: int)
    ensures Invariant(GENESIS, now)
    ensures LedgerOf(GENESIS) == Ledger(None, map[], 0, 0, 0)
  {
    assert LedgerOf(GENESIS).holdings == map[];
    assert StakedIds(LedgerOf(GENESIS)) == {};
  }

  // ---------------------------------------------------------------- one asset

  lemma {:induction false} KeptKeys(list: seq<Attribute>, keys: set<string>, i: nat)
    requires i < |Without(list, keys)|
    ensures Without(list, keys)[i].key !in keys
  {
    if i < |Without(list[..|list| - 1], keys)| {
      KeptKeys(list[..|list| - 1], keys, i);
    }
  }

  /** In a list in layout the last three entries are the only staking ones. */
  lemma LayoutEntries(list: seq<Attribute>)
    requires InLayout(list)
    ensures var n := |Without(list, STAKING_KEYS)|;
            && |list| == n + 3
            && (forall i | 0 <= i < n :: list[i].key !in STAKING_KEYS)
            && list[n] == Attribute(KEY_STAKED, TextOf(list, KEY_STAKED))
            && list[n + 1] == Attribute(KEY_STAKED_AT, TextOf(list, KEY_STAKED_AT))
            && list[n + 2] == Attribute(KEY_LAST_CLAIM, TextOf(list, KEY_LAST_CLAIM))
    ensures Without(Without(list, STAKING_KEYS), STAKING_KEYS) == Without(list, STAKING_KEYS)
  {
    var others := Without(list, STAKING_KEYS);
    WithoutTwice(list, STAKING_KEYS, STAKING_KEYS);
    assert STAKING_KEYS + STAKING_KEYS == STAKING_KEYS;
    forall i | 0 <= i < |others|
      ensures list[i].key !in STAKING_KEYS
    {
      KeptKeys(list, STAKING_KEYS, i);
      assert list[i] == others[i];
    }
  }

  /** What a pass over a list in layout meets. */
  lemma LayoutParses(list: seq<Attribute>)
    requires InLayout(list)
    ensures Parses(list, KEY_STAKED_AT) <==> ParseI64(TextOf(list, KEY_STAKED_AT)).Some?
    ensures Parses(list, KEY_LAST_CLAIM) <==> ParseI64(TextOf(list, KEY_LAST_CLAIM)).Some?
    ensures MayStake(list) <==> TextOf(list, KEY_STAKED) == "false"
  {
    KeysDistinct();
    LayoutEntries(list);
    hide Without, InLayout, TextOf, ParseI64;
    var n := |list| - 3;
    assert forall i | 0 <= i < |list| && list[i].key == KEY_STAKED :: i == n;
    assert forall i | 0 <= i < |list| && list[i].key == KEY_STAKED_AT :: i == n + 1;
    assert forall i | 0 <= i < |list| && list[i].key == KEY_LAST_CLAIM :: i == n + 2;
  }

  /** What is found under each key of a well-kept list. */
  lemma WellKeptKeys(asset: Asset, now: int)
    requires WellKept(asset, now) && asset.attributes.Some?
    ensures var list := asset.attributes.value;
            && Parses(list, KEY_STAKED_AT) && Parses(list, KEY_LAST_CLAIM)
            && LastValue(list, KEY_STAKED) == Some(TextOf(list, KEY_STAKED))
            && LastValue(list, KEY_STAKED_AT) == Some(TextOf(list, KEY_STAKED_AT))
            && LastValue(list, KEY_LAST_CLAIM) == Some(TextOf(list, KEY_LAST_CLAIM))
            && (MayStake(list) <==> TextOf(list, KEY_STAKED) == "false")
            && Without(Without(list, STAKING_KEYS), STAKING_KEYS) == Without(list, STAKING_KEYS)
  {
    hide PrintedClocks, StatusOf, ParseI64, Parses, MayStake, Without, Occurrences, LastValue;
    var list := asset.attributes.value;
    LayoutParses(list);
    LayoutEntries(list);
    LayoutReads(Without(list, STAKING_KEYS), TextOf(list, KEY_STAKED), TextOf(list, KEY_STAKED_AT),
        TextOf(list, KEY_LAST_CLAIM));
    hide Layout, TextOf;
  }

  /** What the handlers read from a well-kept list. */
  lemma WellKeptReads(asset: Asset, now: int)
    requires WellKept(asset, now) && asset.attributes.Some?
    ensures var list := asset.attributes.value;
            && Parses(list, KEY_STAKED_AT) && Parses(list, KEY_LAST_CLAIM)
            && (MayStake(list) <==> !StatusOf(asset).Staked?)
            && Without(Without(list, STAKING_KEYS), STAKING_KEYS) == Without(list, STAKING_KEYS)
            && (StatusOf(asset).Staked? ==>
                  && ReadClocks(list).Ok?
                  && var clocks := ReadClocks(list).value;
                     && clocks.stakedAt == StatusOf(asset).stakedAt
                     && clocks.lastClaim <= now
                     && clocks.lastClaim ==
                        StatusOf(asset).stakedAt + StatusOf(asset).daysPaid * 86400)
            && (!StatusOf(asset).Staked? ==> ReadClocks(list) == Err(AssetNotStaked))
  {
    KeysDistinct();
    WellKeptKeys(asset, now);
    hide PrintedClocks, Without, LastValue, InLayout, ParseI64, Parses, MayStake;
  }

  /** A well-kept list is the attributes of others and the three staking attributes, whose texts are determined
      by the status. */
  lemma WellKeptTexts(asset: Asset, now: int)
    requires WellKept(asset, now) && asset.attributes.Some?
    ensures var list, status := asset.attributes.value, StatusOf(asset);
            && !status.Fresh? && asset.frozen == Some(status.Staked?)
            && list == Without(list, {"staked", "staked_at", "last_claim"}) +
               if status.Staked? then
                 [Attribute("staked", "true"), Attribute("staked_at", ToText(status.stakedAt)),
                  Attribute("last_claim", ToText(status.stakedAt + 86400 * status.daysPaid))]
               else [Attribute("staked", "false"), Attribute("staked_at", "0"), Attribute("last_claim", "0")]
  {
    var list := asset.attributes.value;
    KeysDistinct();
    LayoutEntries(list);
    LayoutReads(Without(list, STAKING_KEYS), TextOf(list, KEY_STAKED), TextOf(list, KEY_STAKED_AT),
        TextOf(list, KEY_LAST_CLAIM));
    hide Without, LastValue, ParseI64, ToText;
  }

  lemma WholeDaysBack(days: nat)
    ensures days * 86400 / 86400 == days
  {
  }

  /** A list written in layout is well kept if its clocks are whole days apart. */
  lemma StakedWellKept(owner: Pubkey, others: seq<Attribute>, stakedAt: i64, days: nat, now: int)
    requires Without(others, STAKING_KEYS) == others
    requires stakedAt + days * 86400 <= I64_MAX && stakedAt + days * 86400 <= now
    ensures var list := Layout(others, "true", ToText(stakedAt), ToText(stakedAt + days * 86400));
            var asset := Asset(owner, Some(list), Some(true));
            WellKept(asset, now) && StatusOf(asset) == Staked(stakedAt, days)
  {
    hide Without, ToText, ParseI64, Occurrences, LastValue;
    var lastClaim := stakedAt + days * 86400;
    var list := Layout(others, "true", ToText(stakedAt), ToText(lastClaim));
    KeysDistinct();
    LayoutReads(others, "true", ToText(stakedAt), ToText(lastClaim));
    RoundTrip(stakedAt);
    RoundTrip(lastClaim);
    assert Number(list, KEY_STAKED_AT, 0) == stakedAt && Number(list, KEY_LAST_CLAIM, stakedAt) == lastClaim;
    assert lastClaim - stakedAt == days * 86400;
    WholeDaysBack(days);
    hide Layout;
  }

  /** A list with the flag and both clocks reset is well kept. */
  lemma IdleWellKept(owner: Pubkey, others: seq<Attribute>, now: int)
    requires Without(others, STAKING_KEYS) == others
    ensures var asset := Asset(owner, Some(Layout(others, "false", "0", "0")), Some(false));
            WellKept(asset, now) && StatusOf(asset) == Idle
  {
    KeysDistinct();
    LayoutReads(others, "false", "0", "0");
    assert ToText(0) == "0";
    RoundTrip(0);
  }

  lemma StakeRefines(asset: Asset, before: int, now: i64)
    requires WellKept(asset, before)
    ensures StakeList(asset.attributes, now).Ok? <==> !StatusOf(asset).Staked?
    ensures var r := StakeList(asset.attributes, now);
            r.Ok? ==>
              var after := asset.(attributes := Some(r.value), frozen := Some(true));
              WellKept(after, now) && StatusOf(after) == Staked(now, 0)
  {
    var list := ListOf(asset.attributes);
    if asset.attributes.Some? {
      WellKeptReads(asset, before);
    }
    StakedWellKept(asset.owner, Without(list, STAKING_KEYS), now, 0, now);
  }

  /** The reward clock splits elapsed time: what is due plus what was paid is the whole session. */
  lemma DaysSplit(stakedAt: int, daysPaid: nat, now: int)
    requires stakedAt + daysPaid * 86400 <= now
    ensures TruncDiv(now - (stakedAt + daysPaid * 86400), 86400) ==
            (now - stakedAt) / 86400 - daysPaid >= 0
    ensures stakedAt + (now - stakedAt) / 86400 * 86400 <= now
  {
  }

  /** Replacing the reward clock of a staked, well-kept list by one `days` days after the freeze clock. */
  lemma AdvancedWellKept(asset: Asset, before: int, now: int, days: nat)
    requires WellKept(asset, before) && StatusOf(asset).Staked?
    requires StatusOf(asset).stakedAt + days * 86400 <= now
    requires StatusOf(asset).stakedAt + days * 86400 <= I64_MAX
    ensures var list, lastClaim := asset.attributes.value, StatusOf(asset).stakedAt + days * 86400;
            var advanced := Without(list, {KEY_LAST_CLAIM}) + [Attribute(KEY_LAST_CLAIM, ToText(lastClaim))];
            var after := asset.(attributes := Some(advanced));
            WellKept(after, now) && StatusOf(after) == Staked(StatusOf(asset).stakedAt, days)
  {
    var list, stakedAt := asset.attributes.value, StatusOf(asset).stakedAt;
    var others, stakedText := Without(list, STAKING_KEYS), ToText(StatusOf(asset).stakedAt);
    var lastClaim := ToText(stakedAt + days * 86400);
    WellKeptReads(asset, before);
    WellKeptTexts(asset, before);
    hide WellKept, LastValue, ParseI64, ToText, Without, Occurrences;
    var paidText := ToText(stakedAt + StatusOf(asset).daysPaid * 86400);
    LayoutReads(others, "true", stakedText, paidText);
    assert list == Layout(others, "true", stakedText, paidText);
    hide StatusOf;
    assert Without(list, {KEY_LAST_CLAIM}) + [Attribute(KEY_LAST_CLAIM, lastClaim)] ==
           Layout(others, "true", stakedText, lastClaim);
    StakedWellKept(asset.owner, others, stakedAt, days, now);
  }

  /** Advancing the reward clock by the days paid never passes the present, so it never overflows. */
  lemma AdvanceFits(lastClaim: i64, now: i64)
    requires 0 <= now - lastClaim <= I64_MAX
    ensures var days := TruncDiv(now - lastClaim, 86400);
            0 <= days && FitsI64(days * 86400) && FitsI64(lastClaim + days * 86400)
  {
  }

  /** What a claim computes from the two clocks. */
  lemma ClaimArithmetic(list: seq<Attribute>, stakedAt: i64, daysPaid: nat, now: i64)
    requires stakedAt + daysPaid * 86400 <= now
    requires ReadClocks(list) == Ok(Clocks(stakedAt, stakedAt + daysPaid * 86400))
    ensures var r, days := ClaimList(Some(list), now), SessionDays(stakedAt, now);
            && (r.Ok? <==> FitsI64(now - (stakedAt + daysPaid * 86400)))
            && (r.Ok? ==> r.value == (
                  if days == daysPaid then list
                  else
                    Without(list, {KEY_LAST_CLAIM})
                    + [Attribute(KEY_LAST_CLAIM, ToText(stakedAt + days * 86400))],
                  days - daysPaid))
  {
    hide ReadClocks;
    var lastClaim, days := stakedAt + daysPaid * 86400, SessionDays(stakedAt, now);
    if FitsI64(now - lastClaim) {
      DaysSplit(stakedAt, daysPaid, now);
      AdvanceFits(lastClaim, now);
      assert WholeDays(lastClaim, now) == Ok(days - daysPaid);
      assert lastClaim + (days - daysPaid) * 86400 == stakedAt + days * 86400;
    }
  }

  lemma ClaimRefines(asset: Asset, before: int, now: i64)
    requires WellKept(asset, before) && before <= now
    ensures var status, r := StatusOf(asset), ClaimList(asset.attributes, now);
            && (r.Ok? <==> status.Staked? && FitsI64(now - (status.stakedAt + status.daysPaid * 86400)))
            && (r.Ok? ==>
                  && r.value.1 == (now - status.stakedAt) / 86400 - status.daysPaid >= 0
                  && var after := asset.(attributes := Some(r.value.0));
                     && WellKept(after, now)
                     && StatusOf(after) == Staked(status.stakedAt, (now - status.stakedAt) / 86400)
                     && (r.value.1 == 0 ==> after == asset))
  {
    hide InLayout, ParseI64, ReadClocks, Without, Parses, ToText;
    var status := StatusOf(asset);
    if asset.attributes.Some? {
      WellKeptReads(asset, before);
      WellKeptLater(asset, before, now);
      hide WellKept;
      if status.Staked? {
        DaysSplit(status.stakedAt, status.daysPaid, now);
        ClaimArithmetic(asset.attributes.value, status.stakedAt, status.daysPaid, now);
        AdvancedWellKept(asset, before, now, SessionDays(status.stakedAt, now));
      }
    }
  }

  lemma WellKeptLater(asset: Asset, before: int, now: int)
    requires WellKept(asset, before) && before <= now
    ensures WellKept(asset, now)
  {
  }

  lemma UnstakeRefines(asset: Asset, before: int, now: i64, freezePeriod: u16)
    requires WellKept(asset, before) && before <= now
    ensures var status, r := StatusOf(asset), UnstakeList(asset.attributes, now, freezePeriod);
            && (r.Ok? <==>
                  && status.Staked?
                  && FitsI64(now - status.stakedAt)
                  && now >= status.stakedAt + freezePeriod * 86400)
            && (r.Ok? ==>
                  && r.value.1 == (now - status.stakedAt) / 86400 - status.daysPaid >= 0
                  && asset.frozen == Some(true)
                  && var after := asset.(attributes := Some(r.value.0), frozen := Some(false));
                     WellKept(after, now) && StatusOf(after) == Idle)
  {
    if asset.attributes.Some? {
      WellKeptReads(asset, before);
      var status := StatusOf(asset);
      if status.Staked? {
        DaysSplit(status.stakedAt, status.daysPaid, now);
        IdleWellKept(asset.owner, Without(asset.attributes.value, STAKING_KEYS), now);
        WellKeptTexts(asset, before);
        hide WellKept, StatusOf, LastValue, ParseI64, ToText, Without, ReadClocks;
      }
    }
  }

  // ---------------------------------------------------------------- the collection counters

  /** A list written with two printed counters is well counted. */
  lemma WrittenCounted(others: seq<Attribute>, current: i64, lifetime: i64)
    requires Without(others, COUNTER_KEYS) == others && lifetime >= 1
    ensures var list := CounterLayout(others, ToText(current), ToText(lifetime));
            && WellCounted(Some(list))
            && Number(list, KEY_TOTAL_STAKED, 0) == current && Number(list, KEY_TOTAL_STAKED_LIFETIME, 0) == lifetime
  {
    CounterLayoutReads(others, ToText(current), ToText(lifetime));
    RoundTrip(current);
    RoundTrip(lifetime);
    hide ParseI64, ToText, Without, LastValue, Occurrences;
  }

  lemma LifetimeCounts(collection: Option<seq<Attribute>>)
    requires WellCounted(collection)
    ensures Number(ListOf(collection), KEY_TOTAL_STAKED_LIFETIME, 0) >= 0
  {
    hide Without, ParseI64, ToText;
  }

  lemma CounterRefines(collection: Option<seq<Attribute>>, delta: i64)
    requires WellCounted(collection)
    requires delta == 1 || delta == -1
    ensures var list, r := ListOf(collection), CounterList(collection, delta);
            var current, lifetime := Number(list, KEY_TOTAL_STAKED, 0), Number(list, KEY_TOTAL_STAKED_LIFETIME, 0);
            0 <= current + delta && current <= lifetime ==>
              && (r.Ok? <==> delta < 0 || lifetime < I64_MAX)
              && (r.Ok? ==>
                    && WellCounted(Some(r.value))
                    && Number(r.value, KEY_TOTAL_STAKED, 0) == current + delta
                    && Number(r.value, KEY_TOTAL_STAKED_LIFETIME, 0) == lifetime + if delta > 0 then 1 else 0)
  {
    hide ParseI64, ToText, Without, WellCounted, LastValue;
    var list, r := ListOf(collection), CounterList(collection, delta);
    if r.Ok? {
      var current := Number(list, KEY_TOTAL_STAKED, 0) + delta;
      var lifetime := Number(list, KEY_TOTAL_STAKED_LIFETIME, 0) + if delta > 0 then delta else 0;
      if 0 <= current && Number(list, KEY_TOTAL_STAKED, 0) <= Number(list, KEY_TOTAL_STAKED_LIFETIME, 0) {
        WithoutTwice(list, COUNTER_KEYS, COUNTER_KEYS);
        assert COUNTER_KEYS + COUNTER_KEYS == COUNTER_KEYS;
        LifetimeCounts(collection);
        WrittenCounted(Without(list, COUNTER_KEYS), current, lifetime);
      }
    }
  }

  // ---------------------------------------------------------------- one call

  /** A payment succeeds when it fits, and then raises the supply and the owner's balance by the same amount. */
  lemma PayRefines(w: World, owner: Pubkey, days: i64, config: Config)
    requires Sum(w.rewards) == w.supply && config.decimals == 6 && days >= 0
    ensures var r, amount := Pay(w, owner, days, config), days * (100 * config.rewardsBps);
            && (r.Ok? <==> days * config.rewardsBps * 1_000_000 <= U64_MAX && w.supply + amount <= U64_MAX)
            && (r.Ok? ==>
                  && r.value.1 == Receipt(days, amount)
                  && r.value.0 == w.(supply := w.supply + amount, rewards := r.value.0.rewards)
                  && Sum(r.value.0.rewards) == r.value.0.supply
                  && forall other ::
                       RewardsOf(r.value.0, other) == RewardsOf(w, other) + if other == owner then amount else 0)
  {
    SixDecimals(days, config.rewardsBps);
    var amount: nat := days * (100 * config.rewardsBps);
    SumPut(w.rewards, owner, RewardsOf(w, owner) + amount);
    if owner in w.rewards {
      SumAtLeast(w.rewards, owner);
    }
  }

  lemma SixDecimals(days: nat, bps: u16)
    requires FitsI64(days)
    ensures RewardAmount(days, bps, 6) ==
            if days * bps * 1_000_000 <= U64_MAX then Ok(days * (100 * bps)) else Err(InvalidRewardsBps)
  {
    SixZeros();
    RewardIsFloor(days, bps, 6);
    NoRemainder(days, bps);
  }

  lemma StakedIdsUpdate(a: Ledger, id: Pubkey, status: Status)
    requires id in a.holdings
    ensures var ids := StakedIds(a.(holdings := SetStatus(a, id, status)));
            |ids| == |StakedIds(a)| + (if status.Staked? then 1 else 0) - (if StatusIn(a, id).Staked? then 1 else 0)
  {
    var ids, before := StakedIds(a.(holdings := SetStatus(a, id, status))), StakedIds(a);
    assert id in before <==> StatusIn(a, id).Staked?;
    var others := before - {id};
    assert before == if StatusIn(a, id).Staked? then others + {id} else others;
    assert ids == if status.Staked? then others + {id} else others;
    hide StakedIds;
  }

  /** Replacing one asset, and the collection and the reward accounts with it, replaces one status. */
  lemma Replaced(w: World, before: int, now: int, next: World, id: Pubkey, asset: Asset)
    requires Invariant(w, before) && before <= now && id in w.assets
    requires next.config == w.config && next.assets == w.assets[id := asset]
    requires asset.owner == w.assets[id].owner && WellKept(asset, now)
    requires WellCounted(next.collection) && Sum(next.rewards) == next.supply
    requires LedgerOf(next).staked <= LedgerOf(next).lifetime
    requires LedgerOf(next).staked == LedgerOf(w).staked
             + (if StatusOf(asset).Staked? then 1 else 0) - (if StatusOf(w.assets[id]).Staked? then 1 else 0)
    ensures LedgerOf(next).holdings == SetStatus(LedgerOf(w), id, StatusOf(asset))
    ensures Invariant(next, now)
  {
    InvariantClocked(w, before, now);
    var a, b := LedgerOf(w), LedgerOf(next);
    assert b.holdings == SetStatus(a, id, StatusOf(asset));
    StakedIdsUpdate(a, id, StatusOf(asset));
    assert StakedIds(b) == StakedIds(a.(holdings := SetStatus(a, id, StatusOf(asset))));
  }

  lemma InvariantClocked(w: World, before: int, now: int)
    requires Invariant(w, before) && before <= now
    ensures Clocked(LedgerOf(w), now)
    ensures Invariant(w, now)
  {
    forall id <- w.assets | StatusOf(w.assets[id]).Staked?
      ensures StatusOf(w.assets[id]).stakedAt + StatusOf(w.assets[id]).daysPaid * 86400 <= now
    {
      WellKeptReads(w.assets[id], before);
    }
  }

  /** A concrete outcome `r`, leading to accounts with ledger `b`, is what the abstract step from `a` says. */
  ghost predicate Matches(a: Ledger, call: Call, r: Result<(World, Receipt), StakingError>, b: Ledger) {
    && Clocked(a, call.now)
    && (r.Ok? <==> Enabled(a, call))
    && (r.Ok? ==>
          && b == After(a, call)
          && PaidDays(a, call) >= 0
          && r.value.1 == Receipt(PaidDays(a, call), PaidDays(a, call) * DailyPay(a.config)))
    && (r.Err? ==> b == a)
  }

  lemma SimulatesInitialize(w: World, before: int, call: Call)
    requires Invariant(w, before) && before <= call.now && call.op.Initialize?
    ensures Matches(LedgerOf(w), call, Apply(w, call), LedgerOf(Next(w, call)))
    ensures Invariant(Next(w, call), call.now)
  {
    hide WellKept, WellCounted, StatusOf, Number;
    InvariantClocked(w, before, call.now);
    var a, b := LedgerOf(w), LedgerOf(Next(w, call));
    assert b.holdings == a.holdings;
    assert StakedIds(b) == StakedIds(a);
  }

  lemma FreshAsset(w: World, id: Pubkey, owner: Pubkey, now: int)
    requires id !in w.assets
    ensures var next, a := w.(assets := w.assets[id := Asset(owner, None, None)]), LedgerOf(w);
            && LedgerOf(next) == a.(holdings := a.holdings[id := Holding(owner, Fresh)])
            && StakedIds(LedgerOf(next)) == StakedIds(a)
            && WellKept(next.assets[id], now)
  {
    assert StatusOf(Asset(owner, None, None)) == Fresh;
    hide Number, ListOf, LastValue;
    var next, a := w.(assets := w.assets[id := Asset(owner, None, None)]), LedgerOf(w);
    assert LedgerOf(next).holdings == a.holdings[id := Holding(owner, Fresh)];
  }

  lemma SimulatesMintAsset(w: World, before: int, call: Call)
    requires Invariant(w, before) && before <= call.now && call.op.MintAsset?
    ensures Matches(LedgerOf(w), call, Apply(w, call), LedgerOf(Next(w, call)))
    ensures Invariant(Next(w, call), call.now)
  {
    hide WellKept, WellCounted, StatusOf, Number, StakedIds;
    InvariantClocked(w, before, call.now);
    if call.op.id !in w.assets {
      FreshAsset(w, call.op.id, call.signer, call.now);
      hide Sum;
    }
  }

  lemma SimulatesStake(w: World, before: int, call: Call)
    requires Invariant(w, before) && before <= call.now && call.op.Stake?
    ensures Matches(LedgerOf(w), call, Apply(w, call), LedgerOf(Next(w, call)))
    ensures Invariant(Next(w, call), call.now)
  {
    hide WellKept, WellCounted, StatusOf, Number, StakeList, ClaimList, UnstakeList, CounterList, Pay;
    InvariantClocked(w, before, call.now);
    var a, id := LedgerOf(w), call.op.id;
    if Permitted(a, call.signer, id) {
      var asset, r := w.assets[id], StakeList(w.assets[id].attributes, call.now);
      StakeRefines(asset, before, call.now);
      CounterRefines(w.collection, 1);
      if r.Ok? && CounterList(w.collection, 1).Ok? {
        var staked := asset.(attributes := Some(r.value), frozen := Some(true));
        var next := w.(assets := w.assets[id := staked], collection := Some(CounterList(w.collection, 1).value));
        assert Apply(w, call) == Ok((next, Receipt(0, 0)));
        Replaced(w, before, call.now, next, id, staked);
      }
    }
  }

  lemma SimulatesClaim(w: World, before: int, call: Call)
    requires Invariant(w, before) && before <= call.now && call.op.ClaimRewards?
    ensures Matches(LedgerOf(w), call, Apply(w, call), LedgerOf(Next(w, call)))
    ensures Invariant(Next(w, call), call.now)
  {
    hide WellKept, WellCounted, StatusOf, Number, StakeList, ClaimList, UnstakeList, CounterList, Pay;
    InvariantClocked(w, before, call.now);
    var a, id := LedgerOf(w), call.op.id;
    if Permitted(a, call.signer, id) {
      var asset, r := w.assets[id], ClaimList(w.assets[id].attributes, call.now);
      ClaimRefines(asset, before, call.now);
      if r.Ok? {
        var claimed := asset.(attributes := Some(r.value.0));
        var paid := Pay(w.(assets := w.assets[id := claimed]), asset.owner, r.value.1, w.config.value);
        PayRefines(w.(assets := w.assets[id := claimed]), asset.owner, r.value.1, w.config.value);
        if r.value.1 == 0 {
          assert w.assets[id := claimed] == w.assets;
          assert paid.Ok? ==> Apply(w, call) == Ok((w, paid.value.1));
        } else {
          assert Apply(w, call) == paid;
        }
        if paid.Ok? {
          Replaced(w, before, call.now, paid.value.0, id, claimed);
        }
      }
    }
  }

  lemma SimulatesUnstake(w: World, before: int, call: Call)
    requires Invariant(w, before) && before <= call.now && call.op.Unstake?
    ensures Matches(LedgerOf(w), call, Apply(w, call), LedgerOf(Next(w, call)))
    ensures Invariant(Next(w, call), call.now)
  {
    hide WellKept, WellCounted, StatusOf, Number, StakeList, ClaimList, UnstakeList, CounterList, Pay;
    InvariantClocked(w, before, call.now);
    var a, id := LedgerOf(w), call.op.id;
    if Permitted(a, call.signer, id) {
      var asset, r := w.assets[id], UnstakeList(w.assets[id].attributes, call.now, w.config.value.freezePeriod);
      UnstakeRefines(asset, before, call.now, w.config.value.freezePeriod);
      if r.Ok? {
        assert id in StakedIds(a);
        CounterRefines(w.collection, -1);
        var thawed := asset.(attributes := Some(r.value.0), frozen := Some(false));
        var counted := w.(assets := w.assets[id := thawed], collection := Some(CounterList(w.collection, -1).value));
        PayRefines(counted, asset.owner, r.value.1, w.config.value);
        assert Apply(w, call) == Pay(counted, asset.owner, r.value.1, w.config.value);
        if Apply(w, call).Ok? {
          Replaced(w, before, call.now, Apply(w, call).value.0, id, thawed);
        }
      }
    }
  }

  /**
   On every state that satisfies the invariant, at any later time, a call on the attribute lists succeeds
   exactly when the abstract step is enabled, pays what the abstract step pays, leads to the abstract
   successor, and keeps the invariant.
   */
  lemma Simulates(w: World, before: int, call: Call)
    requires Invariant(w, before) && before <= call.now
    ensures Matches(LedgerOf(w), call, Apply(w, call), LedgerOf(Next(w, call)))
    ensures Invariant(Next(w, call), call.now)
  {
    match call.op
    case Initialize(_, _) => SimulatesInitialize(w, before, call);
    case MintAsset(_) => SimulatesMintAsset(w, before, call);
    case Stake(_) => SimulatesStake(w, before, call);
    case ClaimRewards(_) => SimulatesClaim(w, before, call);
    case Unstake(_) => SimulatesUnstake(w, before, call);
  }
}
