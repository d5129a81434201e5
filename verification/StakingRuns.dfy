/**
 What holds along whole runs of the staking program: any number of assets, claims, re-stakes and failed
 calls, at non-decreasing times. Histories are read off the log of successful calls, independently of
 what the accounts store.
 */
module StakingRuns {
  import opened Rust
  import opened Attributes
  import opened Rewards
  import opened StakingErrors
  import opened Staking
  import opened Sessions
  import opened StakingRefinement
  import opened Sums

  // ---------------------------------------------------------------- runs

  /** The accounts after a sequence of calls, failed ones included. */
  function Run(w: World, calls: seq<Call>): World {
    if calls == [] then w else Next(Run(w, calls[..|calls| - 1]), calls[|calls| - 1])
  }

  /** The ledger after the same calls on the abstract machine. */
  function LedgerRun(a: Ledger, calls: seq<Call>): Ledger {
    if calls == [] then a else LedgerNext(LedgerRun(a, calls[..|calls| - 1]), calls[|calls| - 1])
  }

  /** No call is earlier than `start` or than a call before it. */
  predicate Chronological(start: int, calls: seq<Call>) {
    && (forall i | 0 <= i < |calls| :: start <= calls[i].now)
    && (forall i, j | 0 <= i < j < |calls| :: calls[i].now <= calls[j].now)
  }

  function EndTime(start: int, calls: seq<Call>): int {
    if calls == [] then start else calls[|calls| - 1].now
  }

  datatype Event = Event(call: Call, receipt: Receipt)

  /** The successful calls of a run with their receipts. */
  function Log(w: World, calls: seq<Call>): seq<Event> {
    if calls == [] then []
    else
      var front, call := calls[..|calls| - 1], calls[|calls| - 1];
      match Apply(Run(w, front), call)
      case Ok((_, receipt)) => Log(w, front) + [Event(call, receipt)]
      case Err(_) => Log(w, front)
  }

  // ---------------------------------------------------------------- histories

  predicate Concerns(e: Event, id: Pubkey) {
    !e.call.op.Initialize? && e.call.op.id == id
  }

  predicate IsStake(e: Event, id: Pubkey) { e.call.op == Stake(id) }

  predicate IsUnstake(e: Event, id: Pubkey) { e.call.op == Unstake(id) }

  function Stakes(log: seq<Event>, id: Pubkey): nat {
    if log == [] then 0 else Stakes(log[..|log| - 1], id) + if IsStake(log[|log| - 1], id) then 1 else 0
  }

  function Unstakes(log: seq<Event>, id: Pubkey): nat {
    if log == [] then 0 else Unstakes(log[..|log| - 1], id) + if IsUnstake(log[|log| - 1], id) then 1 else 0
  }

  function AllStakes(log: seq<Event>): nat {
    if log == [] then 0 else AllStakes(log[..|log| - 1]) + if log[|log| - 1].call.op.Stake? then 1 else 0
  }

  function AllUnstakes(log: seq<Event>): nat {
    if log == [] then 0 else AllUnstakes(log[..|log| - 1]) + if log[|log| - 1].call.op.Unstake? then 1 else 0
  }

  /** When `id` was last staked. */
  function LastStake(log: seq<Event>, id: Pubkey): int {
    if log == [] then 0
    else if IsStake(log[|log| - 1], id) then log[|log| - 1].call.now
    else LastStake(log[..|log| - 1], id)
  }

  /** Whole days of the closed sessions of `id`, each from its stake to its unstake; claims play no part. */
  function ClosedDays(log: seq<Event>, id: Pubkey): int {
    if log == [] then 0
    else
      var front, e := log[..|log| - 1], log[|log| - 1];
      ClosedDays(front, id) + if IsUnstake(e, id) then SessionDays(LastStake(front, id), e.call.now) else 0
  }

  /** Days paid to `id` by its claims and unstakes. */
  function DaysPaid(log: seq<Event>, id: Pubkey): int {
    if log == [] then 0
    else DaysPaid(log[..|log| - 1], id) + if Concerns(log[|log| - 1], id) then log[|log| - 1].receipt.days else 0
  }

  /** Base units minted for `id` by its claims and unstakes. */
  function Minted(log: seq<Event>, id: Pubkey): int {
    if log == [] then 0
    else Minted(log[..|log| - 1], id) + if Concerns(log[|log| - 1], id) then log[|log| - 1].receipt.minted else 0
  }

  /** Days an open session has paid so far: (last_claim - staked_at) / 86400. */
  function OpenDays(a: Ledger, id: Pubkey): nat {
    if StatusIn(a, id).Staked? then StatusIn(a, id).daysPaid else 0
  }

  lemma PushEvent(log: seq<Event>, e: Event, id: Pubkey)
    ensures var more := log + [e];
            && Stakes(more, id) == Stakes(log, id) + (if IsStake(e, id) then 1 else 0)
            && Unstakes(more, id) == Unstakes(log, id) + (if IsUnstake(e, id) then 1 else 0)
            && AllStakes(more) == AllStakes(log) + (if e.call.op.Stake? then 1 else 0)
            && AllUnstakes(more) == AllUnstakes(log) + (if e.call.op.Unstake? then 1 else 0)
            && LastStake(more, id) == (if IsStake(e, id) then e.call.now else LastStake(log, id))
            && ClosedDays(more, id) ==
               ClosedDays(log, id) + (if IsUnstake(e, id) then (e.call.now - LastStake(log, id)) / 86400 else 0)
            && DaysPaid(more, id) == DaysPaid(log, id) + (if Concerns(e, id) then e.receipt.days else 0)
            && Minted(more, id) == Minted(log, id) + (if Concerns(e, id) then e.receipt.minted else 0)
  {
    assert (log + [e])[..|log|] == log;
  }

  // ---------------------------------------------------------------- refinement over runs

  /** The end of a run in terms of its last call. */
  lemma LastCall(w: World, start: int, calls: seq<Call>)
    requires Invariant(w, start) && Chronological(start, calls) && calls != []
    ensures var front, call := calls[..|calls| - 1], calls[|calls| - 1];
            && Chronological(start, front)
            && EndTime(start, front) <= call.now
            && Invariant(Run(w, front), EndTime(start, front))
            && Invariant(Run(w, calls), EndTime(start, calls))
            && Matches(LedgerOf(Run(w, front)), call, Apply(Run(w, front), call), LedgerOf(Run(w, calls)))
  {
    var front, call := calls[..|calls| - 1], calls[|calls| - 1];
    RunKeepsInvariant(w, start, front);
    Simulates(Run(w, front), EndTime(start, front), call);
  }

  /** The invariant holds at the end of every run, so on every reachable state. */
  lemma {:induction false} RunKeepsInvariant(w: World, start: int, calls: seq<Call>)
    requires Invariant(w, start) && Chronological(start, calls)
    ensures Invariant(Run(w, calls), EndTime(start, calls))
    decreases |calls|
  {
    if calls != [] {
      var front, call := calls[..|calls| - 1], calls[|calls| - 1];
      RunKeepsInvariant(w, start, front);
      Simulates(Run(w, front), EndTime(start, front), call);
    }
  }

  lemma MatchesNext(a: Ledger, call: Call, r: Result<(World, Receipt), StakingError>, b: Ledger)
    requires Matches(a, call, r, b)
    ensures b == LedgerNext(a, call)
  {
  }

  /** Refinement: along every run the attribute lists stand for the ledger that the abstract machine reaches. */
  lemma {:induction false} RunRefines(w: World, start: int, calls: seq<Call>)
    requires Invariant(w, start) && Chronological(start, calls)
    ensures LedgerOf(Run(w, calls)) == LedgerRun(LedgerOf(w), calls)
    decreases |calls|
  {
    hide Invariant, LedgerOf, Matches, Next, LedgerNext;
    if calls != [] {
      var n := |calls| - 1;
      LastCall(w, start, calls);
      RunRefines(w, start, calls[..n]);
      MatchesNext(LedgerOf(Run(w, calls[..n])), calls[n], Apply(Run(w, calls[..n]), calls[n]), LedgerOf(Run(w, calls)));
    }
  }

  /** Along every run, a call succeeds exactly when the abstract machine allows it, and pays what that pays. */
  lemma RunSucceedsAsAllowed(w: World, start: int, calls: seq<Call>, i: nat)
    requires Invariant(w, start) && Chronological(start, calls) && i < |calls|
    ensures var a, r := LedgerRun(LedgerOf(w), calls[..i]), Apply(Run(w, calls[..i]), calls[i]);
            && (r.Ok? <==> Enabled(a, calls[i]))
            && (r.Ok? ==> r.value.1 == Receipt(PaidDays(a, calls[i]), PaidDays(a, calls[i]) * DailyPay(a.config)))
  {
    hide Invariant, LedgerOf, Enabled;
    RunRefines(w, start, calls[..i]);
    LastCall(w, start, calls[..i + 1]);
    assert calls[..i + 1][..i] == calls[..i];
  }

  // ---------------------------------------------------------------- sessions and pay

  /** What one successful abstract step does to the status of `id`. */
  lemma StatusStep(a: Ledger, call: Call, id: Pubkey)
    requires Enabled(a, call) && Clocked(a, call.now)
    ensures var before, after := StatusIn(a, id), StatusIn(After(a, call), id);
            match call.op
            case Initialize(_, _) => after == before && a.config.None?
            case MintAsset(other) => after == before && (other == id ==> before == Fresh && id !in a.holdings)
            case Stake(other) =>
              if other == id then !before.Staked? && after == Staked(call.now, 0) else after == before
            case ClaimRewards(other) =>
              if other == id
              then before.Staked? && after == Staked(before.stakedAt, before.daysPaid + PaidDays(a, call))
              else after == before
            case Unstake(other) =>
              if other == id
              then
                && before.Staked? && after == Idle
                && PaidDays(a, call) == SessionDays(before.stakedAt, call.now) - before.daysPaid
              else after == before
    ensures After(a, call).config == a.config || (a.config.None? && After(a, call).config.Some?)
    ensures a.config.None? ==> call.op.Initialize? || call.op.MintAsset?
    ensures a.holdings.Keys <= After(a, call).holdings.Keys
  {
  }

  /** The stored status of `id` agrees with its history. */
  ghost predicate Agrees(log: seq<Event>, a: Ledger, id: Pubkey) {
    var status := StatusIn(a, id);
    && (status.Staked? ==> status.stakedAt == LastStake(log, id))
    && (status.Fresh? <==> Stakes(log, id) == 0)
    && Stakes(log, id) == Unstakes(log, id) + (if status.Staked? then 1 else 0)
    && DaysPaid(log, id) == ClosedDays(log, id) + OpenDays(a, id)
    && Minted(log, id) == DaysPaid(log, id) * DailyPay(a.config)
    && (a.config.None? || id !in a.holdings ==> DaysPaid(log, id) == 0)
  }

  lemma AgreesStep(log: seq<Event>, a: Ledger, call: Call, e: Event, id: Pubkey)
    requires Agrees(log, a, id) && Enabled(a, call) && Clocked(a, call.now)
    requires e == Event(call, Receipt(PaidDays(a, call), PaidDays(a, call) * DailyPay(a.config)))
    ensures Agrees(log + [e], After(a, call), id)
  {
    StatusStep(a, call, id);
    PushEvent(log, e, id);
    hide Enabled, Clocked, After, Stakes, Unstakes, LastStake, ClosedDays, DaysPaid, Minted, SessionDays;
    Distribute(DaysPaid(log, id), PaidDays(a, call), DailyPay(a.config));
  }

  lemma Distribute(x: int, y: int, unit: int)
    ensures (x + y) * unit == x * unit + y * unit
  {
  }

  /** The log of a run in terms of its last call. */
  lemma LastEvent(w: World, calls: seq<Call>)
    requires calls != []
    ensures var front, call := calls[..|calls| - 1], calls[|calls| - 1];
            match Apply(Run(w, front), call)
            case Ok((next, receipt)) => Log(w, calls) == Log(w, front) + [Event(call, receipt)] && Run(w, calls) == next
            case Err(_) => Log(w, calls) == Log(w, front) && Run(w, calls) == Run(w, front)
  {
  }

  /**
   From the start of the program, along every run, for every asset: stakes and unstakes alternate, the open
   session began at the last stake, the days paid are the whole days of the closed sessions plus those of the
   open one whatever claims were made, and each paid day minted the same amount.
   */
  lemma {:induction false} HistoryAgrees(start: int, calls: seq<Call>, id: Pubkey)
    requires Chronological(start, calls)
    ensures Agrees(Log(GENESIS, calls), LedgerOf(Run(GENESIS, calls)), id)
    decreases |calls|
  {
    GenesisInvariant(start);
    if calls != [] {
      var front, call := calls[..|calls| - 1], calls[|calls| - 1];
      LastCall(GENESIS, start, calls);
      HistoryAgrees(start, front, id);
      LastEvent(GENESIS, calls);
      var a, r := LedgerOf(Run(GENESIS, front)), Apply(Run(GENESIS, front), call);
      hide Invariant, LedgerOf, Apply, Next, Run, Agrees, Enabled, Clocked, After;
      if r.Ok? {
        AgreesStep(Log(GENESIS, front), a, call, Event(call, r.value.1), id);
      }
    }
  }

  // ---------------------------------------------------------------- supply and balances

  /** Days paid to a set of assets. */
  ghost function PaidTo(log: seq<Event>, ids: set<Pubkey>): int {
    Sum(map id | id in ids :: DaysPaid(log, id))
  }

  lemma PaidToPush(log: seq<Event>, e: Event, ids: set<Pubkey>)
    ensures PaidTo(log + [e], ids) ==
            PaidTo(log, ids) + if !e.call.op.Initialize? && e.call.op.id in ids then e.receipt.days else 0
  {
    var before, after := map id | id in ids :: DaysPaid(log, id), map id | id in ids :: DaysPaid(log + [e], id);
    forall id <- ids
      ensures after[id] == before[id] + if Concerns(e, id) then e.receipt.days else 0
    {
      PushEvent(log, e, id);
    }
    if !e.call.op.Initialize? && e.call.op.id in ids {
      var id := e.call.op.id;
      assert after == before[id := before[id] + e.receipt.days];
      SumPut(before, id, before[id] + e.receipt.days);
    } else {
      assert after == before;
    }
  }

  lemma PaidToGrow(log: seq<Event>, ids: set<Pubkey>, id: Pubkey)
    requires id !in ids && DaysPaid(log, id) == 0
    ensures PaidTo(log, ids + {id}) == PaidTo(log, ids)
  {
    hide DaysPaid;
    var m := map i | i in ids :: DaysPaid(log, i);
    assert (map i | i in ids + {id} :: DaysPaid(log, i)) == m[id := 0];
    SumPut(m, id, 0);
  }

  /** The assets of `owner`, or all assets. */
  function Portfolio(a: Ledger, owner: Option<Pubkey>): set<Pubkey> {
    set id | id in a.holdings && (owner.Some? ==> a.holdings[id].owner == owner.value)
  }

  /** One successful call adds what it pays to the portfolios it belongs to, and to no other. */
  lemma PortfolioStep(log: seq<Event>, a: Ledger, call: Call, e: Event, owner: Option<Pubkey>)
    requires Enabled(a, call) && Clocked(a, call.now)
    requires e.call == call && e.receipt.days == PaidDays(a, call)
    requires call.op.MintAsset? ==> DaysPaid(log, call.op.id) == 0
    ensures PaidTo(log + [e], Portfolio(After(a, call), owner)) ==
            PaidTo(log, Portfolio(a, owner))
            + if owner.None? || owner.value == call.signer then PaidDays(a, call) else 0
  {
    var before, after := Portfolio(a, owner), Portfolio(After(a, call), owner);
    if call.op.MintAsset? && (owner.None? || owner.value == call.signer) {
      assert after == before + {call.op.id};
      PaidToGrow(log, before, call.op.id);
    } else {
      assert after == before;
    }
    hide Portfolio, After, Clocked, PaidTo;
    PaidToPush(log, e, after);
  }

  /** What `owner` received in all, or what was ever minted. */
  function Received(w: World, owner: Option<Pubkey>): int {
    if owner.None? then w.supply else RewardsOf(w, owner.value)
  }

  /** Only the signer of a claim or unstake receives tokens, exactly those of the receipt; the supply grows by
      the same. */
  lemma ReceivedMove(w: World, call: Call, owner: Option<Pubkey>)
    requires Apply(w, call).Ok?
    ensures var (next, receipt) := Apply(w, call).value;
            Received(next, owner) ==
            Received(w, owner) + if owner.None? || owner.value == call.signer then receipt.minted else 0
  {
    hide CounterList, StakeList, UnstakeList, ClaimList, RewardAmount;
  }

  /** What `owner` received is the pay for the days paid to the assets of `owner`. */
  ghost predicate Funded(log: seq<Event>, w: World, owner: Option<Pubkey>) {
    && Received(w, owner) == PaidTo(log, Portfolio(LedgerOf(w), owner)) * DailyPay(w.config)
    && (w.config.None? ==> PaidTo(log, Portfolio(LedgerOf(w), owner)) == 0)
  }

  lemma FundedStep(log: seq<Event>, w: World, call: Call, next: World, owner: Option<Pubkey>)
    requires Funded(log, w, owner) && Apply(w, call).Ok? && Apply(w, call).value.0 == next
    requires Matches(LedgerOf(w), call, Apply(w, call), LedgerOf(next))
    requires call.op.MintAsset? ==> DaysPaid(log, call.op.id) == 0
    ensures Funded(log + [Event(call, Apply(w, call).value.1)], next, owner)
  {
    hide Apply, LedgerOf, Enabled, Clocked, After, PaidTo, Portfolio, Received, PaidDays, DailyPay;
    var a, e := LedgerOf(w), Event(call, Apply(w, call).value.1);
    ReceivedMove(w, call, owner);
    StatusStep(a, call, call.signer);
    PortfolioStep(log, a, call, e, owner);
    LedgerFields(w);
    LedgerFields(next);
    Distribute(PaidTo(log, Portfolio(a, owner)), e.receipt.days, DailyPay(w.config));
    if w.config.None? {
      NothingPaid(a, call);
    }
  }

  lemma LedgerFields(w: World)
    ensures LedgerOf(w).config == w.config && LedgerOf(w).supply == w.supply
    ensures LedgerOf(w).holdings.Keys == w.assets.Keys
    ensures forall id <- w.assets :: LedgerOf(w).holdings[id].owner == w.assets[id].owner
  {
  }

  lemma NothingPaid(a: Ledger, call: Call)
    requires a.config.None? && Enabled(a, call)
    ensures PaidDays(a, call) == 0
  {
  }

  lemma {:induction false} RunFunded(start: int, calls: seq<Call>, owner: Option<Pubkey>)
    requires Chronological(start, calls)
    ensures Funded(Log(GENESIS, calls), Run(GENESIS, calls), owner)
    decreases |calls|
  {
    GenesisInvariant(start);
    if calls == [] {
      assert (map id | id in Portfolio(LedgerOf(GENESIS), owner) :: DaysPaid([], id)) == map[];
    } else {
      var front, call := calls[..|calls| - 1], calls[|calls| - 1];
      var w := Run(GENESIS, front);
      LastCall(GENESIS, start, calls);
      RunFunded(start, front, owner);
      LastEvent(GENESIS, calls);
      if Apply(w, call).Ok? {
        if call.op.MintAsset? {
          HistoryAgrees(start, front, call.op.id);
        }
        hide Invariant, Funded, Next, Run, Log, Received, PaidTo;
        FundedStep(Log(GENESIS, front), w, call, Run(GENESIS, calls), owner);
      }
    }
  }

  /** Whole days of all sessions of a set of assets: closed ones from stake to unstake, open ones up to the
      reward clock. */
  ghost function EarnedBy(log: seq<Event>, a: Ledger, ids: set<Pubkey>): int {
    Sum(map id | id in ids :: ClosedDays(log, id) + OpenDays(a, id))
  }

  lemma PaidIsEarned(start: int, calls: seq<Call>, ids: set<Pubkey>)
    requires Chronological(start, calls)
    ensures PaidTo(Log(GENESIS, calls), ids) == EarnedBy(Log(GENESIS, calls), LedgerOf(Run(GENESIS, calls)), ids)
  {
    var log, a := Log(GENESIS, calls), LedgerOf(Run(GENESIS, calls));
    hide LedgerOf, Run, Log, ClosedDays, DaysPaid, OpenDays;
    forall id <- ids
      ensures DaysPaid(log, id) == ClosedDays(log, id) + OpenDays(a, id)
    {
      HistoryAgrees(start, calls, id);
    }
    assert (map id | id in ids :: DaysPaid(log, id)) == map id | id in ids :: ClosedDays(log, id) + OpenDays(a, id);
  }

  /** The assets of `owner`. */
  function AssetsOf(w: World, owner: Pubkey): set<Pubkey> {
    set id | id in w.assets && w.assets[id].owner == owner
  }

  lemma PortfolioMeaning(w: World, owner: Option<Pubkey>)
    ensures Portfolio(LedgerOf(w), owner) == if owner.None? then w.assets.Keys else AssetsOf(w, owner.value)
  {
    hide StatusOf, Number, ListOf;
  }

  /**
   Claim-schedule independence for the whole program: however claims, re-stakes, other assets and failed
   calls are interleaved, the supply, and what each owner received, is 100 * rewards_bps base units for every
   whole day of the closed sessions, and for the days between the two clocks of the open ones.
   */
  lemma SupplyBySessions(start: int, calls: seq<Call>, owner: Pubkey)
    requires Chronological(start, calls)
    ensures var w, log := Run(GENESIS, calls), Log(GENESIS, calls);
            var daily := if w.config.Some? then 100 * w.config.value.rewardsBps else 0;
            && w.supply == EarnedBy(log, LedgerOf(w), w.assets.Keys) * daily
            && RewardsOf(w, owner) == EarnedBy(log, LedgerOf(w), AssetsOf(w, owner)) * daily
  {
    var w := Run(GENESIS, calls);
    RunFunded(start, calls, None);
    RunFunded(start, calls, Some(owner));
    PortfolioMeaning(w, None);
    PortfolioMeaning(w, Some(owner));
    hide LedgerOf, Run, Log, PaidTo, EarnedBy, Portfolio;
    PaidIsEarned(start, calls, w.assets.Keys);
    PaidIsEarned(start, calls, AssetsOf(w, owner));
  }
}
