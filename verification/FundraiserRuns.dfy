/**
 What holds along whole runs of the fundraiser: any number of contributors, failed steps, refunds, rounds
 and tokens placed directly in the vault, at non-decreasing times.
 */
module FundraiserRuns {
  import opened Rust
  import opened FundraiserRecords
  import opened FundraiserRules
  import opened FundraiserChain
  import opened FundraiserInvariant
  import opened FundraiserEffects
  import opened Sums

  // ---------------------------------------------------------------- runs

  ghost function Run(env: Env, s: Chain, steps: seq<Step>): Chain {
    if steps == [] then s else Next(env, Run(env, s, steps[..|steps| - 1]), steps[|steps| - 1])
  }

  /** Well-signed steps, none earlier than `start` or than a step before it. */
  predicate Proper(env: Env, start: int, steps: seq<Step>) {
    && (forall i | 0 <= i < |steps| :: WellSigned(env, steps[i].call) && start <= steps[i].now)
    && (forall i, j | 0 <= i < j < |steps| :: steps[i].now <= steps[j].now)
  }

  function EndTime(start: int, steps: seq<Step>): int {
    if steps == [] then start else steps[|steps| - 1].now
  }

  /** The successful steps of a run. */
  ghost function Log(env: Env, s: Chain, steps: seq<Step>): seq<Step> {
    if steps == [] then []
    else
      var front, step := steps[..|steps| - 1], steps[|steps| - 1];
      Log(env, s, front) + if Apply(env, Run(env, s, front), step).Ok? then [step] else []
  }

  /** The end of a run in terms of its last step, and the invariant at both of its ends. */
  lemma {:induction false} RunKeepsInvariant(env: Env, s: Chain, start: int, steps: seq<Step>)
    requires Invariant(env, s, start) && Proper(env, start, steps)
    ensures Invariant(env, Run(env, s, steps), EndTime(start, steps))
    decreases |steps|
  {
    hide Invariant, WellSigned, Apply, Next;
    if steps != [] {
      var front, step := steps[..|steps| - 1], steps[|steps| - 1];
      RunKeepsInvariant(env, s, start, front);
      StepKeepsInvariant(env, Run(env, s, front), EndTime(start, front), step);
    }
  }

  lemma LastStep(env: Env, s: Chain, start: int, steps: seq<Step>)
    requires Invariant(env, s, start) && Proper(env, start, steps) && steps != []
    ensures var front, step := steps[..|steps| - 1], steps[|steps| - 1];
            && Proper(env, start, front) && EndTime(start, front) <= step.now && WellSigned(env, step.call)
            && Invariant(env, Run(env, s, front), EndTime(start, front))
            && match Apply(env, Run(env, s, front), step)
               case Ok(next) => Run(env, s, steps) == next && Log(env, s, steps) == Log(env, s, front) + [step]
               case Err(_) => Run(env, s, steps) == Run(env, s, front) && Log(env, s, steps) == Log(env, s, front)
  {
    hide Invariant, Apply;
    RunKeepsInvariant(env, s, start, steps[..|steps| - 1]);
  }

  // ---------------------------------------------------------------- conservation over runs

  /** Tokens minted along a log, in one mint. */
  function MintedIn(log: seq<Step>, mint: Pubkey): nat {
    if log == [] then 0 else MintedIn(log[..|log| - 1], mint) + MintedBy(log[|log| - 1].call, mint)
  }

  /** Along every run, whoever takes part, tokens only come from minting and lamports are never created or lost. */
  lemma {:induction false} RunConserves(env: Env, s: Chain, start: int, steps: seq<Step>, mint: Pubkey)
    requires Invariant(env, s, start) && Proper(env, start, steps)
    ensures SupplyOf(Run(env, s, steps), mint) == SupplyOf(s, mint) + MintedIn(Log(env, s, steps), mint)
    ensures Sum(Run(env, s, steps).lamports) == Sum(s.lamports)
    decreases |steps|
  {
    if steps != [] {
      var front, step := steps[..|steps| - 1], steps[|steps| - 1];
      LastStep(env, s, start, steps);
      hide Invariant, Apply, SupplyOf;
      RunConserves(env, s, start, front, mint);
      if Apply(env, Run(env, s, front), step).Ok? {
        StepConserves(env, Run(env, s, front), step, mint);
        assert (Log(env, s, front) + [step])[..|Log(env, s, front)|] == Log(env, s, front);
      }
    }
  }

  // ---------------------------------------------------------------- the ledger of a round

  /** Tokens a step places directly in the vault. */
  function DirectBy(env: Env, call: Call): nat {
    if call.MintTo? && call.owner == env.address then call.amount
    else if call.Send? && call.to == env.address then call.amount
    else 0
  }

  /** Tokens placed directly in the vault since it was last opened. */
  function Direct(env: Env, log: seq<Step>): nat {
    if log == [] then 0
    else
      var front, call := log[..|log| - 1], log[|log| - 1].call;
      if call.Initialize? then 0 else Direct(env, front) + DirectBy(env, call)
  }

  /** Successful initializations. */
  function Rounds(log: seq<Step>): nat {
    if log == [] then 0 else Rounds(log[..|log| - 1]) + if log[|log| - 1].call.Initialize? then 1 else 0
  }

  /** What a record has been given since it was created, by its contributions. */
  function Contributed(log: seq<Step>, account: Key): int {
    if log == [] then 0
    else
      var front, call := log[..|log| - 1], log[|log| - 1].call;
      if call.Contribute? && call.account == account then Contributed(front, account) + call.amount
      else if call.Refund? && call.account == account then 0
      else Contributed(front, account)
  }

  lemma PushStep(env: Env, log: seq<Step>, step: Step, account: Key)
    ensures var more, call := log + [step], step.call;
            && Direct(env, more) == (if call.Initialize? then 0 else Direct(env, log) + DirectBy(env, call))
            && Rounds(more) == Rounds(log) + (if call.Initialize? then 1 else 0)
            && Contributed(more, account) ==
               (if call.Contribute? && call.account == account then Contributed(log, account) + call.amount
                else if call.Refund? && call.account == account then 0
                else Contributed(log, account))
  {
    assert (log + [step])[..|log|] == log;
  }

  function Amounts(records: map<Key, ContributorRecord>): map<Key, int> {
    map k | k in records :: records[k].amount
  }

  /** The sum of the amounts of all live contributor records. */
  ghost function Recorded(s: Chain): int {
    Sum(Amounts(s.records))
  }

  /** Record amounts left over from earlier rounds when the present round began. */
  ghost function Carried(env: Env, s: Chain, steps: seq<Step>): int {
    if steps == [] then 0
    else
      var front, step := steps[..|steps| - 1], steps[|steps| - 1];
      if step.call.Initialize? && Apply(env, Run(env, s, front), step).Ok? then Recorded(Run(env, s, front))
      else Carried(env, s, front)
  }

  /** The books of an open fundraiser: the vault, the running total and the records agree. */
  ghost predicate Books(env: Env, s: Chain, direct: int, carried: int) {
    s.fundraiser.Some? ==>
      var f := s.fundraiser.value;
      && VaultOf(env, f) in s.tokens
      && s.tokens[VaultOf(env, f)] == f.current + direct
      && Recorded(s) == f.current + carried
  }

  lemma RecordedPut(records: map<Key, ContributorRecord>, account: Key, r: ContributorRecord)
    ensures Sum(Amounts(records[account := r])) ==
            Sum(Amounts(records)) + r.amount - if account in records then records[account].amount else 0
  {
    assert Amounts(records[account := r]) == Amounts(records)[account := r.amount];
    SumPut(Amounts(records), account, r.amount);
  }

  lemma RecordedDrop(records: map<Key, ContributorRecord>, account: Key)
    requires account in records
    ensures Sum(Amounts(records - {account})) == Sum(Amounts(records)) - records[account].amount
  {
    assert Amounts(records - {account}) == Amounts(records) - {account};
    SumSplit(Amounts(records), account);
  }

  /** What a successful step does to the amounts on record. */
  lemma RecordedStep(env: Env, s: Chain, step: Step, account: Key)
    requires WellSigned(env, step.call) && Apply(env, s, step).Ok?
    ensures var next, call := Apply(env, s, step).value, step.call;
            && Recorded(next) == Recorded(s)
               + (if call.Contribute? then call.amount else 0)
               - (if call.Refund? then AmountOf(s, call.account) else 0)
            && AmountOf(next, account) ==
               (if call.Contribute? && call.account == account then AmountOf(s, account) + call.amount
                else if call.Refund? && call.account == account then 0
                else AmountOf(s, account))
  {
    var call, next := step.call, Apply(env, s, step).value;
    match call {
      case Initialize(_, _, _, _, _) =>
        InitializeEffect(env, s, step);
      case Contribute(_, _, _, _, _) =>
        ContributeEffect(env, s, step);
        hide Apply;
        RecordedPut(s.records, call.account, next.records[call.account]);
      case CheckContributions(_, _) =>
        CheckEffect(env, s, step);
      case Refund(_, _, _, _) =>
        RefundEffect(env, s, step);
        hide Apply;
        RecordedDrop(s.records, call.account);
      case OpenAccount(_, _) =>
      case MintTo(_, _, _) =>
      case Send(_, _, _, _) =>
    }
  }

  /** What a successful step does to the running total and to the vault of an open fundraiser. */
  lemma VaultStep(env: Env, s: Chain, before: int, step: Step)
    requires Sound(env, s, before) && WellSigned(env, step.call) && Apply(env, s, step).Ok?
    ensures var next, call := Apply(env, s, step).value, step.call;
            && (next.fundraiser.Some? <==> (s.fundraiser.Some? && !call.CheckContributions?) || call.Initialize?)
            && (call.Initialize? ==> s.fundraiser.None?)
            && (call.Contribute? || call.Refund? || call.CheckContributions? ==> s.fundraiser.Some?)
            && (next.fundraiser.Some? ==>
                  var g := next.fundraiser.value;
                  && VaultOf(env, g) in next.tokens
                  && if call.Initialize? then
                       g.current == 0 == next.tokens[VaultOf(env, g)]
                     else
                       var f := s.fundraiser.value;
                       && g == f.(current := g.current)
                       && VaultOf(env, f) in s.tokens
                       && g.current == f.current
                          + (if call.Contribute? then call.amount else 0)
                          - (if call.Refund? then AmountOf(s, call.account) else 0)
                       && next.tokens[VaultOf(env, g)] ==
                          s.tokens[VaultOf(env, f)] + (g.current - f.current) + DirectBy(env, call))
  {
    match step.call {
      case Initialize(_, _, _, _, _) =>
        InitializeEffect(env, s, step);
        hide Apply;
      case Contribute(_, _, _, _, _) =>
        ContributeEffect(env, s, step);
        hide Apply;
      case CheckContributions(_, _) =>
        CheckEffect(env, s, step);
        hide Apply;
      case Refund(_, _, _, _) =>
        RefundEffect(env, s, step);
        hide Apply;
      case OpenAccount(_, _) =>
      case MintTo(_, _, _) =>
      case Send(_, _, _, _) =>
    }
  }

  lemma BooksStep(env: Env, s: Chain, before: int, step: Step, direct: int, carried: int)
    requires Sound(env, s, before) && WellSigned(env, step.call) && Apply(env, s, step).Ok?
    requires Books(env, s, direct, carried)
    ensures Books(env, Apply(env, s, step).value,
                  if step.call.Initialize? then 0 else direct + DirectBy(env, step.call),
                  if step.call.Initialize? then Recorded(s) else carried)
  {
    VaultStep(env, s, before, step);
    RecordedStep(env, s, step, Key(env.maker, env.bump));
    hide Sound, Apply, Recorded;
  }

  /**
   The ledger over all runs, closed and reopened rounds included: the vault holds the running total plus the
   tokens placed directly in it this round, and the live records add up to the running total plus what they
   carried over from earlier rounds; each record holds exactly what was contributed to it.
   */
  lemma {:induction false} LedgerHolds(env: Env, s: Chain, start: int, steps: seq<Step>, account: Key)
    requires Start(env, s) && Proper(env, start, steps)
    ensures var end, log := Run(env, s, steps), Log(env, s, steps);
            && Books(env, end, Direct(env, log), Carried(env, s, steps))
            && Carried(env, s, steps) >= 0
            && AmountOf(end, account) == Contributed(log, account)
    decreases |steps|
  {
    StartInvariant(env, s, start);
    if steps != [] {
      var front, step := steps[..|steps| - 1], steps[|steps| - 1];
      var w, log := Run(env, s, front), Log(env, s, front);
      LastStep(env, s, start, steps);
      hide Invariant, Start, Apply, Books, Run, Log, Proper;
      LedgerHolds(env, s, start, front, account);
      InvariantSound(env, w, EndTime(start, front));
      if Apply(env, w, step).Ok? {
        BooksStep(env, w, EndTime(start, front), step, Direct(env, log), Carried(env, s, front));
        RecordedStep(env, w, step, account);
        PushStep(env, log, step, account);
        SumNonNegative(Amounts(w.records));
      }
    }
  }

  /** The step that opened the present or last round. */
  function LastOpening(log: seq<Step>): Option<Step> {
    if log == [] then None
    else if log[|log| - 1].call.Initialize? then Some(log[|log| - 1])
    else LastOpening(log[..|log| - 1])
  }

  /** The terms of an open round are those of its initialize, from its first to its last moment. */
  lemma {:induction false} RoundTerms(env: Env, s: Chain, start: int, steps: seq<Step>)
    requires Start(env, s) && Proper(env, start, steps) && Run(env, s, steps).fundraiser.Some?
    ensures var f, opening := Run(env, s, steps).fundraiser.value, LastOpening(Log(env, s, steps));
            && opening.Some? && opening.value.call.Initialize?
            && var call := opening.value.call;
               && f.maker == call.maker == env.maker && f.bump == call.bump == env.bump
               && f.mint == call.mint && f.target == call.amount && f.duration == call.duration
               && f.started == opening.value.now
    decreases |steps|
  {
    StartInvariant(env, s, start);
    if steps != [] {
      var front, step := steps[..|steps| - 1], steps[|steps| - 1];
      var w, log := Run(env, s, front), Log(env, s, front);
      LastStep(env, s, start, steps);
      hide Invariant, Start, Apply, Run, Log, Proper;
      InvariantSound(env, w, EndTime(start, front));
      if Apply(env, w, step).Ok? {
        assert (log + [step])[..|log|] == log;
        VaultStep(env, w, EndTime(start, front), step);
        if step.call.Initialize? {
          InitializeEffect(env, w, step);
        } else {
          RoundTerms(env, s, start, front);
        }
      } else {
        RoundTerms(env, s, start, front);
      }
    }
  }

  // ---------------------------------------------------------------- rounds that carry nothing over

  ghost predicate Positive(s: Chain) {
    forall k <- s.records :: s.records[k].amount > 0
  }

  lemma PositiveStep(env: Env, s: Chain, step: Step)
    requires WellSigned(env, step.call) && Apply(env, s, step).Ok? && Positive(s)
    ensures Positive(Apply(env, s, step).value)
  {
    match step.call {
      case Initialize(_, _, _, _, _) =>
        InitializeEffect(env, s, step);
        hide Apply;
      case Contribute(_, _, _, _, _) =>
        ContributeEffect(env, s, step);
        hide Apply;
      case CheckContributions(_, _) =>
        CheckEffect(env, s, step);
        hide Apply;
      case Refund(_, _, _, _) =>
        RefundEffect(env, s, step);
        hide Apply;
      case OpenAccount(_, _) =>
      case MintTo(_, _, _) =>
      case Send(_, _, _, _) =>
    }
  }

  /** Every live record of every reachable state holds something, so the sum is zero only without records. */
  lemma {:induction false} RecordsPositive(env: Env, s: Chain, start: int, steps: seq<Step>)
    requires Start(env, s) && Proper(env, start, steps)
    ensures Positive(Run(env, s, steps))
    ensures Recorded(Run(env, s, steps)) == 0 <==> Run(env, s, steps).records == map[]
    decreases |steps|
  {
    StartInvariant(env, s, start);
    if steps != [] {
      var front, step := steps[..|steps| - 1], steps[|steps| - 1];
      LastStep(env, s, start, steps);
      hide Start, Apply, Invariant, Run, Log, Positive, Recorded;
      RecordsPositive(env, s, start, front);
      if Apply(env, Run(env, s, front), step).Ok? {
        PositiveStep(env, Run(env, s, front), step);
      }
    }
    hide Start, Invariant, Run, Recorded, Positive;
    NothingRecorded(Run(env, s, steps));
  }

  lemma NothingRecorded(s: Chain)
    requires Positive(s)
    ensures Recorded(s) == 0 <==> s.records == map[]
  {
    if k :| k in s.records {
      assert Amounts(s.records)[k] == s.records[k].amount;
      SumAtLeast(Amounts(s.records), k);
    } else {
      assert Amounts(s.records) == map[];
    }
  }

  /** In a round that carries nothing over, however many went before: every record is within its limits. */
  lemma {:induction false} CleanRound(env: Env, s: Chain, start: int, steps: seq<Step>)
    requires Start(env, s) && Proper(env, start, steps) && Carried(env, s, steps) == 0
    ensures RecordsWithinLimits(env, Run(env, s, steps))
    decreases |steps|
  {
    StartInvariant(env, s, start);
    if steps != [] {
      var front, step := steps[..|steps| - 1], steps[|steps| - 1];
      var w := Run(env, s, front);
      LastStep(env, s, start, steps);
      RecordsPositive(env, s, start, front);
      hide Start, Apply, Sound, SupplyOf, Run, Log, Positive, Recorded;
      if Apply(env, w, step).Ok? {
        if step.call.Initialize? {
          VaultStep(env, w, EndTime(start, front), step);
        } else {
          CleanRound(env, s, start, front);
        }
        LimitsStep(env, w, EndTime(start, front), step);
      } else {
        CleanRound(env, s, start, front);
      }
    }
  }

  /** A first round carries nothing over: before it there is no record. */
  lemma {:induction false} FirstRound(env: Env, s: Chain, start: int, steps: seq<Step>)
    requires Start(env, s) && Proper(env, start, steps) && Rounds(Log(env, s, steps)) <= 1
    ensures Carried(env, s, steps) == 0
    ensures Rounds(Log(env, s, steps)) == 0 ==>
              Run(env, s, steps).fundraiser.None? && Run(env, s, steps).records == map[]
    ensures RecordsWithinLimits(env, Run(env, s, steps))
    decreases |steps|
  {
    StartInvariant(env, s, start);
    if steps != [] {
      var front, step := steps[..|steps| - 1], steps[|steps| - 1];
      var w, log := Run(env, s, front), Log(env, s, front);
      LastStep(env, s, start, steps);
      hide Start, Apply, Sound, SupplyOf, Run, Log, RecordsWithinLimits;
      if Apply(env, w, step).Ok? {
        PushStep(env, log, step, Key(env.maker, env.bump));
        FirstRound(env, s, start, front);
        LimitsStep(env, w, EndTime(start, front), step);
        assert Amounts(map[]) == map[];
      } else {
        FirstRound(env, s, start, front);
      }
    }
  }

  /** Every record of an open fundraiser lies between one token and the cap, and its owner's token account exists. */
  ghost predicate RecordsWithinLimits(env: Env, s: Chain) {
    s.fundraiser.Some? ==>
      var f := s.fundraiser.value;
      forall k <- s.records ::
        && f.mint in env.decimals
        && Pow10(env.decimals[f.mint]) <= s.records[k].amount <= Cap(f)
        && TokenAccount(k.contributor, f.mint) in s.tokens
  }

  lemma LimitsStep(env: Env, s: Chain, before: int, step: Step)
    requires Sound(env, s, before) && WellSigned(env, step.call) && Apply(env, s, step).Ok?
    requires RecordsWithinLimits(env, s) && (step.call.Initialize? ==> s.records == map[])
    ensures s.fundraiser.None? && !step.call.Initialize? ==> Apply(env, s, step).value.fundraiser.None?
    ensures s.fundraiser.None? ==> Apply(env, s, step).value.records == s.records
    ensures RecordsWithinLimits(env, Apply(env, s, step).value)
  {
    match step.call {
      case Initialize(_, _, _, _, _) =>
        InitializeEffect(env, s, step);
        hide Apply;
      case Contribute(_, _, _, _, _) =>
        ContributeEffect(env, s, step);
        hide Apply;
      case CheckContributions(_, _) =>
        CheckEffect(env, s, step);
        hide Apply;
      case Refund(_, _, _, _) =>
        RefundEffect(env, s, step);
        hide Apply;
      case OpenAccount(_, _) =>
      case MintTo(_, _, _) =>
      case Send(_, _, _, _) =>
    }
  }

  /**
   In every round the running total equals the sum of the live records if and only if nothing was carried over
   into it; the vault is then that sum with the direct deposits, and every record is within its limits.
   */
  lemma RoundLedger(env: Env, s: Chain, start: int, steps: seq<Step>)
    requires Start(env, s) && Proper(env, start, steps) && Run(env, s, steps).fundraiser.Some?
    ensures var end := Run(env, s, steps);
            var f := end.fundraiser.value;
            && (f.current == Recorded(end) <==> Carried(env, s, steps) == 0)
            && f.current <= Recorded(end)
            && VaultOf(env, f) in end.tokens
            && (Carried(env, s, steps) == 0 ==>
                  && end.tokens[VaultOf(env, f)] == Recorded(end) + Direct(env, Log(env, s, steps))
                  && RecordsWithinLimits(env, end))
  {
    LedgerHolds(env, s, start, steps, Key(env.maker, env.bump));
    hide Start, Run, Log, Proper, Recorded, RecordsWithinLimits;
    if Carried(env, s, steps) == 0 {
      CleanRound(env, s, start, steps);
    }
  }

  /** The case of a first round, where nothing can be carried over. */
  lemma FirstRoundLedger(env: Env, s: Chain, start: int, steps: seq<Step>)
    requires Start(env, s) && Proper(env, start, steps) && Rounds(Log(env, s, steps)) <= 1
    requires Run(env, s, steps).fundraiser.Some?
    ensures var end := Run(env, s, steps);
            var f := end.fundraiser.value;
            && VaultOf(env, f) in end.tokens
            && f.current == Recorded(end)
            && end.tokens[VaultOf(env, f)] == Recorded(end) + Direct(env, Log(env, s, steps))
            && RecordsWithinLimits(env, end)
  {
    hide Start, Run, Log, Proper, Recorded, RecordsWithinLimits, Carried;
    RoundLedger(env, s, start, steps);
    FirstRound(env, s, start, steps);
  }
}
