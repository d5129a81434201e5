/** What a payout needs: the contributions of the present round, record by record, and how many they must be. */
module FundraiserShares {
  import opened Rust
  import opened FundraiserRecords
  import opened FundraiserRules
  import opened FundraiserChain
  import opened FundraiserInvariant
  import opened FundraiserEffects
  import opened FundraiserRuns
  import opened Sums

  /** What a record has been given in the present round. */
  function ThisRound(log: seq<Step>, account: Key): int {
    if log == [] then 0
    else
      var front, call := log[..|log| - 1], log[|log| - 1].call;
      if call.Initialize? then 0
      else if call.Contribute? && call.account == account then ThisRound(front, account) + call.amount
      else if call.Refund? && call.account == account then 0
      else ThisRound(front, account)
  }

  /** The live records that were given something in the present round, and how much. */
  function Shares(log: seq<Step>, records: map<Key, ContributorRecord>): map<Key, int> {
    map k | k in records && ThisRound(log, k) > 0 :: ThisRound(log, k)
  }

  /** Shares are within their records and the cap, and cover the running total. */
  ghost predicate SharesCover(s: Chain, log: seq<Step>) {
    && (forall k :: 0 <= ThisRound(log, k) <= AmountOf(s, k))
    && (s.fundraiser.Some? ==>
          && (forall k :: ThisRound(log, k) <= Cap(s.fundraiser.value))
          && s.fundraiser.value.current <= Sum(Shares(log, s.records)))
  }

  lemma PushRound(log: seq<Step>, step: Step, k: Key)
    ensures var call := step.call;
            ThisRound(log + [step], k) ==
            if call.Initialize? then 0
            else if call.Contribute? && call.account == k then ThisRound(log, k) + call.amount
            else if call.Refund? && call.account == k then 0
            else ThisRound(log, k)
  {
    assert (log + [step])[..|log|] == log;
  }

  lemma SharesStep(env: Env, s: Chain, before: int, step: Step, log: seq<Step>)
    requires Sound(env, s, before) && WellSigned(env, step.call) && Apply(env, s, step).Ok?
    requires SharesCover(s, log)
    ensures SharesCover(Apply(env, s, step).value, log + [step])
  {
    var next, call, more := Apply(env, s, step).value, step.call, log + [step];
    forall k
      ensures 0 <= ThisRound(more, k) <= AmountOf(next, k)
      ensures ThisRound(more, k) == ThisRound(log, k) || ThisRound(more, k) == 0
              || (call.Contribute? && call.account == k)
    {
      PushRound(log, step, k);
      RecordedStep(env, s, step, k);
      hide Apply, Sound;
    }
    forall k | next.fundraiser.Some?
      ensures ThisRound(more, k) <= Cap(next.fundraiser.value)
    {
      ShareWithinCap(env, s, before, step, log, k);
    }
    if next.fundraiser.Some? {
      TotalCovered(env, s, before, step, log);
    }
    hide Apply, Sound;
  }

  lemma ShareWithinCap(env: Env, s: Chain, before: int, step: Step, log: seq<Step>, k: Key)
    requires Sound(env, s, before) && WellSigned(env, step.call) && Apply(env, s, step).Ok?
    requires SharesCover(s, log) && Apply(env, s, step).value.fundraiser.Some?
    ensures ThisRound(log + [step], k) <= Cap(Apply(env, s, step).value.fundraiser.value)
  {
    PushRound(log, step, k);
    VaultStep(env, s, before, step);
    if step.call.Contribute? {
      ContributeEffect(env, s, step);
    }
    hide Apply, Sound;
  }

  /** Which records are there after a successful step. */
  lemma RecordsStep(env: Env, s: Chain, step: Step)
    requires WellSigned(env, step.call) && Apply(env, s, step).Ok?
    ensures var next, call := Apply(env, s, step).value, step.call;
            if call.Contribute? then
              call.account in next.records && next.records == s.records[call.account := next.records[call.account]]
            else if call.Refund? then next.records == s.records - {call.account}
            else next.records == s.records
  {
    match step.call {
      case Initialize(_, _, _, _, _) =>
        InitializeEffect(env, s, step);
        hide Apply;
      case Contribute(_, _, _, _, _) =>
        ContributeEffect(env, s, step);
        hide Apply;
      case CheckContributions(_, _) =>
        CheckEffect(env, s, step);
        hide Apply;
      case Refund(_, _, _, _) =>
        RefundEffect(env, s, step);
        hide Apply;
      case OpenAccount(_, _) =>
      case MintTo(_, _, _) =>
      case Send(_, _, _, _) =>
    }
  }

  lemma SharesPut(log: seq<Step>, step: Step, records: map<Key, ContributorRecord>, r: ContributorRecord)
    requires step.call.Contribute? && ThisRound(log, step.call.account) >= 0
    requires step.call.account !in records ==> ThisRound(log, step.call.account) == 0
    ensures Sum(Shares(log + [step], records[step.call.account := r])) ==
            Sum(Shares(log, records)) + step.call.amount
  {
    var k := step.call.account;
    var before, after := Shares(log, records), Shares(log + [step], records[k := r]);
    forall j
      ensures ThisRound(log + [step], j) == ThisRound(log, j) + if j == k then step.call.amount else 0
    {
      PushRound(log, step, j);
    }
    hide ThisRound;
    var share := ThisRound(log, k) + step.call.amount;
    if share > 0 {
      assert after == before[k := share];
      SumPut(before, k, share);
    } else {
      assert after == before;
    }
  }

  lemma SharesDrop(log: seq<Step>, step: Step, records: map<Key, ContributorRecord>)
    requires step.call.Refund? && ThisRound(log, step.call.account) >= 0
    requires step.call.account !in records ==> ThisRound(log, step.call.account) == 0
    ensures Sum(Shares(log + [step], records - {step.call.account})) ==
            Sum(Shares(log, records)) - ThisRound(log, step.call.account)
  {
    var k := step.call.account;
    var before, after := Shares(log, records), Shares(log + [step], records - {k});
    forall j
      ensures ThisRound(log + [step], j) == if j == k then 0 else ThisRound(log, j)
    {
      PushRound(log, step, j);
    }
    hide ThisRound;
    assert after == before - {k};
    if k in before {
      SumSplit(before, k);
    } else {
      assert after == before;
    }
  }

  lemma SharesSame(log: seq<Step>, step: Step, records: map<Key, ContributorRecord>)
    requires !step.call.Contribute? && !step.call.Refund?
    ensures Sum(Shares(log + [step], records)) == if step.call.Initialize? then 0 else Sum(Shares(log, records))
  {
    forall j
      ensures ThisRound(log + [step], j) == if step.call.Initialize? then 0 else ThisRound(log, j)
    {
      PushRound(log, step, j);
    }
    hide ThisRound;
    assert Shares(log + [step], records) == if step.call.Initialize? then map[] else Shares(log, records);
  }

  /** What a successful step does to the sum of the shares. */
  lemma SharesSum(env: Env, s: Chain, step: Step, log: seq<Step>)
    requires WellSigned(env, step.call) && Apply(env, s, step).Ok? && SharesCover(s, log)
    ensures var call, sum := step.call, Sum(Shares(log + [step], Apply(env, s, step).value.records));
            sum == if call.Initialize? then 0
                   else Sum(Shares(log, s.records))
                        + (if call.Contribute? then call.amount else 0)
                        - (if call.Refund? then ThisRound(log, call.account) else 0)
  {
    RecordsStep(env, s, step);
    var records, call := Apply(env, s, step).value.records, step.call;
    hide Apply, Shares, ThisRound;
    if call.Contribute? {
      assert 0 <= ThisRound(log, call.account) <= AmountOf(s, call.account);
      SharesPut(log, step, s.records, records[call.account]);
    } else if call.Refund? {
      assert 0 <= ThisRound(log, call.account) <= AmountOf(s, call.account);
      SharesDrop(log, step, s.records);
    } else {
      SharesSame(log, step, records);
    }
  }

  lemma TotalCovered(env: Env, s: Chain, before: int, step: Step, log: seq<Step>)
    requires Sound(env, s, before) && WellSigned(env, step.call) && Apply(env, s, step).Ok?
    requires SharesCover(s, log) && Apply(env, s, step).value.fundraiser.Some?
    ensures Apply(env, s, step).value.fundraiser.value.current <=
            Sum(Shares(log + [step], Apply(env, s, step).value.records))
  {
    VaultStep(env, s, before, step);
    SharesSum(env, s, step, log);
    hide Apply, Sound, Shares;
    if step.call.Refund? {
      assert ThisRound(log, step.call.account) <= AmountOf(s, step.call.account);
    }
  }

  lemma {:induction false} SharesHold(env: Env, s: Chain, start: int, steps: seq<Step>)
    requires Start(env, s) && Proper(env, start, steps)
    ensures SharesCover(Run(env, s, steps), Log(env, s, steps))
    decreases |steps|
  {
    StartInvariant(env, s, start);
    if steps != [] {
      var front, step := steps[..|steps| - 1], steps[|steps| - 1];
      LastStep(env, s, start, steps);
      hide Start, Apply, Sound, SupplyOf, Run, Log, SharesCover;
      SharesHold(env, s, start, front);
      if Apply(env, Run(env, s, front), step).Ok? {
        SharesStep(env, Run(env, s, front), EndTime(start, front), step, Log(env, s, front));
      }
    }
  }

  /**
   The bound of ten: in any round, records carried over or not, check_contributions without direct deposits can
   only succeed with at least ten live records contributed to in that round, and with at least eleven if ten
   does not divide the target.
   */
  lemma TenRecords(env: Env, s: Chain, start: int, steps: seq<Step>, check: Step)
    requires Start(env, s) && Proper(env, start, steps) && Direct(env, Log(env, s, steps)) == 0
    requires check.call.CheckContributions? && WellSigned(env, check.call) && Apply(env, Run(env, s, steps), check).Ok?
    ensures var end, shares := Run(env, s, steps), Shares(Log(env, s, steps), Run(env, s, steps).records);
            && end.fundraiser.Some?
            && var f := end.fundraiser.value;
               && |end.records| >= |shares| >= 10
               && (f.target % 10 != 0 ==> |shares| >= 11)
               && f.mint in env.decimals
               && (Carried(env, s, steps) == 0 ==> |end.records| * Pow10(env.decimals[f.mint]) <= f.current)
  {
    var end, log := Run(env, s, steps), Log(env, s, steps);
    CheckEffect(env, end, check);
    hide Apply;
    LedgerHolds(env, s, start, steps, Key(env.maker, env.bump));
    SharesHold(env, s, start, steps);
    StartInvariant(env, s, start);
    RunKeepsInvariant(env, s, start, steps);
    hide Run, Log, Start, SupplyOf;
    var f, shares := end.fundraiser.value, Shares(log, end.records);
    SumBounds(shares, 0, Cap(f));
    SetSize(shares.Keys, end.records.Keys);
    TenthsNeeded(|shares|, f.target);
    if Carried(env, s, steps) == 0 {
      CleanRound(env, s, start, steps);
      AtLeastUnits(env, end);
    }
  }

  lemma AtLeastUnits(env: Env, s: Chain)
    requires s.fundraiser.Some? && RecordsWithinLimits(env, s) && s.fundraiser.value.mint in env.decimals
    ensures |s.records| * Pow10(env.decimals[s.fundraiser.value.mint]) <= Recorded(s)
  {
    SumBounds(Amounts(s.records), Pow10(env.decimals[s.fundraiser.value.mint]), Cap(s.fundraiser.value));
    assert |Amounts(s.records)| == |s.records| by {
      assert Amounts(s.records).Keys == s.records.Keys;
    }
  }

  lemma SetSize<T>(a: set<T>, b: set<T>)
    requires a <= b
    ensures |a| <= |b|
  {
    assert b == a + (b - a);
  }

  lemma TenthsNeeded(n: nat, target: nat)
    requires target > 0 && n * (target * 10 / 100) >= target
    ensures n >= 10 && (target % 10 != 0 ==> n >= 11)
  {
    Times(n, 9, target * 10 / 100);
    Times(n, 10, target * 10 / 100);
  }

  lemma Times(n: nat, m: nat, x: nat)
    ensures n <= m ==> n * x <= m * x
  {
  }
}
