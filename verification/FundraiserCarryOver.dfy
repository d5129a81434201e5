/**
 What a payout leaves behind. check_contributions closes the fundraiser and its vault but no contributor record;
 when the fundraiser is initialized again, those records are carried into the new round, which does not hold
 their tokens.
 */
module FundraiserCarryOver {
  import opened Rust
  import opened FundraiserRecords
  import opened FundraiserRules
  import opened FundraiserChain
  import opened FundraiserInvariant
  import opened FundraiserEffects
  import opened FundraiserRuns
  import opened FundraiserRent
  import opened Sums

  lemma Pushed(env: Env, s: Chain, front: seq<Step>, step: Step)
    requires Apply(env, Run(env, s, front), step).Ok?
    ensures Run(env, s, front + [step]) == Apply(env, Run(env, s, front), step).value
    ensures Log(env, s, front + [step]) == Log(env, s, front) + [step]
    ensures Carried(env, s, front + [step]) ==
            if step.call.Initialize? then Recorded(Run(env, s, front)) else Carried(env, s, front)
  {
    assert (front + [step])[..|front|] == front;
    hide Apply;
  }

  lemma ProperFront(env: Env, start: int, front: seq<Step>, step: Step)
    requires Proper(env, start, front + [step])
    ensures Proper(env, start, front) && WellSigned(env, step.call) && EndTime(start, front) <= step.now
  {
    hide WellSigned;
    var steps := front + [step];
    assert forall i | 0 <= i < |front| :: front[i] == steps[i];
    assert steps[|front|] == step;
  }

  /** A round carries nothing over exactly if there was no live record when it was opened. */
  lemma OpenedClean(env: Env, s: Chain, start: int, history: seq<Step>, init: Step)
    requires Start(env, s) && Proper(env, start, history + [init])
    requires init.call.Initialize? && Apply(env, Run(env, s, history), init).Ok?
    ensures Carried(env, s, history + [init]) == Recorded(Run(env, s, history))
    ensures Carried(env, s, history + [init]) == 0 <==> Run(env, s, history).records == map[]
  {
    hide Start, Proper, Run, Apply, Recorded;
    ProperFront(env, start, history, init);
    Pushed(env, s, history, init);
    RecordsPositive(env, s, start, history);
  }

  /**
   After a payout and a new initialize, every record that was live at the payout is still there with its amount,
   the new total and vault are empty, all of the records' sum is carried over, and the refund of such a record
   fails at every later time on these accounts.
   */
  lemma LeftBehind(env: Env, s: Chain, start: int, history: seq<Step>, check: Step, init: Step, account: Key)
    requires Start(env, s) && Proper(env, start, history + [check] + [init])
    requires check.call.CheckContributions? && Apply(env, Run(env, s, history), check).Ok?
    requires init.call.Initialize? && Apply(env, Run(env, s, history + [check]), init).Ok?
    requires account in Run(env, s, history).records
    ensures var w, end := Run(env, s, history), Run(env, s, history + [check] + [init]);
            && end.fundraiser.Some?
            && var f := end.fundraiser.value;
               && f.current == 0 == TokensIn(end.tokens, VaultOf(env, f))
               && end.records == w.records
               && Carried(env, s, history + [check] + [init]) == Recorded(end) >= end.records[account].amount > 0
               && (forall refund: Step | refund.call == RefundOf(f, account) && init.now <= refund.now ::
                     Apply(env, end, refund).Err?)
  {
    hide Start, Proper, Run, Apply, Invariant, Carried, Log;
    var w, front := Run(env, s, history), history + [check];
    var end := Run(env, s, front + [init]);
    ProperFront(env, start, front, init);
    ProperFront(env, start, history, check);
    Pushed(env, s, history, check);
    Pushed(env, s, front, init);
    CheckEffect(env, w, check);
    InitializeEffect(env, Run(env, s, front), init);
    RecordsPositive(env, s, start, history);
    RecordedAtLeast(end, account);
    StartInvariant(env, s, start);
    RunKeepsInvariant(env, s, start, front + [init]);
    assert EndTime(start, front + [init]) == init.now;
    forall refund: Step | refund.call == RefundOf(end.fundraiser.value, account) && init.now <= refund.now
      ensures Apply(env, end, refund).Err?
    {
      RefundExactly(env, end, init.now, refund, account);
    }
  }

  lemma RecordedAtLeast(s: Chain, account: Key)
    requires account in s.records
    ensures s.records[account].amount <= Recorded(s)
  {
    assert Amounts(s.records)[account] == s.records[account].amount;
    SumAtLeast(Amounts(s.records), account);
  }

  /** Reopening after a payout that contributions alone made possible carries over at least the whole target. */
  lemma ReopeningCarries(env: Env, s: Chain, start: int, history: seq<Step>, check: Step, init: Step)
    requires Start(env, s) && Proper(env, start, history + [check] + [init])
    requires check.call.CheckContributions? && Apply(env, Run(env, s, history), check).Ok?
    requires init.call.Initialize? && Apply(env, Run(env, s, history + [check]), init).Ok?
    requires Direct(env, Log(env, s, history)) == 0
    ensures Run(env, s, history).fundraiser.Some?
    ensures Carried(env, s, history + [check] + [init]) >= Run(env, s, history).fundraiser.value.target > 0
  {
    hide Start, Proper, Run, Apply, Invariant, Carried, Log;
    var w := Run(env, s, history);
    ProperFront(env, start, history + [check], init);
    ProperFront(env, start, history, check);
    Pushed(env, s, history, check);
    Pushed(env, s, history + [check], init);
    CheckEffect(env, w, check);
    LedgerHolds(env, s, start, history, Key(env.maker, env.bump));
    StartInvariant(env, s, start);
    RunKeepsInvariant(env, s, start, history);
    TargetPositive(env, w, EndTime(start, history));
  }

  lemma TargetPositive(env: Env, s: Chain, now: int)
    requires Invariant(env, s, now) && s.fundraiser.Some?
    ensures s.fundraiser.value.target > 0
  {
  }

  // ---------------------------------------------------------------- a run that carries something over

  /** A fundraiser's address, its maker, a contributor and a mint: any keys, so long as the first three differ. */
  datatype Cast = Cast(address: Pubkey, maker: Pubkey, contributor: Pubkey, mint: Pubkey) {
    predicate Different() {
      address != maker && address != contributor && maker != contributor
    }

    function Record(): Key { Key(contributor, 0) }

    function Purse(): TokenAccount { TokenAccount(contributor, mint) }

    function Income(): TokenAccount { TokenAccount(maker, mint) }

    function Vault(): TokenAccount { TokenAccount(address, mint) }

    function World(): Env { Env(address, maker, 0, map[mint := 0], 2, 1, 3) }

    /** The contributor has 10 tokens, of a mint without decimals; both wallets have lamports for rent. */
    function Opening(): Chain {
      Chain(None, map[], map[Purse() := 10, Income() := 0],
            map[Wallet(maker) := 100, Wallet(contributor) := 100, TokensAt(Purse()) := 3, TokensAt(Income()) := 3])
    }

    /** Open for 10 tokens, contribute 1, send the other 9 to the vault, pay out, and open again. */
    function Example(): seq<Step> {
      [Step(0, Initialize(maker, mint, 0, 10, 1)),
       Step(1, Contribute(contributor, mint, Record(), 0, 1)),
       Step(2, Send(contributor, address, mint, 9)),
       Step(3, CheckContributions(maker, mint)),
       Step(4, Initialize(maker, mint, 0, 10, 1))]
    }

    function Raised(current: u64): FundraiserRecord { FundraiserRecord(maker, mint, 10, current, 0, 1, 0) }
  }

  lemma OpeningStarts(c: Cast)
    requires c.Different()
    ensures Start(c.World(), c.Opening()) && RentHeld(c.World(), c.Opening()) && Proper(c.World(), 0, c.Example())
  {
    var none: map<TokenAccount, nat> := map[];
    forall mint
      ensures SupplyOf(c.Opening(), mint) <= 10
    {
      assert none[c.Purse() := 10][c.Income() := 0] == c.Opening().tokens;
      assert Held(none, mint) == map[];
      HeldPut(none, c.Purse(), 10, mint);
      HeldPut(none[c.Purse() := 10], c.Income(), 0, mint);
    }
    OpeningLamports(c);
  }

  lemma OpeningLamports(c: Cast)
    requires c.Different()
    ensures Sum(c.Opening().lamports) == 206
  {
    var none: map<Holder, nat> := map[];
    var wallets := none[Wallet(c.maker) := 100][Wallet(c.contributor) := 100];
    SumPut(none, Wallet(c.maker), 100);
    SumPut(none[Wallet(c.maker) := 100], Wallet(c.contributor), 100);
    SumPut(wallets, TokensAt(c.Purse()), 3);
    SumPut(wallets[TokensAt(c.Purse()) := 3], TokensAt(c.Income()), 3);
    assert wallets[TokensAt(c.Purse()) := 3][TokensAt(c.Income()) := 3] == c.Opening().lamports;
  }

  lemma ExampleOpens(c: Cast)
    requires c.Different()
    ensures var next := Apply(c.World(), c.Opening(), c.Example()[0]);
            && next.Ok? && next.value.fundraiser == Some(c.Raised(0)) && next.value.records == map[]
            && next.value.tokens == c.Opening().tokens[c.Vault() := 0]
            && Balance(next.value.lamports, Wallet(c.contributor)) == 100
  {
    assert Pow10(0) == 1;
  }

  lemma ExampleGives(c: Cast, s: Chain)
    requires c.Different() && Invariant(c.World(), s, 0) && RentHeld(c.World(), s)
    requires s.fundraiser == Some(c.Raised(0)) && s.records == map[]
    requires s.tokens == c.Opening().tokens[c.Vault() := 0] && Balance(s.lamports, Wallet(c.contributor)) == 100
    ensures var next := Apply(c.World(), s, c.Example()[1]);
            && next.Ok? && next.value.fundraiser == Some(c.Raised(1))
            && next.value.records.Keys == {c.Record()} && next.value.records[c.Record()].amount == 1
            && next.value.tokens == map[c.Purse() := 9, c.Income() := 0, c.Vault() := 1]
  {
    var step := c.Example()[1];
    assert Pow10(0) == 1;
    DeadlineExact(c.Raised(0), 1);
    assert ContributorAccount(c.Record()) !in s.lamports;
    hide Apply, Invariant, RentHeld, HasEnded, Pow10;
    ContributeExactly(c.World(), s, 0, step);
    ContributeEffect(c.World(), s, step);
  }

  lemma ExampleFills(c: Cast, s: Chain)
    requires c.Different() && s.tokens == map[c.Purse() := 9, c.Income() := 0, c.Vault() := 1]
    ensures var next := Apply(c.World(), s, c.Example()[2]);
            && next.Ok? && next.value.fundraiser == s.fundraiser && next.value.records == s.records
            && next.value.tokens == map[c.Purse() := 0, c.Income() := 0, c.Vault() := 10]
  {
  }

  lemma ExamplePays(c: Cast, s: Chain)
    requires c.Different() && Invariant(c.World(), s, 2) && s.fundraiser == Some(c.Raised(1))
    requires s.tokens == map[c.Purse() := 0, c.Income() := 0, c.Vault() := 10]
    ensures Apply(c.World(), s, c.Example()[3]).Ok?
    ensures Apply(c.World(), s, c.Example()[3]).value.records == s.records
  {
    hide Apply, Invariant;
    CheckExactly(c.World(), s, 2, c.Example()[3]);
    CheckEffect(c.World(), s, c.Example()[3]);
  }

  /** What is known after any number of steps of the example. */
  lemma ExampleAt(c: Cast, k: nat)
    requires c.Different() && 0 < k < 5
    ensures var env, steps := c.World(), c.Example();
            && Proper(env, 0, steps[..k]) && EndTime(0, steps[..k]) == k - 1
            && Invariant(env, Run(env, c.Opening(), steps[..k]), k - 1)
            && RentHeld(env, Run(env, c.Opening(), steps[..k]))
            && steps[..k] + [steps[k]] == steps[..k + 1]
  {
    OpeningStarts(c);
    StartInvariant(c.World(), c.Opening(), 0);
    hide Invariant, RentHeld, Start, Run, WellSigned;
    RunKeepsInvariant(c.World(), c.Opening(), 0, c.Example()[..k]);
    RunKeepsRent(c.World(), c.Opening(), 0, c.Example()[..k]);
  }

  lemma ExampleToGift(c: Cast)
    requires c.Different()
    ensures var env, s, steps := c.World(), c.Opening(), c.Example();
            var w := Run(env, s, steps[..2]);
            && Log(env, s, steps[..2]) == steps[..2] && w.fundraiser == Some(c.Raised(1))
            && w.records.Keys == {c.Record()} && w.records[c.Record()].amount == 1
            && w.tokens == map[c.Purse() := 9, c.Income() := 0, c.Vault() := 1]
  {
    var env, s, steps := c.World(), c.Opening(), c.Example();
    assert Run(env, s, []) == s && Log(env, s, []) == [];
    assert [] + [steps[0]] == steps[..1];
    ExampleOpens(c);
    ExampleAt(c, 1);
    hide Apply, Invariant, RentHeld, Run, Log, Proper;
    Pushed(env, s, [], steps[0]);
    ExampleGives(c, Run(env, s, steps[..1]));
    Pushed(env, s, steps[..1], steps[1]);
  }

  /** The first four steps of the example all succeed, and leave the one record behind. */
  lemma ExampleToPayout(c: Cast)
    requires c.Different()
    ensures var env, s, steps := c.World(), c.Opening(), c.Example();
            var w := Run(env, s, steps[..3]);
            && Log(env, s, steps[..3]) == steps[..3] && c.Income() in w.tokens
            && Apply(env, w, steps[3]).Ok? && Apply(env, w, steps[3]).value.records == w.records
            && w.records.Keys == {c.Record()} && w.records[c.Record()].amount == 1
  {
    var env, s, steps := c.World(), c.Opening(), c.Example();
    ExampleToGift(c);
    ExampleAt(c, 2);
    ExampleAt(c, 3);
    hide Apply, Invariant, RentHeld, Run, Log, Proper;
    ExampleFills(c, Run(env, s, steps[..2]));
    Pushed(env, s, steps[..2], steps[2]);
    ExamplePays(c, Run(env, s, steps[..3]));
  }

  /**
   There are runs that carry something over: from fresh accounts, every step of the example succeeds, and the
   second round opens with a total of zero, one live record of one token, and one token carried over.
   */
  lemma SomethingCarried(c: Cast)
    requires c.Different()
    ensures var env, s, steps := c.World(), c.Opening(), c.Example();
            && Start(env, s) && Proper(env, 0, steps) && Log(env, s, steps) == steps
            && Run(env, s, steps).fundraiser == Some(c.Raised(0).(started := 4))
            && AmountOf(Run(env, s, steps), c.Record()) == 1
            && Carried(env, s, steps) == 1
  {
    var env, s, steps := c.World(), c.Opening(), c.Example();
    OpeningStarts(c);
    StartInvariant(env, s, 0);
    ExampleToPayout(c);
    ExampleAt(c, 3);
    ExampleAt(c, 4);
    assert Pow10(0) == 1;
    assert steps[..5] == steps;
    hide Apply, Invariant, RentHeld, Start, Run, Log, Proper, Carried, Recorded, Next;
    NextOk(env, Run(env, s, steps[..3]), steps[3]);
    PayoutFundsReopening(env, s, 0, steps[..3], steps[3], steps[4]);
    Pushed(env, s, steps[..3], steps[3]);
    Pushed(env, s, steps[..4], steps[4]);
    InitializeEffect(env, Run(env, s, steps[..4]), steps[4]);
    OneRecord(Run(env, s, steps[..4]), c.Record());
  }

  lemma NextOk(env: Env, s: Chain, step: Step)
    requires Apply(env, s, step).Ok?
    ensures Next(env, s, step) == Apply(env, s, step).value
  {
    hide Apply;
  }

  lemma OneRecord(s: Chain, account: Key)
    requires s.records.Keys == {account}
    ensures Recorded(s) == s.records[account].amount
  {
    var none: map<Key, int> := map[];
    assert Amounts(s.records) == none[account := s.records[account].amount];
    SumPut(none, account, s.records[account].amount);
  }
}
