/** The rent of derived accounts: each holds exactly its minimum while it exists, and gives it back when closed. */
module FundraiserRent {
  import opened Rust
  import opened FundraiserRules
  import opened FundraiserChain
  import opened FundraiserInvariant
  import opened FundraiserEffects
  import opened FundraiserRuns

  /** The account that holds lamports at `h` exists. */
  predicate InUse(s: Chain, h: Holder) {
    match h
    case Wallet(_) => true
    case FundraiserAccount => s.fundraiser.Some?
    case ContributorAccount(k) => k in s.records
    case TokensAt(t) => t in s.tokens
  }

  function RentOf(env: Env, h: Holder): nat {
    match h
    case Wallet(_) => 0
    case FundraiserAccount => env.fundraiserRent
    case ContributorAccount(_) => env.contributorRent
    case TokensAt(_) => env.tokenRent
  }

  /** Lamports lie with exactly the accounts that exist, and with each its own minimum. */
  ghost predicate RentHeld(env: Env, s: Chain) {
    forall h: Holder | !h.Wallet? ::
      && (h in s.lamports <==> InUse(s, h))
      && (h in s.lamports ==> s.lamports[h] == RentOf(env, h))
  }

  /** After a creation: the new account with its rent, all others but the payer's wallet as before. */
  ghost predicate CreatedFrom(before: map<Holder, nat>, after: map<Holder, nat>, account: Holder, rent: nat) {
    forall h: Holder | !h.Wallet? ::
      && (h in after <==> h in before || h == account)
      && (h in after ==> after[h] == if h == account then rent else before[h])
  }

  ghost predicate ClosedFrom(before: map<Holder, nat>, after: map<Holder, nat>, account: Holder) {
    forall h: Holder | !h.Wallet? ::
      && (h in after <==> h in before && h != account)
      && (h in after ==> after[h] == before[h])
  }

  lemma Creation(lamports: map<Holder, nat>, payer: Pubkey, account: Holder, rent: u64)
    requires !account.Wallet? && CreateAccount(lamports, payer, account, rent).Ok?
    ensures CreatedFrom(lamports, CreateAccount(lamports, payer, account, rent).value, account, rent)
  {
  }

  lemma Closing(lamports: map<Holder, nat>, account: Holder, destination: Pubkey)
    requires !account.Wallet? && CloseAccount(lamports, account, destination).Ok?
    ensures ClosedFrom(lamports, CloseAccount(lamports, account, destination).value, account)
  {
  }

  lemma InitializeKeepsRent(env: Env, s: Chain, step: Step)
    requires step.call.Initialize? && Apply(env, s, step).Ok? && RentHeld(env, s)
    ensures RentHeld(env, Apply(env, s, step).value)
  {
    var call := step.call;
    var created := CreateAccount(s.lamports, call.maker, FundraiserAccount, env.fundraiserRent);
    Creation(s.lamports, call.maker, FundraiserAccount, env.fundraiserRent);
    Creation(created.value, call.maker, TokensAt(TokenAccount(env.address, call.mint)), env.tokenRent);
    hide CreateAccount, CheckTarget;
  }

  lemma ContributeKeepsRent(env: Env, s: Chain, step: Step)
    requires step.call.Contribute? && WellSigned(env, step.call) && Apply(env, s, step).Ok? && RentHeld(env, s)
    ensures RentHeld(env, Apply(env, s, step).value)
  {
    var call, next := step.call, Apply(env, s, step).value;
    ContributeEffect(env, s, step);
    if call.account !in s.records {
      Creation(s.lamports, call.contributor, ContributorAccount(call.account), env.contributorRent);
    }
    hide CreateAccount, CheckAmount, HasEnded, Transfer;
    if call.account !in s.records {
      assert CreatedFrom(s.lamports, next.lamports, ContributorAccount(call.account), env.contributorRent);
    }
    hide Apply;
  }

  lemma CheckKeepsRent(env: Env, s: Chain, step: Step)
    requires step.call.CheckContributions? && WellSigned(env, step.call) && Apply(env, s, step).Ok? && RentHeld(env, s)
    ensures RentHeld(env, Apply(env, s, step).value)
  {
    var f, next := s.fundraiser.value, Apply(env, s, step).value;
    var vault, ata := VaultOf(env, f), TokenAccount(f.maker, f.mint);
    CheckEffect(env, s, step);
    var ready := EnsureTokenAccount(env, s, f.maker, ata).value;
    if ata !in s.tokens {
      Creation(s.lamports, f.maker, TokensAt(ata), env.tokenRent);
    }
    var closed := CloseAccount(ready.lamports, TokensAt(vault), f.maker);
    assert Apply(env, s, step) == PayOut(env, ready, f);
    Closing(ready.lamports, TokensAt(vault), f.maker);
    Closing(closed.value, FundraiserAccount, f.maker);
    hide CreateAccount, CloseAccount, Transfer, Apply;
  }

  lemma RefundKeepsRent(env: Env, s: Chain, step: Step)
    requires step.call.Refund? && WellSigned(env, step.call) && Apply(env, s, step).Ok? && RentHeld(env, s)
    ensures RentHeld(env, Apply(env, s, step).value)
  {
    RefundEffect(env, s, step);
    Closing(s.lamports, ContributorAccount(step.call.account), step.call.contributor);
    hide CloseAccount, HasEnded, Transfer;
  }

  lemma OutsideKeepsRent(env: Env, s: Chain, step: Step)
    requires !OfProgram(step.call) && Apply(env, s, step).Ok? && RentHeld(env, s)
    ensures RentHeld(env, Apply(env, s, step).value)
  {
    if step.call.OpenAccount? {
      Creation(s.lamports, step.call.owner, TokensAt(TokenAccount(step.call.owner, step.call.mint)), env.tokenRent);
    }
    hide CreateAccount, SupplyOf;
  }

  /** Along every run, each derived account holds exactly its rent minimum while it exists, and nothing after. */
  lemma {:induction false} RunKeepsRent(env: Env, s: Chain, start: int, steps: seq<Step>)
    requires Invariant(env, s, start) && RentHeld(env, s) && Proper(env, start, steps)
    ensures RentHeld(env, Run(env, s, steps))
    decreases |steps|
  {
    if steps != [] {
      var front, step := steps[..|steps| - 1], steps[|steps| - 1];
      var w := Run(env, s, front);
      LastStep(env, s, start, steps);
      hide Invariant, Apply, Run, Log, RentHeld;
      RunKeepsRent(env, s, start, front);
      if Apply(env, w, step).Ok? {
        match step.call
        case Initialize(_, _, _, _, _) => InitializeKeepsRent(env, w, step);
        case Contribute(_, _, _, _, _) => ContributeKeepsRent(env, w, step);
        case CheckContributions(_, _) => CheckKeepsRent(env, w, step);
        case Refund(_, _, _, _) => RefundKeepsRent(env, w, step);
        case _ => OutsideKeepsRent(env, w, step);
      }
    }
  }

  /** A refund at the end of any run returns the rent of the record, once: the account is gone afterwards. */
  lemma RefundReturnsRent(env: Env, s: Chain, start: int, steps: seq<Step>, refund: Step)
    requires Invariant(env, s, start) && RentHeld(env, s) && Proper(env, start, steps)
    requires refund.call.Refund? && WellSigned(env, refund.call) && Apply(env, Run(env, s, steps), refund).Ok?
    ensures var w, call := Run(env, s, steps), refund.call;
            var lamports := Apply(env, w, refund).value.lamports;
            && ContributorAccount(call.account) !in lamports
            && Balance(lamports, Wallet(call.contributor)) ==
               Balance(w.lamports, Wallet(call.contributor)) + env.contributorRent
  {
    hide Apply, Invariant, Proper, Run;
    RunKeepsRent(env, s, start, steps);
    RefundEffect(env, Run(env, s, steps), refund);
  }

  /**
   A payout at the end of any run returns the rent of the vault and of the fundraiser to the maker, less what a
   new token account costs; both accounts are gone afterwards.
   */
  lemma PayoutReturnsRent(env: Env, s: Chain, start: int, steps: seq<Step>, check: Step)
    requires Invariant(env, s, start) && RentHeld(env, s) && Proper(env, start, steps)
    requires check.call.CheckContributions? && WellSigned(env, check.call)
    requires Apply(env, Run(env, s, steps), check).Ok?
    ensures var w := Run(env, s, steps);
            var lamports, ata := Apply(env, w, check).value.lamports, TokenAccount(env.maker, check.call.mint);
            && FundraiserAccount !in lamports && TokensAt(TokenAccount(env.address, check.call.mint)) !in lamports
            && Balance(lamports, Wallet(env.maker)) ==
               Balance(w.lamports, Wallet(env.maker)) + env.fundraiserRent
               + if ata in w.tokens then env.tokenRent else 0
  {
    hide Invariant, Proper, Run;
    var w := Run(env, s, steps);
    RunKeepsRent(env, s, start, steps);
    CheckReturnsRent(env, w, check);
    CheckEffect(env, w, check);
    assert check.call.mint == w.fundraiser.value.mint;
    hide Apply;
  }

  /**
   Reopening at the end of any run that left the fundraiser closed: initialize succeeds exactly for a known
   mint, a target above 3 * 10^decimals and a maker who can pay both rents; no account of an earlier round is in
   the way.
   */
  lemma ReopenExactly(env: Env, s: Chain, start: int, steps: seq<Step>, init: Step)
    requires Invariant(env, s, start) && RentHeld(env, s) && Proper(env, start, steps)
    requires Run(env, s, steps).fundraiser.None? && EndTime(start, steps) <= init.now
    requires init.call.Initialize? && init.call.maker == env.maker && init.call.bump == env.bump
    ensures var w, call := Run(env, s, steps), init.call;
            Apply(env, w, init).Ok? <==>
              && call.mint in env.decimals && call.amount > 3 * Pow10(env.decimals[call.mint])
              && Balance(w.lamports, Wallet(env.maker)) >= env.fundraiserRent + env.tokenRent
  {
    var w := Run(env, s, steps);
    RunKeepsInvariant(env, s, start, steps);
    assert TokenAccount(env.address, init.call.mint) !in w.tokens;
    hide Invariant, Proper, Run, Apply;
    RunKeepsRent(env, s, start, steps);
    InitializeExactly(env, w, EndTime(start, steps), init);
  }

  /** After a payout into a token account the maker already had, the rents returned pay for the next round: it can
      be opened for every known mint and every target above 3 * 10^decimals. */
  lemma PayoutFundsReopening(env: Env, s: Chain, start: int, steps: seq<Step>, check: Step, init: Step)
    requires Invariant(env, s, start) && RentHeld(env, s) && Proper(env, start, steps)
    requires EndTime(start, steps) <= check.now <= init.now
    requires check.call.CheckContributions? && WellSigned(env, check.call)
    requires Apply(env, Run(env, s, steps), check).Ok?
    requires TokenAccount(env.maker, check.call.mint) in Run(env, s, steps).tokens
    requires init.call.Initialize? && init.call.maker == env.maker && init.call.bump == env.bump
    ensures var call := init.call;
            Apply(env, Next(env, Run(env, s, steps), check), init).Ok? <==>
              call.mint in env.decimals && call.amount > 3 * Pow10(env.decimals[call.mint])
  {
    var w := Run(env, s, steps);
    var next := Apply(env, w, check).value;
    hide Invariant, Proper, Run, Apply, RentHeld, Log;
    RunKeepsInvariant(env, s, start, steps);
    RunKeepsRent(env, s, start, steps);
    CheckEffect(env, w, check);
    PayoutReturnsRent(env, s, start, steps, check);
    StepKeepsInvariant(env, w, EndTime(start, steps), check);
    CheckKeepsRent(env, w, check);
    EmptyRun(env, next, check.now);
    ReopenExactly(env, next, check.now, [], init);
  }

  lemma EmptyRun(env: Env, s: Chain, start: int)
    ensures Run(env, s, []) == s && Proper(env, start, []) && EndTime(start, []) == start
  {
  }
}
