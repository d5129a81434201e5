/**
 Every outcome of the fundraiser's instructions: on any accounts that keep the invariant, each error with
 exactly the condition under which it is returned, and which wallets a successful step touches.
 */
module FundraiserOutcomes {
  import opened Rust
  import opened FundraiserErrors
  import opened FundraiserRecords
  import opened FundraiserRules
  import opened FundraiserChain
  import opened FundraiserInvariant
  import opened FundraiserEffects

  /** The deadline of an open round has passed. */
  predicate Ended(f: FundraiserRecord, now: int) {
    f.duration != 0 && now >= f.started + 86_400 * f.duration
  }

  /** What the call of a refund names is the open round, the caller's own record and an existing token account. */
  predicate RefundNames(s: Chain, f: FundraiserRecord, call: Call)
    requires call.Refund?
  {
    && call.maker == f.maker && call.mint == f.mint && call.account.contributor == call.contributor
    && TokenAccount(call.contributor, call.mint) in s.tokens
  }

  /**
   Refund: the gates in their order. Nothing to refund; wrong accounts; the deadline; the target; more on record
   than in the vault; more on record than in the running total.
   */
  lemma RefundOutcome(env: Env, s: Chain, before: int, step: Step)
    requires Invariant(env, s, before) && before <= step.now && WellSigned(env, step.call) && step.call.Refund?
    ensures var r, call := Apply(env, s, step), step.call;
            && (r == Err(IllegalOwner) <==> s.fundraiser.None? || call.account !in s.records)
            && (s.fundraiser.Some? && call.account in s.records ==>
                  var f, amount := s.fundraiser.value, s.records[call.account].amount;
                  && VaultOf(env, f) in s.tokens
                  && var named, ended, held := RefundNames(s, f, call), Ended(f, step.now), s.tokens[VaultOf(env, f)];
                     && (r == Err(InvalidAccountData) <==> !named)
                     && (r == Err(FundraiserNotEnded) <==> named && !ended)
                     && (r == Err(TargetMet) <==> named && ended && held >= f.target)
                     && (r == Err(InsufficientFunds) <==> named && ended && held < f.target && amount > held)
                     && (r == Err(ArithmeticOverflow) <==>
                           named && ended && held < f.target && f.current < amount <= held)
                     && (r.Ok? <==> named && ended && amount <= held < f.target && amount <= f.current))
  {
    var call := step.call;
    if s.fundraiser.Some? && call.account in s.records {
      var f, amount := s.fundraiser.value, s.records[call.account].amount;
      var ata, vault := TokenAccount(call.contributor, call.mint), VaultOf(env, f);
      DeadlineExact(f, step.now);
      assert SupplyOf(s, f.mint) <= U64_MAX;
      if RefundNames(s, f, call) && amount <= s.tokens[vault] {
        TransferSucceeds(s.tokens, vault, ata, amount);
      }
      CloseSucceeds(s.lamports, ContributorAccount(call.account), call.contributor);
    }
    hide CloseAccount, HasEnded, SupplyOf;
  }

  /** Initialize: the gates in their order, up to the creation of the two accounts. */
  lemma InitializeOutcome(env: Env, s: Chain, before: int, step: Step)
    requires Invariant(env, s, before) && before <= step.now && step.call.Initialize?
    ensures var r, call := Apply(env, s, step), step.call;
            && (r == Err(AccountAlreadyInitialized) <==> s.fundraiser.Some?)
            && (s.fundraiser.None? ==>
                  var named := call.maker == env.maker && call.bump == env.bump && call.mint in env.decimals;
                  && (r == Err(InvalidAccountData) <==> !named)
                  && (named ==>
                        var least, pays := 3 * Pow10(env.decimals[call.mint]), Balance(s.lamports, Wallet(env.maker));
                        var vault := TokensAt(TokenAccount(env.address, call.mint));
                        && (r == Err(ArithmeticOverflow) <==> least > U64_MAX)
                        && (r == Err(InvalidAmount) <==> call.amount <= least <= U64_MAX)
                        && (r == Err(AccountInUse) <==>
                              && call.amount > least
                              && (FundraiserAccount in s.lamports
                                  || (pays >= env.fundraiserRent && vault in s.lamports)))
                        && (r == Err(InsufficientLamports) <==>
                              && call.amount > least && FundraiserAccount !in s.lamports
                              && (pays < env.fundraiserRent
                                  || (vault !in s.lamports && pays < env.fundraiserRent + env.tokenRent)))
                        && (r.Ok? <==>
                              && call.amount > least && FundraiserAccount !in s.lamports && vault !in s.lamports
                              && pays >= env.fundraiserRent + env.tokenRent)))
  {
    var call := step.call;
    if call.mint in env.decimals {
      CheckTargetRefusals(call.amount, env.decimals[call.mint]);
    }
    assert s.fundraiser.None? ==> TokenAccount(env.address, call.mint) !in s.tokens;
    hide SupplyOf, CheckTarget, Pow10;
  }

  /** check_contributions: the gates in their order; past them it cannot fail. */
  lemma CheckOutcome(env: Env, s: Chain, before: int, step: Step)
    requires Invariant(env, s, before) && before <= step.now && WellSigned(env, step.call)
    requires step.call.CheckContributions?
    ensures var r, call := Apply(env, s, step), step.call;
            && (r == Err(IllegalOwner) <==> s.fundraiser.None?)
            && (s.fundraiser.Some? ==>
                  var f, ata := s.fundraiser.value, TokenAccount(call.maker, call.mint);
                  && VaultOf(env, f) in s.tokens
                  && var named := call.maker == f.maker && call.mint == f.mint;
                     var received, pays := ata in s.tokens, Balance(s.lamports, Wallet(call.maker)) >= env.tokenRent;
                     && (r == Err(InvalidAccountData) <==> !named)
                     && (r == Err(AccountInUse) <==> named && !received && TokensAt(ata) in s.lamports)
                     && (r == Err(InsufficientLamports) <==>
                           named && !received && TokensAt(ata) !in s.lamports && !pays)
                     && (r == Err(TargetNotMet) <==>
                           && named && (received || (TokensAt(ata) !in s.lamports && pays))
                           && s.tokens[VaultOf(env, f)] < f.target)
                     && (r.Ok? <==>
                           && named && (received || (TokensAt(ata) !in s.lamports && pays))
                           && s.tokens[VaultOf(env, f)] >= f.target))
  {
    if s.fundraiser.Some? && step.call.maker == s.fundraiser.value.maker && step.call.mint == s.fundraiser.value.mint {
      CheckExactly(env, s, before, step);
    }
    hide CloseAccount, SupplyOf, Transfer;
  }

  /** What a contribution names is the open round and the caller's own record, there or to be created. */
  predicate ContributeNames(s: Chain, f: FundraiserRecord, call: Call)
    requires call.Contribute?
  {
    && call.mint == f.mint && call.account.contributor == call.contributor
    && (call.account in s.records || call.account.bump == call.bump)
  }

  /** The rest of contribute, past the deadline gate: the amount gates, then the contributor's tokens. */
  predicate AmountDecides(env: Env, s: Chain, step: Step, r: Outcome)
    requires s.fundraiser.Some? && step.call.Contribute?
  {
    var f, call := s.fundraiser.value, step.call;
    var ata := TokenAccount(call.contributor, f.mint);
    && f.mint in env.decimals && Pow10(env.decimals[f.mint]) <= U64_MAX && ata in s.tokens
    && var sums := CheckAmount(f, AmountOf(s, call.account), call.amount, env.decimals[f.mint]);
       && (sums.Err? ==> r == Err(sums.error))
       && (sums.Ok? && call.amount > s.tokens[ata] ==> r == Err(InsufficientFunds))
       && (sums.Ok? && call.amount <= s.tokens[ata] ==> r.Ok?)
  }

  /** Contribute up to the amount gates: the accounts, the creation of the record, the deadline. */
  lemma ContributeAdmission(env: Env, s: Chain, before: int, step: Step)
    requires Invariant(env, s, before) && before <= step.now && step.call.Contribute? && WellSigned(env, step.call)
    ensures var r, call := Apply(env, s, step), step.call;
            && (r == Err(IllegalOwner) <==> s.fundraiser.None?)
            && (s.fundraiser.Some? ==>
                  var f, live := s.fundraiser.value, call.account in s.records;
                  var named, record := ContributeNames(s, f, call), ContributorAccount(call.account);
                  var pays := Balance(s.lamports, Wallet(call.contributor)) >= env.contributorRent;
                  var ready, ata := live || (record !in s.lamports && pays), TokenAccount(call.contributor, f.mint);
                  && (r == Err(InvalidAccountData) <==> !named || (ready && ata !in s.tokens))
                  && (r == Err(AccountInUse) <==> named && !live && record in s.lamports)
                  && (r == Err(InsufficientLamports) <==> named && !live && record !in s.lamports && !pays)
                  && (r == Err(FundraiserEnded) <==> named && ready && ata in s.tokens && Ended(f, step.now))
                  && (named && ready && ata in s.tokens && !Ended(f, step.now) ==> AmountDecides(env, s, step, r)))
  {
    var call := step.call;
    if s.fundraiser.Some? {
      var f, live := s.fundraiser.value, call.account in s.records;
      DeadlineExact(f, step.now);
      CheckTargetRefusals(f.target, env.decimals[f.mint]);
      CheckAmountRefusals(f, AmountOf(s, call.account), call.amount, env.decimals[f.mint]);
      hide CheckAmount, CheckTarget, HasEnded, SupplyOf, Pow10;
      if ContributeNames(s, f, call) && TokenAccount(call.contributor, f.mint) in s.tokens && !Ended(f, step.now)
          && (live || CanCreate(s.lamports, call.contributor, ContributorAccount(call.account), env.contributorRent)) {
        AmountGates(env, s, before, step);
      } else {
        assert Apply(env, s, step).Err?;
      }
    }
  }

  lemma AmountGates(env: Env, s: Chain, before: int, step: Step)
    requires Invariant(env, s, before) && before <= step.now && step.call.Contribute? && WellSigned(env, step.call)
    requires s.fundraiser.Some? && ContributeNames(s, s.fundraiser.value, step.call)
    requires TokenAccount(step.call.contributor, step.call.mint) in s.tokens && !Ended(s.fundraiser.value, step.now)
    requires step.call.account in s.records
             || CanCreate(s.lamports, step.call.contributor, ContributorAccount(step.call.account), env.contributorRent)
    ensures AmountDecides(env, s, step, Apply(env, s, step))
  {
    var f, call := s.fundraiser.value, step.call;
    var ata, vault := TokenAccount(call.contributor, f.mint), VaultOf(env, f);
    DeadlineExact(f, step.now);
    CheckTargetRefusals(f.target, env.decimals[f.mint]);
    assert SupplyOf(s, f.mint) <= U64_MAX;
    if call.amount <= s.tokens[ata] {
      TransferSucceeds(s.tokens, ata, vault, call.amount);
    }
    hide CheckAmount, CheckTarget, HasEnded, SupplyOf, Pow10;
    var ready := CreateContributor(env, s, call.contributor, call.account, call.bump);
    assert ready.Ok? && ready.value.tokens == s.tokens;
    assert ready.value.records[call.account].amount == AmountOf(s, call.account);
  }

  /**
   Contribute, of a call whose accounts are in order: the deadline, the minimum of one whole token, the cap of a
   tenth of the target on the contribution and on the record, the widths of product and sums, the contributor's
   tokens.
   */
  lemma ContributeOutcome(env: Env, s: Chain, before: int, step: Step)
    requires Invariant(env, s, before) && before <= step.now && step.call.Contribute? && WellSigned(env, step.call)
    requires s.fundraiser.Some? && ContributeNames(s, s.fundraiser.value, step.call)
    requires TokenAccount(step.call.contributor, step.call.mint) in s.tokens
    requires step.call.account in s.records
             || CanCreate(s.lamports, step.call.contributor, ContributorAccount(step.call.account), env.contributorRent)
    ensures var r, f, amount := Apply(env, s, step), s.fundraiser.value, step.call.amount;
            var total := AmountOf(s, step.call.account) + amount;
            && f.mint in env.decimals
            && var unit, cap, wide := Pow10(env.decimals[f.mint]), f.target / 10, f.target * 10 > U64_MAX;
               && (r == Err(FundraiserEnded) <==> Ended(f, step.now))
               && (!Ended(f, step.now) ==>
                     && (r == Err(ContributionTooSmall) <==> amount < unit)
                     && (r == Err(ContributionTooBig) <==> amount >= unit && !wide && amount > cap)
                     && (r == Err(MaximumContributionsReached) <==>
                           amount >= unit && !wide && amount <= cap < total <= U64_MAX)
                     && (r == Err(ArithmeticOverflow) <==>
                           && amount >= unit
                           && (wide || (amount <= cap && total > U64_MAX)
                               || (total <= cap && f.current + amount > U64_MAX)))
                     && (r == Err(InsufficientFunds) <==>
                           && unit <= amount && total <= cap && !wide && f.current + amount <= U64_MAX
                           && amount > s.tokens[TokenAccount(step.call.contributor, step.call.mint)])
                     && (r.Ok? <==>
                           && unit <= amount && total <= cap && !wide && f.current + amount <= U64_MAX
                           && amount <= s.tokens[TokenAccount(step.call.contributor, step.call.mint)]))
  {
    var f, call := s.fundraiser.value, step.call;
    ContributeAdmission(env, s, before, step);
    assert Sound(env, s, before);
    CheckAmountMeaning(f, AmountOf(s, call.account), call.amount, env.decimals[f.mint]);
    CheckTargetRefusals(f.target, env.decimals[f.mint]);
    CheckAmountRefusals(f, AmountOf(s, call.account), call.amount, env.decimals[f.mint]);
    hide Apply, CheckAmount, CheckTarget, Invariant, Sound, Pow10;
  }

  // ---------------------------------------------------------------- who is charged and who is paid

  lemma CreationCharges(payer: Pubkey, account: Holder, other: Pubkey)
    requires !account.Wallet? && other != payer
    ensures forall lamports, rent :: CreateAccount(lamports, payer, account, rent).Ok? ==>
              Balance(CreateAccount(lamports, payer, account, rent).value, Wallet(other)) ==
              Balance(lamports, Wallet(other))
  {
  }

  lemma ClosingPays(account: Holder, destination: Pubkey, other: Pubkey)
    requires !account.Wallet? && other != destination
    ensures forall lamports :: CloseAccount(lamports, account, destination).Ok? ==>
              Balance(CloseAccount(lamports, account, destination).value, Wallet(other)) ==
              Balance(lamports, Wallet(other))
  {
  }

  /** The only wallet whose lamports a step can change is that of its signer. */
  lemma OnlySignersWallet(env: Env, s: Chain, step: Step, other: Pubkey)
    requires WellSigned(env, step.call) && Apply(env, s, step).Ok? && Signer(step.call) != Some(other)
    ensures Balance(Apply(env, s, step).value.lamports, Wallet(other)) == Balance(s.lamports, Wallet(other))
  {
    hide Transfer, CheckAmount, CheckTarget, HasEnded, CreateAccount, CloseAccount, Balance;
    match step.call
    case Initialize(maker, mint, _, _, _) =>
      CreationCharges(maker, FundraiserAccount, other);
      CreationCharges(maker, TokensAt(TokenAccount(env.address, mint)), other);
    case Contribute(contributor, _, account, _, _) =>
      CreationCharges(contributor, ContributorAccount(account), other);
    case CheckContributions(maker, mint) =>
      CreationCharges(maker, TokensAt(TokenAccount(maker, mint)), other);
      ClosingPays(TokensAt(TokenAccount(env.address, mint)), maker, other);
      ClosingPays(FundraiserAccount, maker, other);
    case Refund(contributor, _, _, account) =>
      ClosingPays(ContributorAccount(account), contributor, other);
    case OpenAccount(owner, mint) =>
      CreationCharges(owner, TokensAt(TokenAccount(owner, mint)), other);
    case MintTo(_, _, _) =>
    case Send(_, _, _, _) =>
  }
}
