/** What each instruction has checked and changed when it succeeds, spelled out field by field. */
module FundraiserEffects {
  import opened Rust
  import opened FundraiserRecords
  import opened FundraiserRules
  import opened FundraiserChain
  import opened FundraiserInvariant

  function AmountOf(s: Chain, account: Key): nat {
    if account in s.records then s.records[account].amount else 0
  }

  function Moved(tokens: map<TokenAccount, nat>, from: TokenAccount, to: TokenAccount,
      amount: nat): map<TokenAccount, nat>
    requires from in tokens && to in tokens && amount <= tokens[from]
  {
    tokens[from := tokens[from] - amount][to := tokens[to] + amount]
  }

  lemma InitializeEffect(env: Env, s: Chain, step: Step)
    requires step.call.Initialize? && Apply(env, s, step).Ok?
    ensures var next, call := Apply(env, s, step).value, step.call;
            && s.fundraiser.None?
            && call.mint in env.decimals && call.amount > 3 * Pow10(env.decimals[call.mint])
            && TokenAccount(env.address, call.mint) !in s.tokens
            && next.fundraiser ==
               Some(FundraiserRecord(env.maker, call.mint, call.amount, 0, step.now, call.duration, env.bump))
            && next.records == s.records
            && next.tokens == s.tokens[TokenAccount(env.address, call.mint) := 0]
            && Balance(next.lamports, FundraiserAccount) == env.fundraiserRent
            && Balance(next.lamports, TokensAt(TokenAccount(env.address, call.mint))) == env.tokenRent
            && Balance(next.lamports, Wallet(env.maker)) ==
               Balance(s.lamports, Wallet(env.maker)) - env.fundraiserRent - env.tokenRent
  {
  }

  lemma ContributeEffect(env: Env, s: Chain, step: Step)
    requires step.call.Contribute? && WellSigned(env, step.call) && Apply(env, s, step).Ok?
    ensures var next, call := Apply(env, s, step).value, step.call;
            && s.fundraiser.Some?
            && var f := s.fundraiser.value;
               var ata, vault := TokenAccount(call.contributor, f.mint), VaultOf(env, f);
               && call.mint == f.mint && f.mint in env.decimals && call.account.contributor == call.contributor
               && !HasEnded(f, step.now)
               && ata in s.tokens && vault in s.tokens && call.amount <= s.tokens[ata]
               && Feasible(f.target, env.decimals[f.mint])
               && Pow10(env.decimals[f.mint]) <= call.amount
               && AmountOf(s, call.account) + call.amount <= Cap(f)
               && f.current + call.amount <= U64_MAX
               && next.fundraiser == Some(f.(current := f.current + call.amount))
               && call.account in next.records
               && next.records == s.records[call.account := next.records[call.account]]
               && next.records[call.account].amount == AmountOf(s, call.account) + call.amount
               && next.tokens == Moved(s.tokens, ata, vault, call.amount)
               && (if call.account in s.records then next.lamports == s.lamports
                   else
                     && Balance(next.lamports, ContributorAccount(call.account)) == env.contributorRent
                     && Balance(next.lamports, Wallet(call.contributor)) ==
                        Balance(s.lamports, Wallet(call.contributor)) - env.contributorRent)
  {
    hide HasEnded;
    var call, f := step.call, s.fundraiser.value;
    var ready := CreateContributor(env, s, call.contributor, call.account, call.bump).value;
    var record := ready.records[call.account];
    assert record.amount == AmountOf(s, call.account);
    CheckAmountMeaning(f, record.amount, call.amount, env.decimals[f.mint]);
    hide CheckAmount, Feasible, Cap, Pow10;
    assert Apply(env, s, step) == ContributeTo(env, ready, f, step.now, call.contributor, call.account, call.amount);
  }

  lemma CheckEffect(env: Env, s: Chain, step: Step)
    requires step.call.CheckContributions? && WellSigned(env, step.call) && Apply(env, s, step).Ok?
    ensures var next := Apply(env, s, step).value;
            && s.fundraiser.Some?
            && var f := s.fundraiser.value;
               var ata, vault := TokenAccount(f.maker, f.mint), VaultOf(env, f);
               && step.call.maker == f.maker == env.maker && step.call.mint == f.mint
               && vault in s.tokens && s.tokens[vault] >= f.target
               && next.fundraiser.None? && next.records == s.records
               && next.tokens == s.tokens[ata := TokensIn(s.tokens, ata) + s.tokens[vault]] - {vault}
  {
    hide CreateAccount, CloseAccount;
    var f := s.fundraiser.value;
    var ata, vault := TokenAccount(f.maker, f.mint), VaultOf(env, f);
    var ready := EnsureTokenAccount(env, s, f.maker, ata).value;
    assert Apply(env, s, step) == PayOut(env, ready, f);
    assert Apply(env, s, step).value.tokens == Moved(ready.tokens, vault, ata, s.tokens[vault]) - {vault};
  }

  /** The maker gets the lamports of the vault and of the fundraiser account, less what a new token account costs. */
  lemma CheckReturnsRent(env: Env, s: Chain, step: Step)
    requires step.call.CheckContributions? && WellSigned(env, step.call) && Apply(env, s, step).Ok?
    ensures s.fundraiser.Some?
    ensures var f, lamports := s.fundraiser.value, Apply(env, s, step).value.lamports;
            && TokensAt(VaultOf(env, f)) !in lamports && FundraiserAccount !in lamports
            && Balance(lamports, Wallet(f.maker)) ==
               Balance(s.lamports, Wallet(f.maker)) + Balance(s.lamports, TokensAt(VaultOf(env, f)))
               + Balance(s.lamports, FundraiserAccount)
               - if TokenAccount(f.maker, f.mint) in s.tokens then 0 else env.tokenRent
  {
    hide Transfer;
    var f := s.fundraiser.value;
    var ready := EnsureTokenAccount(env, s, f.maker, TokenAccount(f.maker, f.mint)).value;
    assert Apply(env, s, step) == PayOut(env, ready, f);
  }

  lemma RefundEffect(env: Env, s: Chain, step: Step)
    requires step.call.Refund? && WellSigned(env, step.call) && Apply(env, s, step).Ok?
    ensures var next, call := Apply(env, s, step).value, step.call;
            && s.fundraiser.Some? && call.account in s.records
            && var f, amount := s.fundraiser.value, AmountOf(s, call.account);
               var ata, vault := TokenAccount(call.contributor, f.mint), VaultOf(env, f);
               && call.account.contributor == call.contributor && call.maker == f.maker && call.mint == f.mint
               && HasEnded(f, step.now)
               && ata in s.tokens && vault in s.tokens
               && amount <= s.tokens[vault] < f.target
               && amount <= f.current
               && next.fundraiser == Some(f.(current := f.current - amount))
               && next.records == s.records - {call.account}
               && next.tokens == Moved(s.tokens, vault, ata, amount)
               && ContributorAccount(call.account) !in next.lamports
               && Balance(next.lamports, Wallet(call.contributor)) ==
                  Balance(s.lamports, Wallet(call.contributor)) + Balance(s.lamports, ContributorAccount(call.account))
  {
    hide HasEnded;
  }

  // ---------------------------------------------------------------- exactly when each instruction succeeds

  /** The payer can fund a new account that is not there yet. */
  predicate CanCreate(lamports: map<Holder, nat>, payer: Pubkey, account: Holder, rent: u64) {
    account !in lamports && Balance(lamports, Wallet(payer)) >= rent
  }

  /** Initialize succeeds exactly for a known mint, a target above 3 * 10^decimals, and a maker who can pay
      both accounts. */
  lemma InitializeExactly(env: Env, s: Chain, before: int, step: Step)
    requires Invariant(env, s, before) && before <= step.now && s.fundraiser.None?
    requires step.call.Initialize? && step.call.maker == env.maker && step.call.bump == env.bump
    ensures var call := step.call;
            Apply(env, s, step).Ok? <==>
              && call.mint in env.decimals && call.amount > 3 * Pow10(env.decimals[call.mint])
              && FundraiserAccount !in s.lamports && TokensAt(TokenAccount(env.address, call.mint)) !in s.lamports
              && Balance(s.lamports, Wallet(env.maker)) >= env.fundraiserRent + env.tokenRent
  {
    hide SupplyOf, Pow10;
    assert TokenAccount(env.address, step.call.mint) !in s.tokens;
  }

  /** Contribute to one's own record succeeds exactly before the deadline, within all amount gates, with the
      tokens at hand. */
  lemma ContributeExactly(env: Env, s: Chain, before: int, step: Step)
    requires Invariant(env, s, before) && before <= step.now && s.fundraiser.Some? && WellSigned(env, step.call)
    requires step.call.Contribute? && step.call.mint == s.fundraiser.value.mint
    requires step.call.account == Key(step.call.contributor, step.call.bump)
    ensures var f, call := s.fundraiser.value, step.call;
            var ata, unit := TokenAccount(call.contributor, f.mint), Pow10(env.decimals[f.mint]);
            Apply(env, s, step).Ok? <==>
              && (call.account in s.records ||
                  CanCreate(s.lamports, call.contributor, ContributorAccount(call.account), env.contributorRent))
              && !HasEnded(f, step.now)
              && ata in s.tokens && call.amount <= s.tokens[ata]
              && Feasible(f.target, env.decimals[f.mint]) && unit <= call.amount
              && AmountOf(s, call.account) + call.amount <= Cap(f)
              && f.current + call.amount <= U64_MAX
  {
    var f, call := s.fundraiser.value, step.call;
    var ata, vault := TokenAccount(call.contributor, f.mint), VaultOf(env, f);
    CheckAmountMeaning(f, AmountOf(s, call.account), call.amount, env.decimals[f.mint]);
    assert SupplyOf(s, f.mint) <= U64_MAX;
    if ata in s.tokens && call.amount <= s.tokens[ata] {
      TransferSucceeds(s.tokens, ata, vault, call.amount);
    }
    hide CheckAmount, HasEnded, Feasible, Cap, Pow10, SupplyOf;
    var ready := CreateContributor(env, s, call.contributor, call.account, call.bump);
    if ready.Ok? {
      assert ready.value.tokens == s.tokens && ready.value.records[call.account].amount == AmountOf(s, call.account);
      assert Apply(env, s, step) ==
             ContributeTo(env, ready.value, f, step.now, call.contributor, call.account, call.amount);
    }
  }

  /** check_contributions succeeds exactly when the vault has reached the target and the maker has, or can pay
      for, a token account. */
  lemma CheckExactly(env: Env, s: Chain, before: int, step: Step)
    requires Invariant(env, s, before) && before <= step.now && s.fundraiser.Some? && WellSigned(env, step.call)
    requires step.call == CheckContributions(s.fundraiser.value.maker, s.fundraiser.value.mint)
    ensures var f := s.fundraiser.value;
            var ata, vault := TokenAccount(f.maker, f.mint), VaultOf(env, f);
            Apply(env, s, step).Ok? <==>
              && vault in s.tokens && s.tokens[vault] >= f.target
              && (ata in s.tokens || CanCreate(s.lamports, f.maker, TokensAt(ata), env.tokenRent))
  {
    var f := s.fundraiser.value;
    var ata, vault := TokenAccount(f.maker, f.mint), VaultOf(env, f);
    var ready := EnsureTokenAccount(env, s, f.maker, ata);
    if ready.Ok? {
      assert SupplyOf(s, f.mint) <= U64_MAX;
      if ata !in s.tokens {
        HeldPut(s.tokens, ata, 0, f.mint);
        CreateConserves(s.lamports, f.maker, TokensAt(ata), env.tokenRent);
      }
      TransferSucceeds(ready.value.tokens, vault, ata, s.tokens[vault]);
      CloseSucceeds(ready.value.lamports, TokensAt(vault), f.maker);
      var closed := CloseAccount(ready.value.lamports, TokensAt(vault), f.maker).value;
      CloseConserves(ready.value.lamports, TokensAt(vault), f.maker);
      CloseSucceeds(closed, FundraiserAccount, f.maker);
    }
    hide CloseAccount, SupplyOf, Transfer;
  }

  /** The refund of a record by its contributor. */
  function RefundOf(f: FundraiserRecord, account: Key): Call {
    Refund(account.contributor, f.maker, f.mint, account)
  }

  /** Exactly when a refund succeeds, on any state with the invariant. */
  lemma RefundExactly(env: Env, s: Chain, before: int, step: Step, account: Key)
    requires Invariant(env, s, before) && before <= step.now
    requires s.fundraiser.Some? && account in s.records && step.call == RefundOf(s.fundraiser.value, account)
    ensures var f, amount := s.fundraiser.value, s.records[account].amount;
            var ata, vault := TokenAccount(account.contributor, f.mint), VaultOf(env, f);
            Apply(env, s, step).Ok? <==>
              && HasEnded(f, step.now) && ata in s.tokens && vault in s.tokens
              && amount <= s.tokens[vault] < f.target && amount <= f.current
  {
    var f, amount := s.fundraiser.value, s.records[account].amount;
    var ata, vault := TokenAccount(account.contributor, f.mint), VaultOf(env, f);
    assert SupplyOf(s, f.mint) <= U64_MAX;
    if ata in s.tokens && vault in s.tokens && amount <= s.tokens[vault] {
      TransferSucceeds(s.tokens, vault, ata, amount);
    }
    CloseSucceeds(s.lamports, ContributorAccount(account), account.contributor);
    hide CloseAccount, HasEnded, SupplyOf;
  }
}
