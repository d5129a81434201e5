/** Conservation of tokens and lamports, and the invariant of the fundraiser's accounts. */
module FundraiserInvariant {
  import opened Rust
  import opened FundraiserRules
  import opened FundraiserChain
  import opened Sums

  // ---------------------------------------------------------------- conservation, operation by operation

  function TokensIn(tokens: map<TokenAccount, nat>, a: TokenAccount): nat {
    if a in tokens then tokens[a] else 0
  }

  lemma HeldPut(tokens: map<TokenAccount, nat>, a: TokenAccount, v: nat, mint: Pubkey)
    ensures Sum(Held(tokens[a := v], mint)) ==
            Sum(Held(tokens, mint)) + if a.mint == mint then v - TokensIn(tokens, a) else 0
  {
    if a.mint == mint {
      assert Held(tokens[a := v], mint) == Held(tokens, mint)[a := v];
      SumPut(Held(tokens, mint), a, v);
    } else {
      assert Held(tokens[a := v], mint) == Held(tokens, mint);
    }
  }

  lemma HeldDrop(tokens: map<TokenAccount, nat>, a: TokenAccount, mint: Pubkey)
    requires TokensIn(tokens, a) == 0
    ensures Sum(Held(tokens - {a}, mint)) == Sum(Held(tokens, mint))
  {
    if a in tokens && a.mint == mint {
      assert Held(tokens - {a}, mint) == Held(tokens, mint) - {a};
      SumSplit(Held(tokens, mint), a);
    } else {
      assert Held(tokens - {a}, mint) == Held(tokens, mint);
    }
  }

  lemma TransferConserves(tokens: map<TokenAccount, nat>, from: TokenAccount, to: TokenAccount, amount: nat,
      mint: Pubkey)
    requires from in tokens && to in tokens && from.mint == to.mint
    requires Transfer(tokens, from, to, amount).Ok?
    ensures Sum(Held(Transfer(tokens, from, to, amount).value, mint)) == Sum(Held(tokens, mint))
  {
    if from != to {
      HeldPut(tokens, from, tokens[from] - amount, mint);
      HeldPut(tokens[from := tokens[from] - amount], to, tokens[to] + amount, mint);
    }
  }

  lemma CreateConserves(lamports: map<Holder, nat>, payer: Pubkey, account: Holder, rent: u64)
    requires CreateAccount(lamports, payer, account, rent).Ok? && account != Wallet(payer)
    ensures Sum(CreateAccount(lamports, payer, account, rent).value) == Sum(lamports)
  {
    var paid := lamports[Wallet(payer) := Balance(lamports, Wallet(payer)) - rent];
    SumPut(lamports, Wallet(payer), Balance(lamports, Wallet(payer)) - rent);
    SumPut(paid, account, rent);
  }

  /** Closing an account moves all its lamports to the destination: the total is preserved. */
  lemma CloseConserves(lamports: map<Holder, nat>, account: Holder, destination: Pubkey)
    requires CloseAccount(lamports, account, destination).Ok? && account != Wallet(destination)
    ensures Sum(CloseAccount(lamports, account, destination).value) == Sum(lamports)
  {
    var total: nat := Balance(lamports, Wallet(destination)) + Balance(lamports, account);
    var credited := lamports[Wallet(destination) := total];
    SumPut(lamports, Wallet(destination), total);
    if account in credited {
      SumSplit(credited, account);
    } else {
      assert credited - {account} == credited;
    }
  }

  /** A close cannot overflow while all lamports together fit a u64. */
  lemma CloseSucceeds(lamports: map<Holder, nat>, account: Holder, destination: Pubkey)
    requires Sum(lamports) <= U64_MAX && account != Wallet(destination)
    ensures CloseAccount(lamports, account, destination).Ok?
  {
    if account in lamports && Wallet(destination) in lamports {
      SumAtLeastTwo(lamports, account, Wallet(destination));
    } else if account in lamports {
      SumAtLeast(lamports, account);
    } else if Wallet(destination) in lamports {
      SumAtLeast(lamports, Wallet(destination));
    }
  }

  /** A transfer cannot overflow the receiver while the supply of the mint fits a u64. */
  lemma TransferSucceeds(tokens: map<TokenAccount, nat>, from: TokenAccount, to: TokenAccount, amount: nat)
    requires from in tokens && to in tokens && from.mint == to.mint && from != to
    requires Sum(Held(tokens, from.mint)) <= U64_MAX && amount <= tokens[from]
    ensures Transfer(tokens, from, to, amount).Ok?
  {
    SumAtLeastTwo(Held(tokens, from.mint), from, to);
  }

  // ---------------------------------------------------------------- conservation, instruction by instruction

  /** The signer holds a private key, so it is not the fundraiser's derived address. */
  predicate WellSigned(env: Env, call: Call) {
    Signer(call) != Some(env.address)
  }

  lemma InitializeConserves(env: Env, s: Chain, step: Step, mint: Pubkey)
    requires step.call.Initialize? && WellSigned(env, step.call) && Apply(env, s, step).Ok?
    ensures SupplyOf(Apply(env, s, step).value, mint) == SupplyOf(s, mint)
    ensures Sum(Apply(env, s, step).value.lamports) == Sum(s.lamports)
  {
    var call := step.call;
    var vault := TokenAccount(env.address, call.mint);
    HeldPut(s.tokens, vault, 0, mint);
    CreateConserves(s.lamports, call.maker, FundraiserAccount, env.fundraiserRent);
    CreateConserves(CreateAccount(s.lamports, call.maker, FundraiserAccount, env.fundraiserRent).value,
        call.maker, TokensAt(vault), env.tokenRent);
  }

  lemma ContributeConserves(env: Env, s: Chain, step: Step, mint: Pubkey)
    requires step.call.Contribute? && WellSigned(env, step.call) && Apply(env, s, step).Ok?
    ensures SupplyOf(Apply(env, s, step).value, mint) == SupplyOf(s, mint)
    ensures Sum(Apply(env, s, step).value.lamports) == Sum(s.lamports)
  {
    var call := step.call;
    var ata, vault := TokenAccount(call.contributor, call.mint), TokenAccount(env.address, call.mint);
    TransferConserves(s.tokens, ata, vault, call.amount, mint);
    if call.account !in s.records {
      CreateConserves(s.lamports, call.contributor, ContributorAccount(call.account), env.contributorRent);
    }
  }

  lemma CheckConserves(env: Env, s: Chain, step: Step, mint: Pubkey)
    requires step.call.CheckContributions? && WellSigned(env, step.call) && Apply(env, s, step).Ok?
    ensures SupplyOf(Apply(env, s, step).value, mint) == SupplyOf(s, mint)
    ensures Sum(Apply(env, s, step).value.lamports) == Sum(s.lamports)
  {
    var f, maker := s.fundraiser.value, step.call.maker;
    var vault, ata := VaultOf(env, f), TokenAccount(maker, step.call.mint);
    var ready := EnsureTokenAccount(env, s, maker, ata).value;
    if ata !in s.tokens {
      HeldPut(s.tokens, ata, 0, mint);
      CreateConserves(s.lamports, maker, TokensAt(ata), env.tokenRent);
    }
    TransferConserves(ready.tokens, vault, ata, ready.tokens[vault], mint);
    HeldDrop(Transfer(ready.tokens, vault, ata, ready.tokens[vault]).value, vault, mint);
    CloseConserves(ready.lamports, TokensAt(vault), maker);
    CloseConserves(CloseAccount(ready.lamports, TokensAt(vault), maker).value, FundraiserAccount, maker);
  }

  lemma RefundConserves(env: Env, s: Chain, step: Step, mint: Pubkey)
    requires step.call.Refund? && WellSigned(env, step.call) && Apply(env, s, step).Ok?
    ensures SupplyOf(Apply(env, s, step).value, mint) == SupplyOf(s, mint)
    ensures Sum(Apply(env, s, step).value.lamports) == Sum(s.lamports)
  {
    var f, call := s.fundraiser.value, step.call;
    TransferConserves(s.tokens, VaultOf(env, f), TokenAccount(call.contributor, call.mint),
        s.records[call.account].amount, mint);
    CloseConserves(s.lamports, ContributorAccount(call.account), call.contributor);
  }

  /** Tokens a step brings into being, in one mint. */
  function MintedBy(call: Call, mint: Pubkey): nat {
    if call.MintTo? && call.mint == mint then call.amount else 0
  }

  /**
   Conservation: every successful instruction preserves the tokens of every mint over all wallets and the
   vault, and all lamports, closes and creations included; only minting adds tokens.
   */
  lemma StepConserves(env: Env, s: Chain, step: Step, mint: Pubkey)
    requires WellSigned(env, step.call) && Apply(env, s, step).Ok?
    ensures SupplyOf(Apply(env, s, step).value, mint) == SupplyOf(s, mint) + MintedBy(step.call, mint)
    ensures Sum(Apply(env, s, step).value.lamports) == Sum(s.lamports)
  {
    match step.call
    case Initialize(_, _, _, _, _) => InitializeConserves(env, s, step, mint);
    case Contribute(_, _, _, _, _) => ContributeConserves(env, s, step, mint);
    case CheckContributions(_, _) => CheckConserves(env, s, step, mint);
    case Refund(_, _, _, _) => RefundConserves(env, s, step, mint);
    case OpenAccount(owner, m) =>
      HeldPut(s.tokens, TokenAccount(owner, m), 0, mint);
      CreateConserves(s.lamports, owner, TokensAt(TokenAccount(owner, m)), env.tokenRent);
    case MintTo(owner, m, amount) =>
      HeldPut(s.tokens, TokenAccount(owner, m), s.tokens[TokenAccount(owner, m)] + amount, mint);
    case Send(from, to, m, amount) =>
      TransferConserves(s.tokens, TokenAccount(from, m), TokenAccount(to, m), amount, mint);
  }

  // ---------------------------------------------------------------- invariant

  /** Only the vault is owned by the fundraiser's address; the record is as initialize left its fixed fields. */
  ghost predicate Sound(env: Env, s: Chain, now: int) {
    && (forall t <- s.tokens | t.owner == env.address :: s.fundraiser.Some? && t == VaultOf(env, s.fundraiser.value))
    && (s.fundraiser.Some? ==>
          var f := s.fundraiser.value;
          && VaultOf(env, f) in s.tokens
          && f.maker == env.maker && f.bump == env.bump && f.started <= now
          && f.mint in env.decimals && CheckTarget(f.target, env.decimals[f.mint]).Ok?)
    && (forall k <- s.records :: s.records[k].bump == k.bump && k.contributor != env.address)
  }

  ghost predicate Invariant(env: Env, s: Chain, now: int) {
    && Sound(env, s, now)
    && (forall mint :: SupplyOf(s, mint) <= U64_MAX)
    && Sum(s.lamports) <= U64_MAX
  }

  /** Accounts before the program was ever called at this address. */
  ghost predicate Start(env: Env, s: Chain) {
    && s.fundraiser.None? && s.records == map[]
    && (forall t <- s.tokens :: t.owner != env.address)
    && (forall mint :: SupplyOf(s, mint) <= U64_MAX)
    && Sum(s.lamports) <= U64_MAX
  }

  lemma StartInvariant(env: Env, s: Chain, now: int)
    requires Start(env, s)
    ensures Invariant(env, s, now)
  {
  }

  lemma InvariantSound(env: Env, s: Chain, now: int)
    requires Invariant(env, s, now)
    ensures Sound(env, s, now)
  {
  }

  lemma StepKeepsSupplies(env: Env, s: Chain, before: int, step: Step)
    requires Invariant(env, s, before) && WellSigned(env, step.call) && Apply(env, s, step).Ok?
    ensures forall mint :: SupplyOf(Apply(env, s, step).value, mint) <= U64_MAX
    ensures Sum(Apply(env, s, step).value.lamports) <= U64_MAX
  {
    hide Apply, SupplyOf;
    forall mint
      ensures SupplyOf(Apply(env, s, step).value, mint) <= U64_MAX
    {
      StepConserves(env, s, step, mint);
      MintingFits(env, s, step, mint);
    }
    StepConserves(env, s, step, env.address);
  }

  lemma MintingFits(env: Env, s: Chain, step: Step, mint: Pubkey)
    requires Apply(env, s, step).Ok? && SupplyOf(s, mint) <= U64_MAX
    ensures SupplyOf(s, mint) + MintedBy(step.call, mint) <= U64_MAX
  {
    hide ApplyInitialize, ApplyContribute, ApplyCheck, ApplyRefund, ApplyOpenAccount, ApplySend, SupplyOf;
  }

  lemma InitializeKeepsSound(env: Env, s: Chain, before: int, step: Step)
    requires Sound(env, s, before) && before <= step.now && WellSigned(env, step.call)
    requires step.call.Initialize? && Apply(env, s, step).Ok?
    ensures Sound(env, Apply(env, s, step).value, step.now)
  {
    hide CreateAccount, CloseAccount, HasEnded, CheckAmount, CheckTarget;
  }

  lemma ContributeKeepsSound(env: Env, s: Chain, before: int, step: Step)
    requires Sound(env, s, before) && before <= step.now && WellSigned(env, step.call)
    requires step.call.Contribute? && Apply(env, s, step).Ok?
    ensures Sound(env, Apply(env, s, step).value, step.now)
  {
    hide CreateAccount, CloseAccount, HasEnded, CheckAmount, CheckTarget;
  }

  lemma CheckKeepsSound(env: Env, s: Chain, before: int, step: Step)
    requires Sound(env, s, before) && before <= step.now && WellSigned(env, step.call)
    requires step.call.CheckContributions? && Apply(env, s, step).Ok?
    ensures Sound(env, Apply(env, s, step).value, step.now)
  {
    hide CreateAccount, CloseAccount, HasEnded, CheckAmount, CheckTarget;
  }

  lemma RefundKeepsSound(env: Env, s: Chain, before: int, step: Step)
    requires Sound(env, s, before) && before <= step.now && WellSigned(env, step.call)
    requires step.call.Refund? && Apply(env, s, step).Ok?
    ensures Sound(env, Apply(env, s, step).value, step.now)
  {
    hide CreateAccount, CloseAccount, HasEnded, CheckAmount, CheckTarget;
  }

  lemma OutsideKeepsSound(env: Env, s: Chain, before: int, step: Step)
    requires Sound(env, s, before) && before <= step.now && WellSigned(env, step.call)
    requires !OfProgram(step.call) && Apply(env, s, step).Ok?
    ensures Sound(env, Apply(env, s, step).value, step.now)
  {
    hide CheckTarget;
  }

  /** The invariant is kept by every well-signed step at any later time, successful or not. */
  lemma StepKeepsInvariant(env: Env, s: Chain, before: int, step: Step)
    requires Invariant(env, s, before) && before <= step.now && WellSigned(env, step.call)
    ensures Invariant(env, Next(env, s, step), step.now)
  {
    hide Apply, SupplyOf;
    if Apply(env, s, step).Ok? {
      StepKeepsSupplies(env, s, before, step);
      match step.call
      case Initialize(_, _, _, _, _) => InitializeKeepsSound(env, s, before, step);
      case Contribute(_, _, _, _, _) => ContributeKeepsSound(env, s, before, step);
      case CheckContributions(_, _) => CheckKeepsSound(env, s, before, step);
      case Refund(_, _, _, _) => RefundKeepsSound(env, s, before, step);
      case OpenAccount(_, _) => OutsideKeepsSound(env, s, before, step);
      case MintTo(_, _, _) => OutsideKeepsSound(env, s, before, step);
      case Send(_, _, _, _) => OutsideKeepsSound(env, s, before, step);
    }
  }
}
