/**
 The accounts that one fundraiser address works on, and its four instructions as functions of them.
 `FundraiserProgram` runs the instructions on byte buffers and is proved against `Apply`.

 Addresses derived by the program stand for their seeds: the fundraiser's address for its maker and bump,
 a contributor record's for the contributor and bump. Rent minimums and mint decimals are parameters.
 */
module FundraiserChain {
  import opened Rust
  import opened FundraiserErrors
  import opened FundraiserRecords
  import opened FundraiserRules
  import Sums

  /** What does not change: the fundraiser's address and seeds, the decimals of each mint, the rent minimums. */
  datatype Env = Env(
    address: Pubkey,
    maker: Pubkey,
    bump: u8,
    decimals: map<Pubkey, u8>,
    fundraiserRent: u64,
    contributorRent: u64,
    tokenRent: u64)

  /** The seeds of a contributor record at this fundraiser. */
  datatype Key = Key(contributor: Pubkey, bump: u8)

  datatype TokenAccount = TokenAccount(owner: Pubkey, mint: Pubkey)

  /** Accounts that hold lamports. */
  datatype Holder =
    | Wallet(key: Pubkey)
    | FundraiserAccount
    | ContributorAccount(record: Key)
    | TokensAt(account: TokenAccount)

  datatype Chain = Chain(
    fundraiser: Option<FundraiserRecord>,
    records: map<Key, ContributorRecord>,
    tokens: map<TokenAccount, nat>,
    lamports: map<Holder, nat>)

  datatype Call =
    | Initialize(maker: Pubkey, mint: Pubkey, bump: u8, amount: u64, duration: u8)
    | Contribute(contributor: Pubkey, mint: Pubkey, account: Key, bump: u8, amount: u64)
    | CheckContributions(maker: Pubkey, mint: Pubkey)
    | Refund(contributor: Pubkey, maker: Pubkey, mint: Pubkey, account: Key)
    // outside the program: a wallet opens a token account, tokens are minted, or sent by their owner
    | OpenAccount(owner: Pubkey, mint: Pubkey)
    | MintTo(owner: Pubkey, mint: Pubkey, amount: u64)
    | Send(from: Pubkey, to: Pubkey, mint: Pubkey, amount: u64)

  datatype Step = Step(now: i64, call: Call)

  type Outcome = Result<Chain, FundraiserError>

  function VaultOf(env: Env, f: FundraiserRecord): TokenAccount {
    TokenAccount(env.address, f.mint)
  }

  // ---------------------------------------------------------------- system and token programs

  function Balance(lamports: map<Holder, nat>, h: Holder): nat {
    if h in lamports then lamports[h] else 0
  }

  /** A new account funded by `payer`; refused if it exists or the payer cannot pay. */
  function CreateAccount(lamports: map<Holder, nat>, payer: Pubkey, account: Holder, rent: u64)
    : Result<map<Holder, nat>, FundraiserError>
  {
    var available := Balance(lamports, Wallet(payer));
    if account in lamports then Err(AccountInUse)
    else if available < rent then Err(InsufficientLamports)
    else Ok(lamports[Wallet(payer) := available - rent][account := rent])
  }

  /** `close_program_account`, and the token program's close: all lamports go to `destination`. */
  function CloseAccount(lamports: map<Holder, nat>, account: Holder, destination: Pubkey)
    : Result<map<Holder, nat>, FundraiserError>
  {
    var total :- CheckedU64(Balance(lamports, Wallet(destination)) + Balance(lamports, account), ArithmeticOverflow);
    Ok(lamports[Wallet(destination) := total] - {account})
  }

  function Transfer(tokens: map<TokenAccount, nat>, from: TokenAccount, to: TokenAccount, amount: nat)
    : Result<map<TokenAccount, nat>, FundraiserError>
    requires from in tokens && to in tokens
  {
    if tokens[from] < amount then Err(InsufficientFunds)
    else if from == to then Ok(tokens)
    else if !FitsU64(tokens[to] + amount) then Err(TokenOverflow)
    else Ok(tokens[from := tokens[from] - amount][to := tokens[to] + amount])
  }

  // ---------------------------------------------------------------- instructions

  function ApplyInitialize(env: Env, s: Chain, now: i64, maker: Pubkey, mint: Pubkey, bump: u8, amount: u64,
      duration: u8): Outcome {
    var vault := TokenAccount(env.address, mint);
    if s.fundraiser.Some? then Err(AccountAlreadyInitialized)
    else if maker != env.maker || bump != env.bump then Err(InvalidAccountData)
    else if mint !in env.decimals then Err(InvalidAccountData)
    else
      var _ :- CheckTarget(amount, env.decimals[mint]);
      var created :- CreateAccount(s.lamports, maker, FundraiserAccount, env.fundraiserRent);
      if vault in s.tokens then Err(AccountInUse)
      else
        var lamports :- CreateAccount(created, maker, TokensAt(vault), env.tokenRent);
        Ok(s.(fundraiser := Some(FundraiserRecord(maker, mint, amount, 0, now, duration, bump)),
              tokens := s.tokens[vault := 0],
              lamports := lamports))
  }

  /** `create_contributor_if_needed`: an existing record is taken as it is. */
  function CreateContributor(env: Env, s: Chain, contributor: Pubkey, account: Key, bump: u8): Outcome {
    if account in s.records then Ok(s)
    else if account != Key(contributor, bump) then Err(InvalidAccountData)
    else
      var lamports :- CreateAccount(s.lamports, contributor, ContributorAccount(account), env.contributorRent);
      Ok(s.(records := s.records[account := ContributorRecord(0, bump)], lamports := lamports))
  }

  function ApplyContribute(env: Env, s: Chain, now: i64, contributor: Pubkey, mint: Pubkey, account: Key,
      bump: u8, amount: u64): Outcome {
    if s.fundraiser.None? then Err(IllegalOwner)
    else
      var f := s.fundraiser.value;
      if f.mint != mint || f.maker != env.maker || f.bump != env.bump then Err(InvalidAccountData)
      else
        var ready :- CreateContributor(env, s, contributor, account, bump);
        ContributeTo(env, ready, f, now, contributor, account, amount)
  }

  /** The rest of contribute, once the record exists. */
  function ContributeTo(env: Env, s: Chain, f: FundraiserRecord, now: i64, contributor: Pubkey, account: Key,
      amount: u64): Outcome
    requires account in s.records
  {
    var ata, vault, record := TokenAccount(contributor, f.mint), VaultOf(env, f), s.records[account];
    if account != Key(contributor, record.bump) then Err(InvalidAccountData)
    else if ata !in s.tokens || vault !in s.tokens then Err(InvalidAccountData)
    else if HasEnded(f, now) then Err(FundraiserEnded)
    else if f.mint !in env.decimals then Err(InvalidAccountData)
    else
      var (newRecorded, newCurrent) :- CheckAmount(f, record.amount, amount, env.decimals[f.mint]);
      var tokens :- Transfer(s.tokens, ata, vault, amount);
      Ok(s.(fundraiser := Some(f.(current := newCurrent)),
            records := s.records[account := record.(amount := newRecorded)],
            tokens := tokens))
  }

  /** The maker's token account, created empty at the maker's expense if there is none. */
  function EnsureTokenAccount(env: Env, s: Chain, owner: Pubkey, account: TokenAccount): Outcome {
    if account in s.tokens then Ok(s)
    else
      var lamports :- CreateAccount(s.lamports, owner, TokensAt(account), env.tokenRent);
      Ok(s.(tokens := s.tokens[account := 0], lamports := lamports))
  }

  function ApplyCheck(env: Env, s: Chain, maker: Pubkey, mint: Pubkey): Outcome {
    if s.fundraiser.None? then Err(IllegalOwner)
    else
      var f := s.fundraiser.value;
      if f.maker != maker || f.mint != mint || f.maker != env.maker || f.bump != env.bump then Err(InvalidAccountData)
      else if VaultOf(env, f) !in s.tokens then Err(InvalidAccountData)
      else
        var ready :- EnsureTokenAccount(env, s, maker, TokenAccount(maker, mint));
        PayOut(env, ready, f)
  }

  /** The rest of check_contributions: the target gate, the payout of the whole vault, and the two closes. */
  function PayOut(env: Env, s: Chain, f: FundraiserRecord): Outcome
    requires VaultOf(env, f) in s.tokens && TokenAccount(f.maker, f.mint) in s.tokens
  {
    var vault := VaultOf(env, f);
    if s.tokens[vault] < f.target then Err(TargetNotMet)
    else
      var tokens :- Transfer(s.tokens, vault, TokenAccount(f.maker, f.mint), s.tokens[vault]);
      var closed :- CloseAccount(s.lamports, TokensAt(vault), f.maker);
      var lamports :- CloseAccount(closed, FundraiserAccount, f.maker);
      Ok(s.(fundraiser := None, tokens := tokens - {vault}, lamports := lamports))
  }

  function ApplyRefund(env: Env, s: Chain, now: i64, contributor: Pubkey, maker: Pubkey, mint: Pubkey,
      account: Key): Outcome {
    if s.fundraiser.None? || account !in s.records then Err(IllegalOwner)
    else
      var f, record := s.fundraiser.value, s.records[account];
      var ata, vault := TokenAccount(contributor, mint), VaultOf(env, f);
      if f.maker != maker || f.mint != mint || f.maker != env.maker || f.bump != env.bump then Err(InvalidAccountData)
      else if account != Key(contributor, record.bump) then Err(InvalidAccountData)
      else if ata !in s.tokens || vault !in s.tokens then Err(InvalidAccountData)
      else if !HasEnded(f, now) then Err(FundraiserNotEnded)
      else if s.tokens[vault] >= f.target then Err(TargetMet)
      else PayBack(env, s, f, account)
  }

  /** The rest of refund, past all gates: the transfer, the checked subtraction and the close of the record. */
  function PayBack(env: Env, s: Chain, f: FundraiserRecord, account: Key): Outcome
    requires account in s.records
    requires VaultOf(env, f) in s.tokens && TokenAccount(account.contributor, f.mint) in s.tokens
  {
    var amount := s.records[account].amount;
    var tokens :- Transfer(s.tokens, VaultOf(env, f), TokenAccount(account.contributor, f.mint), amount);
    var newCurrent :- CheckedU64(f.current - amount, ArithmeticOverflow);
    var lamports :- CloseAccount(s.lamports, ContributorAccount(account), account.contributor);
    Ok(s.(fundraiser := Some(f.(current := newCurrent)),
          records := s.records - {account},
          tokens := tokens,
          lamports := lamports))
  }

  // ---------------------------------------------------------------- steps outside the program

  /** The balances in one mint. */
  function Held(tokens: map<TokenAccount, nat>, mint: Pubkey): map<TokenAccount, nat> {
    map t | t in tokens && t.mint == mint :: tokens[t]
  }

  ghost function SupplyOf(s: Chain, mint: Pubkey): int {
    Sums.Sum(Held(s.tokens, mint))
  }

  /** A wallet opens its token account of a mint, at its own expense. */
  function ApplyOpenAccount(env: Env, s: Chain, account: TokenAccount): Outcome {
    if account in s.tokens then Err(AccountInUse) else EnsureTokenAccount(env, s, account.owner, account)
  }

  ghost function ApplyMintTo(s: Chain, account: TokenAccount, amount: u64): Outcome {
    if account !in s.tokens then Err(InvalidAccountData)
    else if !FitsU64(SupplyOf(s, account.mint) + amount) then Err(TokenOverflow)
    else Ok(s.(tokens := s.tokens[account := s.tokens[account] + amount]))
  }

  function ApplySend(s: Chain, from: TokenAccount, to: TokenAccount, amount: u64): Outcome {
    if from !in s.tokens || to !in s.tokens then Err(InvalidAccountData)
    else
      var tokens :- Transfer(s.tokens, from, to, amount);
      Ok(s.(tokens := tokens))
  }

  ghost function Apply(env: Env, s: Chain, step: Step): Outcome {
    match step.call
    case Initialize(maker, mint, bump, amount, duration) =>
      ApplyInitialize(env, s, step.now, maker, mint, bump, amount, duration)
    case Contribute(contributor, mint, account, bump, amount) =>
      ApplyContribute(env, s, step.now, contributor, mint, account, bump, amount)
    case CheckContributions(maker, mint) => ApplyCheck(env, s, maker, mint)
    case Refund(contributor, maker, mint, account) => ApplyRefund(env, s, step.now, contributor, maker, mint, account)
    case OpenAccount(owner, mint) => ApplyOpenAccount(env, s, TokenAccount(owner, mint))
    case MintTo(owner, mint, amount) => ApplyMintTo(s, TokenAccount(owner, mint), amount)
    case Send(from, to, mint, amount) => ApplySend(s, TokenAccount(from, mint), TokenAccount(to, mint), amount)
  }

  /** The accounts after a step, successful or not. */
  ghost function Next(env: Env, s: Chain, step: Step): Chain {
    match Apply(env, s, step)
    case Ok(next) => next
    case Err(_) => s
  }

  /** The instructions of the program, as opposed to what happens around it. */
  predicate OfProgram(call: Call) {
    !call.OpenAccount? && !call.MintTo? && !call.Send?
  }

  /** The key that signs a step; no private key belongs to a derived address. */
  function Signer(call: Call): Option<Pubkey> {
    match call
    case Initialize(maker, _, _, _, _) => Some(maker)
    case Contribute(contributor, _, _, _, _) => Some(contributor)
    case CheckContributions(maker, _) => Some(maker)
    case Refund(contributor, _, _, _) => Some(contributor)
    case OpenAccount(owner, _) => Some(owner)
    case MintTo(_, _, _) => None
    case Send(from, _, _, _) => Some(from)
  }
}
