/**
 The fundraiser instructions as they run: account data are byte buffers changed in place through views,
 token and lamport balances change one operation after another, and a failed instruction is rolled back.
 */
module FundraiserProgram {
  import opened Rust
  import opened LittleEndian
  import opened FundraiserErrors
  import opened FundraiserRecords
  import opened FundraiserRules
  import opened FundraiserChain

  // ---------------------------------------------------------------- instruction data

  /**
   The accounts an instruction names: how many there are, the first one and whether it signs, the maker, the
   mint and the contributor record.
   */
  datatype Named = Named(count: nat, signer: Pubkey, signed: bool, maker: Pubkey, mint: Pubkey, account: Key)

  /** The fewest accounts the instruction with this discriminator takes. */
  function AccountsNeeded(discriminator: u8): nat {
    match discriminator
    case 0 => 6
    case 2 => 7
    case _ => 8
  }

  /**
   `process_instruction` up to the first checks of the handlers: the discriminator, the number of accounts, the
   length of the data and the signature, in this order. Accepted are exactly signed data of 11, 10, or any number
   of bytes for the first byte 0, 1, or 2 and 3, with at least 6, 8, 7 and 8 accounts for the first byte 0, 1, 2
   and 3; the bump, amount and duration are read at their places, the rest comes from the named accounts.
   */
  function ParseCall(named: Named, instruction: seq<u8>): (r: Result<Call, FundraiserError>)
    ensures instruction == [] || instruction[0] > 3 ==> r == Err(InvalidInstructionData)
    ensures instruction != [] && instruction[0] == 0 ==>
              r == if named.count < 6 then Err(NotEnoughAccountKeys)
                   else if |instruction| != 11 then Err(InvalidInstructionData)
                   else if !named.signed then Err(MissingRequiredSignature)
                   else Ok(Initialize(named.signer, named.mint, instruction[1], U64FromBytes(instruction[2..10]),
                                      instruction[10]))
    ensures instruction != [] && instruction[0] == 1 ==>
              r == if named.count < 8 then Err(NotEnoughAccountKeys)
                   else if |instruction| != 10 then Err(InvalidInstructionData)
                   else if !named.signed then Err(MissingRequiredSignature)
                   else Ok(Contribute(named.signer, named.mint, named.account, instruction[1],
                                      U64FromBytes(instruction[2..10])))
    ensures instruction != [] && instruction[0] == 2 ==>
              r == if named.count < 7 then Err(NotEnoughAccountKeys)
                   else if !named.signed then Err(MissingRequiredSignature)
                   else Ok(CheckContributions(named.signer, named.mint))
    ensures instruction != [] && instruction[0] == 3 ==>
              r == if named.count < 8 then Err(NotEnoughAccountKeys)
                   else if !named.signed then Err(MissingRequiredSignature)
                   else Ok(Refund(named.signer, named.maker, named.mint, named.account))
    ensures r.Ok? ==> OfProgram(r.value) && Signer(r.value) == Some(named.signer) && r.value.mint == named.mint
  {
    if instruction == [] || instruction[0] > 3 then Err(InvalidInstructionData)
    else if named.count < AccountsNeeded(instruction[0]) then Err(NotEnoughAccountKeys)
    else
      var data := instruction[1..];
      assert |data| >= 9 ==> data[1..9] == instruction[2..10];
      if instruction[0] == 0 && |data| != 10 then Err(InvalidInstructionData)
      else if instruction[0] == 1 && |data| != 9 then Err(InvalidInstructionData)
      else if !named.signed then Err(MissingRequiredSignature)
      else
        match instruction[0]
        case 0 =>
          (match ReadU64(data, 1)
           case Err(e) => Err(e)
           case Ok(amount) => Ok(Initialize(named.signer, named.mint, data[0], amount, data[9])))
        case 1 =>
          (match ReadU64(data, 1)
           case Err(e) => Err(e)
           case Ok(amount) => Ok(Contribute(named.signer, named.mint, named.account, data[0], amount)))
        case 2 => Ok(CheckContributions(named.signer, named.mint))
        case _ => Ok(Refund(named.signer, named.maker, named.mint, named.account))
  }

  /** What a client sends for a call of the program. */
  function CallData(call: Call): seq<u8>
    requires OfProgram(call)
  {
    match call
    case Initialize(_, _, bump, amount, duration) => [0, bump] + U64ToBytes(amount) + [duration]
    case Contribute(_, _, _, bump, amount) => [1, bump] + U64ToBytes(amount)
    case CheckContributions(_, _) => [2]
    case Refund(_, _, _, _) => [3]
  }

  /** Every call, signed and with its accounts, is read back as it was sent; with one account fewer it is
      refused, and unsigned it is refused. */
  lemma ParseRoundTrip(named: Named, call: Call)
    requires OfProgram(call) && Signer(call) == Some(named.signer) && call.mint == named.mint
    requires call.Contribute? ==> call.account == named.account
    requires call.Refund? ==> call.account == named.account && call.maker == named.maker
    ensures var needed := match call
                          case Initialize(_, _, _, _, _) => 6
                          case CheckContributions(_, _) => 7
                          case _ => 8;
            ParseCall(named, CallData(call)) ==
            if named.count < needed then Err(NotEnoughAccountKeys)
            else if !named.signed then Err(MissingRequiredSignature)
            else Ok(call)
  {
    var data := CallData(call)[1..];
    match call {
      case Initialize(_, _, bump, amount, duration) =>
        ReadBack([bump], amount, [duration]);
        assert data == [bump] + U64ToBytes(amount) + [duration];
      case Contribute(_, _, _, bump, amount) =>
        ReadBack([bump], amount, []);
        assert data == [bump] + U64ToBytes(amount) + [];
      case _ =>
    }
  }

  // ---------------------------------------------------------------- the program

  class Program {
    const env: Env
    var fundraiser: array?<u8>
    var contributors: map<Key, array<u8>>
    var tokens: map<TokenAccount, nat>
    var lamports: map<Holder, nat>

    ghost function Buffers(): set<object>
      reads this`fundraiser, this`contributors
    {
      (if fundraiser == null then {} else {fundraiser}) + contributors.Values
    }

    /** Buffers have their record's length, and no two records share one. */
    ghost predicate Valid()
      reads this`fundraiser, this`contributors, Buffers()
    {
      && (fundraiser != null ==> fundraiser.Length == FUNDRAISER_LEN)
      && (forall k <- contributors :: contributors[k].Length == CONTRIBUTOR_LEN)
      && (forall j <- contributors, k <- contributors | j != k :: contributors[j] != contributors[k])
    }

    ghost function State(): Option<FundraiserRecord>
      requires Valid()
      reads this`fundraiser, this`contributors, Buffers()
    {
      if fundraiser == null then None else Some(Decode(fundraiser[..]))
    }

    ghost function Records(): map<Key, ContributorRecord>
      requires Valid()
      reads this`fundraiser, this`contributors, Buffers()
    {
      map k | k in contributors :: DecodeContributor(contributors[k][..])
    }

    ghost function Accounts(): Chain
      requires Valid()
      reads this, Buffers()
    {
      Chain(State(), Records(), tokens, lamports)
    }

    constructor (env: Env, tokens: map<TokenAccount, nat>, lamports: map<Holder, nat>)
      ensures Valid() && this.env == env
      ensures Accounts() == Chain(None, map[], tokens, lamports)
    {
      this.env, this.tokens, this.lamports := env, tokens, lamports;
      fundraiser, contributors := null, map[];
    }

    // -------------------------------------------------------------- access to account data

    /** A copy of the fundraiser record. */
    method LoadFundraiser() returns (f: FundraiserRecord)
      requires Valid() && fundraiser != null
      ensures State() == Some(f)
    {
      var view := new Fundraiser(fundraiser);
      f := view.Load();
    }

    method LoadContributor(account: Key) returns (c: ContributorRecord)
      requires Valid() && account in contributors
      ensures account in Records() && Records()[account] == c
    {
      var view := new Contributor(contributors[account]);
      c := view.Load();
    }

    /** Data for a new fundraiser account, with every field set. */
    method NewFundraiser(f: FundraiserRecord)
      requires Valid() && fundraiser == null
      modifies this`fundraiser
      ensures Valid() && fresh(Buffers() - old(Buffers())) && contributors == old(contributors)
      ensures State() == Some(f) && Records() == old(Records())
    {
      hide Decode, DecodeContributor;
      var data := new u8[FUNDRAISER_LEN](_ => 0);
      var view := new Fundraiser(data);
      view.SetMaker(f.maker);
      view.SetMintToRaise(f.mint);
      view.SetAmountToRaise(f.target);
      view.SetCurrentAmount(f.current);
      view.SetTimeStarted(f.started);
      view.SetDuration(f.duration);
      view.SetBump(f.bump);
      fundraiser := data;
      assert Records() == old(Records());
    }

    method NewContributor(account: Key, bump: u8)
      requires Valid() && account !in contributors
      modifies this`contributors
      ensures Valid() && fresh(Buffers() - old(Buffers()))
      ensures State() == old(State()) && Records() == old(Records())[account := ContributorRecord(0, bump)]
    {
      hide Decode, DecodeContributor;
      var data := new u8[CONTRIBUTOR_LEN](_ => 0);
      var view := new Contributor(data);
      view.SetAmount(0);
      view.SetBump(bump);
      contributors := contributors[account := data];
      assert Records() == old(Records())[account := ContributorRecord(0, bump)];
    }

    method SetCurrentAmount(amount: u64)
      requires Valid() && fundraiser != null
      modifies fundraiser
      ensures Valid() && Records() == old(Records())
      ensures State() == Some(old(State()).value.(current := amount))
      ensures forall k <- contributors :: contributors[k][..] == old(contributors[k][..])
    {
      hide Decode, DecodeContributor;
      var view := new Fundraiser(fundraiser);
      view.SetCurrentAmount(amount);
      assert Records() == old(Records());
    }

    method SetContributorAmount(account: Key, amount: u64)
      requires Valid() && account in contributors
      modifies contributors[account]
      ensures Valid() && State() == old(State())
      ensures Records() == old(Records())[account := old(Records())[account].(amount := amount)]
    {
      hide Decode, DecodeContributor;
      var view := new Contributor(contributors[account]);
      view.SetAmount(amount);
      assert Records() == old(Records())[account := old(Records())[account].(amount := amount)];
    }

    method RemoveContributor(account: Key)
      requires Valid() && account in contributors
      modifies this`contributors
      ensures Valid() && State() == old(State()) && Records() == old(Records()) - {account}
      ensures Buffers() <= old(Buffers())
    {
      hide Decode, DecodeContributor;
      contributors := contributors - {account};
      assert Records() == old(Records()) - {account};
    }

    // -------------------------------------------------------------- instructions

    method ProcessInitialize(now: i64, maker: Pubkey, mint: Pubkey, bump: u8, amount: u64, duration: u8)
      returns (r: Result<(), FundraiserError>)
      requires Valid()
      modifies this`fundraiser, this`tokens, this`lamports
      ensures match ApplyInitialize(env, old(Accounts()), now, maker, mint, bump, amount, duration)
              case Ok(s) => r == Ok(()) && Valid() && Accounts() == s
              case Err(e) => r == Err(e)
      ensures r.Ok? ==> fresh(Buffers() - old(Buffers()))
      ensures contributors == old(contributors)
    {
      hide Decode, DecodeContributor, CheckTarget, CreateAccount;
      if fundraiser != null {
        return Err(AccountAlreadyInitialized);
      }
      if maker != env.maker || bump != env.bump || mint !in env.decimals {
        return Err(InvalidAccountData);
      }
      var _ :- CheckTarget(amount, env.decimals[mint]);
      var created :- CreateAccount(lamports, maker, FundraiserAccount, env.fundraiserRent);
      lamports := created;
      var vault := TokenAccount(env.address, mint);
      if vault in tokens {
        return Err(AccountInUse);
      }
      created :- CreateAccount(lamports, maker, TokensAt(vault), env.tokenRent);
      lamports, tokens := created, tokens[vault := 0];
      NewFundraiser(FundraiserRecord(maker, mint, amount, 0, now, duration, bump));
      return Ok(());
    }

    method CreateContributorIfNeeded(contributor: Pubkey, account: Key, bump: u8) returns (r: Result<(),
        FundraiserError>)
      requires Valid()
      modifies this`contributors, this`lamports
      ensures match CreateContributor(env, old(Accounts()), contributor, account, bump)
              case Ok(s) => r == Ok(()) && Valid() && Accounts() == s && account in contributors
              case Err(e) => r == Err(e)
      ensures r.Ok? ==> fresh(Buffers() - old(Buffers()))
    {
      hide DecodeContributor, Decode, CreateAccount;
      assert Records().Keys == contributors.Keys;
      if account in contributors {
        return Ok(());
      }
      if account != Key(contributor, bump) {
        return Err(InvalidAccountData);
      }
      var created :- CreateAccount(lamports, contributor, ContributorAccount(account), env.contributorRent);
      lamports := created;
      NewContributor(account, bump);
      assert account in Records();
      return Ok(());
    }

    method ProcessContribute(now: i64, contributor: Pubkey, mint: Pubkey, account: Key, bump: u8, amount: u64)
      returns (r: Result<(), FundraiserError>)
      requires Valid()
      modifies this`contributors, this`lamports, this`tokens, Buffers()
      ensures match ApplyContribute(env, old(Accounts()), now, contributor, mint, account, bump, amount)
              case Ok(s) => r == Ok(()) && Valid() && Accounts() == s
              case Err(e) => r == Err(e)
      ensures r.Ok? ==> fresh(Buffers() - old(Buffers()))
      ensures r.Err? ==> forall k <- old(contributors) :: old(contributors)[k][..] == old(contributors[k][..])
    {
      hide Decode, DecodeContributor, CreateContributor, ContributeTo;
      if fundraiser == null {
        return Err(IllegalOwner);
      }
      var state := LoadFundraiser();
      if state.mint != mint || state.maker != env.maker || state.bump != env.bump {
        return Err(InvalidAccountData);
      }
      var _ :- CreateContributorIfNeeded(contributor, account, bump);
      r := FinishContribute(now, contributor, account, amount);
    }

    /** Contribute from the point where the record exists. */
    method FinishContribute(now: i64, contributor: Pubkey, account: Key, amount: u64) returns (r: Result<(),
        FundraiserError>)
      requires Valid() && fundraiser != null && account in contributors
      modifies this`tokens, fundraiser, contributors[account]
      ensures account in old(Accounts()).records
      ensures match ContributeTo(env, old(Accounts()), old(State()).value, now, contributor, account, amount)
              case Ok(s) => r == Ok(()) && Valid() && Accounts() == s
              case Err(e) => r == Err(e)
      ensures r.Err? ==> contributors[account][..] == old(contributors[account][..])
    {
      hide Decode, DecodeContributor, HasEnded, CheckAmount, Transfer;
      ghost var before := Accounts();
      var state := LoadFundraiser();
      var record := LoadContributor(account);
      var ata, vault := TokenAccount(contributor, state.mint), TokenAccount(env.address, state.mint);
      if account != Key(contributor, record.bump) {
        return Err(InvalidAccountData);
      }
      if ata !in tokens || vault !in tokens {
        return Err(InvalidAccountData);
      }
      if HasEnded(state, now) {
        return Err(FundraiserEnded);
      }
      if state.mint !in env.decimals {
        return Err(InvalidAccountData);
      }
      var sums :- CheckAmount(state, record.amount, amount, env.decimals[state.mint]);
      var moved :- Transfer(tokens, ata, vault, amount);
      tokens := moved;
      SetCurrentAmount(sums.1);
      assert Records() == before.records;
      SetContributorAmount(account, sums.0);
      assert State() == Some(state.(current := sums.1));
      assert Records() == before.records[account := record.(amount := sums.0)];
      assert ContributeTo(env, before, state, now, contributor, account, amount) == Ok(Accounts());
      return Ok(());
    }

    method ProcessCheckContributions(maker: Pubkey, mint: Pubkey) returns (r: Result<(), FundraiserError>)
      requires Valid()
      modifies this`fundraiser, this`tokens, this`lamports
      ensures match ApplyCheck(env, old(Accounts()), maker, mint)
              case Ok(s) => r == Ok(()) && Valid() && Accounts() == s
              case Err(e) => r == Err(e)
      ensures Buffers() <= old(Buffers())
    {
      hide Decode, DecodeContributor, CreateAccount, CloseAccount, Transfer;
      if fundraiser == null {
        return Err(IllegalOwner);
      }
      var state := LoadFundraiser();
      if state.maker != maker || state.mint != mint || state.maker != env.maker || state.bump != env.bump {
        return Err(InvalidAccountData);
      }
      var vault, ata := TokenAccount(env.address, mint), TokenAccount(maker, mint);
      if vault !in tokens {
        return Err(InvalidAccountData);
      }
      if ata !in tokens {
        var created :- CreateAccount(lamports, maker, TokensAt(ata), env.tokenRent);
        lamports, tokens := created, tokens[ata := 0];
      }
      assert State() == old(State()) && Records() == old(Records());
      assert EnsureTokenAccount(env, old(Accounts()), maker, ata) == Ok(Accounts());
      r := FinishCheckContributions(maker, mint, state.target);
    }

    /** check_contributions from the point where the maker's token account exists. */
    method FinishCheckContributions(maker: Pubkey, mint: Pubkey, target: u64) returns (r: Result<(), FundraiserError>)
      requires Valid() && State().Some? && State().value.maker == maker && State().value.mint == mint
          && State().value.target == target
      requires TokenAccount(env.address, mint) in tokens && TokenAccount(maker, mint) in tokens
      modifies this`fundraiser, this`tokens, this`lamports
      ensures match PayOut(env, old(Accounts()), old(State()).value)
              case Ok(s) => r == Ok(()) && Valid() && Accounts() == s
              case Err(e) => r == Err(e)
      ensures Buffers() <= old(Buffers())
    {
      hide Decode, DecodeContributor, CloseAccount, Transfer;
      var vault, ata := TokenAccount(env.address, mint), TokenAccount(maker, mint);
      var amount := tokens[vault];
      if amount < target {
        return Err(TargetNotMet);
      }
      var moved :- Transfer(tokens, vault, ata, amount);
      tokens := moved;
      var closed :- CloseAccount(lamports, TokensAt(vault), maker);
      lamports, tokens := closed, tokens - {vault};
      closed :- CloseAccount(lamports, FundraiserAccount, maker);
      lamports, fundraiser := closed, null;
      assert Records() == old(Records());
      return Ok(());
    }

    method ProcessRefund(now: i64, contributor: Pubkey, maker: Pubkey, mint: Pubkey, account: Key)
      returns (r: Result<(), FundraiserError>)
      requires Valid()
      modifies this`contributors, this`tokens, this`lamports, Buffers()
      ensures match ApplyRefund(env, old(Accounts()), now, contributor, maker, mint, account)
              case Ok(s) => r == Ok(()) && Valid() && Accounts() == s
              case Err(e) => r == Err(e)
      ensures Buffers() <= old(Buffers())
      ensures forall k <- old(contributors) :: old(contributors)[k][..] == old(contributors[k][..])
    {
      hide Decode, DecodeContributor, PayBack, HasEnded;
      assert Records().Keys == contributors.Keys;
      if fundraiser == null || account !in contributors {
        return Err(IllegalOwner);
      }
      var state := LoadFundraiser();
      if state.maker != maker || state.mint != mint || state.maker != env.maker || state.bump != env.bump {
        return Err(InvalidAccountData);
      }
      var record := LoadContributor(account);
      if account != Key(contributor, record.bump) {
        return Err(InvalidAccountData);
      }
      var ata, vault := TokenAccount(contributor, mint), TokenAccount(env.address, mint);
      if ata !in tokens || vault !in tokens {
        return Err(InvalidAccountData);
      }
      if !HasEnded(state, now) {
        return Err(FundraiserNotEnded);
      }
      if tokens[vault] >= state.target {
        return Err(TargetMet);
      }
      r := FinishRefund(account);
    }

    /** A refund past all gates. */
    method FinishRefund(account: Key) returns (r: Result<(), FundraiserError>)
      requires Valid() && fundraiser != null && account in contributors
      requires TokenAccount(env.address, State().value.mint) in tokens
      requires TokenAccount(account.contributor, State().value.mint) in tokens
      modifies this`contributors, this`tokens, this`lamports, fundraiser
      ensures account in old(Accounts()).records
      ensures match PayBack(env, old(Accounts()), old(State()).value, account)
              case Ok(s) => r == Ok(()) && Valid() && Accounts() == s
              case Err(e) => r == Err(e)
      ensures Buffers() <= old(Buffers())
      ensures forall k <- old(contributors) :: old(contributors)[k][..] == old(contributors[k][..])
    {
      hide Decode, DecodeContributor, CloseAccount, Transfer;
      ghost var before := Accounts();
      var state := LoadFundraiser();
      var record := LoadContributor(account);
      var vault, ata := TokenAccount(env.address, state.mint), TokenAccount(account.contributor, state.mint);
      var moved :- Transfer(tokens, vault, ata, record.amount);
      tokens := moved;
      var newCurrent :- CheckedU64(state.current - record.amount, ArithmeticOverflow);
      assert State() == before.fundraiser && Records() == before.records;
      r := SettleRefund(account.contributor, account, newCurrent);
    }

    /** The end of a refund: the new current amount is stored and the record closed. */
    method SettleRefund(contributor: Pubkey, account: Key, newCurrent: u64) returns (r: Result<(), FundraiserError>)
      requires Valid() && fundraiser != null && account in contributors
      modifies this`contributors, this`lamports, fundraiser
      ensures match CloseAccount(old(lamports), ContributorAccount(account), contributor)
              case Ok(l) =>
                && r == Ok(()) && Valid() && lamports == l
                && State() == Some(old(State()).value.(current := newCurrent))
                && Records() == old(Records()) - {account}
              case Err(e) => r == Err(e)
      ensures Buffers() <= old(Buffers())
      ensures forall k <- old(contributors) :: old(contributors)[k][..] == old(contributors[k][..])
    {
      hide Decode, DecodeContributor, CloseAccount;
      SetCurrentAmount(newCurrent);
      var closed :- CloseAccount(lamports, ContributorAccount(account), contributor);
      lamports := closed;
      RemoveContributor(account);
      return Ok(());
    }

    /** One transaction: the instruction data, the handler, and on failure the rollback of every account. */
    method ProcessInstruction(now: i64, named: Named, instruction: seq<u8>) returns (r: Result<(), FundraiserError>)
      requires Valid()
      modifies this, Buffers()
      ensures Valid() && fresh(Buffers() - old(Buffers()))
      ensures match ParseCall(named, instruction)
              case Err(e) => r == Err(e) && Accounts() == old(Accounts())
              case Ok(call) =>
                && Accounts() == Next(env, old(Accounts()), Step(now, call))
                && match Apply(env, old(Accounts()), Step(now, call))
                   case Ok(_) => r == Ok(())
                   case Err(e) => r == Err(e)
    {
      hide Decode, DecodeContributor, ParseCall, ApplyInitialize, ApplyContribute, ApplyCheck, ApplyRefund;
      var call :- ParseCall(named, instruction);
      var savedFundraiser, savedContributors, savedTokens, savedLamports := fundraiser, contributors, tokens, lamports;
      var savedData := if fundraiser == null then [] else fundraiser[..];
      match call {
        case Initialize(maker, mint, bump, amount, duration) =>
          r := ProcessInitialize(now, maker, mint, bump, amount, duration);
        case Contribute(contributor, mint, account, bump, amount) =>
          r := ProcessContribute(now, contributor, mint, account, bump, amount);
        case CheckContributions(maker, mint) =>
          r := ProcessCheckContributions(maker, mint);
        case Refund(contributor, maker, mint, account) =>
          r := ProcessRefund(now, contributor, maker, mint, account);
      }
      if r.Err? {
        Restore(savedFundraiser, savedContributors, savedTokens, savedLamports, savedData);
      }
    }

    /** The accounts go back to what they were, in place. */
    method Restore(f: array?<u8>, cs: map<Key, array<u8>>, ts: map<TokenAccount, nat>, ls: map<Holder, nat>,
        data: seq<u8>)
      requires f != null ==> f.Length == FUNDRAISER_LEN == |data|
      requires forall k <- cs :: cs[k].Length == CONTRIBUTOR_LEN
      modifies this, if f == null then {} else {f}
      ensures fundraiser == f && contributors == cs && tokens == ts && lamports == ls
      ensures f != null ==> f[..] == data
      ensures forall k <- cs :: cs[k][..] == old(cs[k][..])
    {
      fundraiser, contributors, tokens, lamports := f, cs, ts, ls;
      if f != null {
        CopyFromSlice(f, 0, data);
      }
    }
  }
}
