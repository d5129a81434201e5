/** The vault account with its whitelist vector changed in place. */
module WhitelistVault {
  import opened Rust
  import opened Whitelist

  class Vault {
    const admin: Pubkey
    const mint: Pubkey
    const vaultTokenAccount: Pubkey
    const bumps: (u8, u8, u8)
    const whitelist: array<Entry>
    var len: nat

    ghost predicate Valid()
      reads this`len
    {
      len <= whitelist.Length == MAX_WHITELIST_ENTRIES
    }

    ghost function Entries(): seq<Entry>
      requires Valid()
      reads this`len, whitelist
    {
      whitelist[..len]
    }

    ghost function Data(): VaultData
      requires Valid()
      reads this`len, whitelist
    {
      VaultData(admin, mint, vaultTokenAccount, Entries(), bumps.0, bumps.1, bumps.2)
    }

    constructor (admin: Pubkey, mint: Pubkey, vaultTokenAccount: Pubkey, bumps: (u8, u8, u8))
      ensures Valid() && fresh(whitelist)
      ensures Data() == VaultData(admin, mint, vaultTokenAccount, [], bumps.0, bumps.1, bumps.2)
    {
      this.admin, this.mint, this.vaultTokenAccount, this.bumps := admin, mint, vaultTokenAccount, bumps;
      whitelist := new Entry[MAX_WHITELIST_ENTRIES](_ => Entry(admin, 0));
      len := 0;
    }

    /** The first entry for `user`, or the length. */
    method Find(user: Pubkey) returns (i: nat)
      requires Valid()
      ensures i == Position(Entries(), user)
    {
      i := 0;
      while i < len && whitelist[i].user != user
        invariant i <= len
        invariant forall j | 0 <= j < i :: whitelist[j].user != user
      {
        i := i + 1;
      }
      PositionUnique(Entries(), user, i);
    }

    method AssertAllowed(user: Pubkey, amount: u64) returns (r: Result<(), VaultError>)
      requires Valid()
      ensures r == Allowed(Entries(), user, amount)
    {
      if amount == 0 {
        return Err(InvalidAmount);
      }
      var i := Find(user);
      if i == len {
        return Err(NotWhitelisted);
      }
      if amount > whitelist[i].amount {
        return Err(AmountExceedsWhitelist);
      }
      return Ok(());
    }

    method UpsertWhitelistEntry(user: Pubkey, amount: u64) returns (r: Result<(), VaultError>)
      requires Valid()
      modifies this`len, whitelist
      ensures Valid()
      ensures match Upserted(old(Entries()), user, amount)
              case Ok(after) => r == Ok(()) && Entries() == after
              case Err(e) => r == Err(e) && Entries() == old(Entries())
    {
      if amount == 0 {
        return Err(InvalidAmount);
      }
      var i := Find(user);
      if i < len {
        whitelist[i] := whitelist[i].(amount := amount);
        return Ok(());
      }
      if len >= MAX_WHITELIST_ENTRIES {
        return Err(WhitelistFull);
      }
      whitelist[len] := Entry(user, amount);
      len := len + 1;
      return Ok(());
    }

    /** `Vec::remove`: every later entry moves down by one. */
    method RemoveWhitelistEntry(user: Pubkey) returns (r: Result<(), VaultError>)
      requires Valid()
      modifies this`len, whitelist
      ensures Valid()
      ensures match Removed(old(Entries()), user)
              case Ok(after) => r == Ok(()) && Entries() == after
              case Err(e) => r == Err(e) && Entries() == old(Entries())
    {
      var position := Find(user);
      if position == len {
        return Err(NotWhitelisted);
      }
      ghost var before := Entries();
      for i := position to len - 1
        invariant len == |before| && Valid()
        invariant forall k | 0 <= k < position :: whitelist[k] == before[k]
        invariant forall k | position <= k < i :: whitelist[k] == before[k + 1]
        invariant forall k | i <= k < |before| :: whitelist[k] == before[k]
      {
        whitelist[i] := whitelist[i + 1];
      }
      len := len - 1;
      assert Entries() == before[..position] + before[position + 1..];
      return Ok(());
    }

    /** The hook: which side is the user, then the table. */
    method Hook(mint: Pubkey, source: TokenAccount, destination: TokenAccount,
        amount: u64) returns (r: Result<(), VaultError>)
      requires Valid()
      ensures r == TransferHook(Data(), mint, source, destination, amount)
    {
      if source.mint != mint || destination.mint != mint || this.mint != mint {
        return Err(ConstraintViolated);
      }
      if vaultTokenAccount != source.key && vaultTokenAccount != destination.key {
        return Err(InvalidVaultInteraction);
      }
      if !source.transferring {
        return Err(InvalidVaultInteraction);
      }
      var interactingUser := if destination.key == vaultTokenAccount then source.owner else destination.owner;
      r := AssertAllowed(interactingUser, amount);
    }
  }
}
