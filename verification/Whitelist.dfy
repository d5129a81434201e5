/**
 The whitelist of the transfer-hook vault: a bounded vector of entries, searched linearly, that must behave
 as a finite map from users to allowances; and the hook that consults it.
 */
module Whitelist {
  import opened Rust
  import opened LittleEndian

  const MAX_WHITELIST_ENTRIES := 16
  const ENTRY_LEN := 32 + 8
  const VAULT_LEN := 32 + 32 + 32 + 4 + MAX_WHITELIST_ENTRIES * ENTRY_LEN + 3

  datatype Entry = Entry(user: Pubkey, amount: u64)

  datatype VaultError =
    | InvalidAmount
    | NotWhitelisted
    | AmountExceedsWhitelist
    | WhitelistFull
    | InvalidVaultInteraction
    // account constraints of the hook
    | ConstraintViolated

  // ---------------------------------------------------------------- the vector as a sequence

  /** The position of the first entry for `user`; the length if there is none. */
  function Position(entries: seq<Entry>, user: Pubkey): (p: nat)
    ensures p <= |entries|
    ensures p < |entries| ==> entries[p].user == user
    ensures forall i | 0 <= i < p :: entries[i].user != user
  {
    if entries == [] then 0
    else if entries[0].user == user then 0
    else 1 + Position(entries[1..], user)
  }

  function Upserted(entries: seq<Entry>, user: Pubkey, amount: u64): Result<seq<Entry>, VaultError> {
    var p := Position(entries, user);
    if amount == 0 then Err(InvalidAmount)
    else if p < |entries| then Ok(entries[p := Entry(user, amount)])
    else if |entries| >= MAX_WHITELIST_ENTRIES then Err(WhitelistFull)
    else Ok(entries + [Entry(user, amount)])
  }

  function Removed(entries: seq<Entry>, user: Pubkey): Result<seq<Entry>, VaultError> {
    var p := Position(entries, user);
    if p == |entries| then Err(NotWhitelisted) else Ok(entries[..p] + entries[p + 1..])
  }

  function Allowed(entries: seq<Entry>, user: Pubkey, amount: u64): Result<(), VaultError> {
    var p := Position(entries, user);
    if amount == 0 then Err(InvalidAmount)
    else if p == |entries| then Err(NotWhitelisted)
    else if amount > entries[p].amount then Err(AmountExceedsWhitelist)
    else Ok(())
  }

  // ---------------------------------------------------------------- the vector as a map

  /** Users are distinct, amounts positive, and the vector fits. */
  predicate WellFormed(entries: seq<Entry>) {
    && |entries| <= MAX_WHITELIST_ENTRIES
    && (forall i | 0 <= i < |entries| :: entries[i].amount > 0)
    && (forall i, j | 0 <= i < j < |entries| :: entries[i].user != entries[j].user)
  }

  /** The allowances: each listed user with the amount of the first entry. */
  function Table(entries: seq<Entry>): map<Pubkey, u64> {
    map i | 0 <= i < |entries| && Position(entries, entries[i].user) == i :: entries[i].user := entries[i].amount
  }

  /** The first match is the only index with nothing matching before it. */
  lemma {:induction false} PositionUnique(entries: seq<Entry>, user: Pubkey, p: nat)
    requires p <= |entries| && (p < |entries| ==> entries[p].user == user)
    requires forall i | 0 <= i < p :: entries[i].user != user
    ensures Position(entries, user) == p
    decreases |entries|
  {
    if entries != [] && p != 0 {
      PositionUnique(entries[1..], user, p - 1);
    }
  }

  /** What the table of a well-formed vector knows. */
  lemma TableLookup(entries: seq<Entry>, user: Pubkey)
    requires WellFormed(entries)
    ensures var p := Position(entries, user);
            && (user in Table(entries) <==> p < |entries|)
            && (p < |entries| ==> Table(entries)[user] == entries[p].amount)
  {
    var p := Position(entries, user);
    if p < |entries| {
      assert entries[p].user in Table(entries);
    }
  }

  lemma {:induction false} TableSize(entries: seq<Entry>)
    requires WellFormed(entries)
    ensures |Table(entries)| == |entries|
    decreases |entries|
  {
    if entries == [] {
      assert Table(entries) == map[];
    } else {
      var front, last := entries[..|entries| - 1], entries[|entries| - 1];
      assert front + [last] == entries;
      TablePush(front, last);
      TableSize(front);
      hide Table, Position;
      PositionUnique(front, last.user, |front|);
      TableLookup(front, last.user);
    }
  }

  lemma TablePush(entries: seq<Entry>, e: Entry)
    requires WellFormed(entries + [e])
    ensures WellFormed(entries) && Table(entries + [e]) == Table(entries)[e.user := e.amount]
  {
    var more := entries + [e];
    assert forall i | 0 <= i < |entries| :: more[i] == entries[i];
    assert WellFormed(entries);
    assert more[|entries|] == e;
    forall user
      ensures user in Table(more) <==> user in Table(entries)[e.user := e.amount]
      ensures user in Table(more) ==> Table(more)[user] == Table(entries)[e.user := e.amount][user]
    {
      TableLookup(more, user);
      TableLookup(entries, user);
    }
  }

  /** Upsert is map update; it is refused exactly for a zero amount, or a new user with 16 already listed. */
  lemma UpsertIsUpdate(entries: seq<Entry>, user: Pubkey, amount: u64)
    requires WellFormed(entries)
    ensures var r, table := Upserted(entries, user, amount), Table(entries);
            && (r.Ok? <==> amount > 0 && (user in table || |table| < 16))
            && (r == Err(InvalidAmount) <==> amount == 0)
            && (r == Err(WhitelistFull) <==> amount > 0 && user !in table && |table| == 16)
            && (r.Ok? ==> WellFormed(r.value) && Table(r.value) == table[user := amount])
  {
    hide Table, Position;
    var r, p := Upserted(entries, user, amount), Position(entries, user);
    TableLookup(entries, user);
    TableSize(entries);
    if r.Ok? && p < |entries| {
      var after := r.value;
      forall other
        ensures other in Table(after) <==> other in Table(entries)[user := amount]
        ensures other in Table(after) ==> Table(after)[other] == Table(entries)[user := amount][other]
      {
        PositionUnique(after, other, Position(entries, other));
        TableLookup(after, other);
        TableLookup(entries, other);
      }
    } else if r.Ok? {
      TablePush(entries, Entry(user, amount));
    }
  }

  /** Remove is map deletion; it is refused exactly for a user who is not listed. */
  lemma RemoveIsDelete(entries: seq<Entry>, user: Pubkey)
    requires WellFormed(entries)
    ensures var r, table := Removed(entries, user), Table(entries);
            && (r.Ok? <==> user in table)
            && (r == Err(NotWhitelisted) <==> user !in table)
            && (r.Ok? ==> WellFormed(r.value) && Table(r.value) == table - {user})
  {
    hide Table, Position;
    var r, p := Removed(entries, user), Position(entries, user);
    TableLookup(entries, user);
    if r.Ok? {
      var after := r.value;
      StillWellFormed(entries, p);
      hide WellFormed;
      forall other
        ensures other in Table(after) <==> other in Table(entries) - {user}
        ensures other in Table(after) ==> Table(after)[other] == (Table(entries) - {user})[other]
      {
        PositionAfterRemoval(entries, p, other);
        TableLookup(after, other);
        TableLookup(entries, other);
      }
    }
  }

  lemma StillWellFormed(entries: seq<Entry>, p: nat)
    requires WellFormed(entries) && p < |entries|
    ensures WellFormed(entries[..p] + entries[p + 1..])
  {
    var after := entries[..p] + entries[p + 1..];
    assert forall i | 0 <= i < |after| :: after[i] == entries[if i < p then i else i + 1];
  }

  lemma PositionAfterRemoval(entries: seq<Entry>, p: nat, user: Pubkey)
    requires WellFormed(entries) && p < |entries|
    ensures var q, after := Position(entries, user), entries[..p] + entries[p + 1..];
            Position(after, user) == if user == entries[p].user then |after| else if q > p then q - 1 else q
  {
    hide Position;
    var q, after := Position(entries, user), entries[..p] + entries[p + 1..];
    if user == entries[p].user {
      PositionUnique(after, user, |after|);
    } else {
      PositionUnique(after, user, if q > p then q - 1 else q);
    }
  }

  /** A transfer amount is allowed exactly if it is positive and within the user's allowance; otherwise the
      error says which it was not. */
  lemma AllowedMeaning(entries: seq<Entry>, user: Pubkey, amount: u64)
    requires WellFormed(entries)
    ensures var r, table := Allowed(entries, user, amount), Table(entries);
            && (r.Ok? <==> user in table && 0 < amount <= table[user])
            && (r == Err(InvalidAmount) <==> amount == 0)
            && (r == Err(NotWhitelisted) <==> amount > 0 && user !in table)
            && (r == Err(AmountExceedsWhitelist) <==> amount > 0 && user in table && amount > table[user])
  {
    TableLookup(entries, user);
  }

  // ---------------------------------------------------------------- order

  /** A removal leaves the order of the other users as it is, and closes the gap. */
  lemma RemoveKeepsOrder(entries: seq<Entry>, user: Pubkey, x: Pubkey, y: Pubkey)
    requires WellFormed(entries) && Removed(entries, user).Ok? && x != user && y != user
    ensures var after := Removed(entries, user).value;
            && |after| == |entries| - 1 && Position(after, user) == |after|
            && (Position(after, x) < Position(after, y) <==> Position(entries, x) < Position(entries, y))
  {
    hide Position;
    var p := Position(entries, user);
    PositionAfterRemoval(entries, p, user);
    PositionAfterRemoval(entries, p, x);
    PositionAfterRemoval(entries, p, y);
  }

  /** An upsert leaves every listed user in place, the updated one included; a new user comes last. */
  lemma UpsertKeepsOrder(entries: seq<Entry>, user: Pubkey, amount: u64, other: Pubkey)
    requires WellFormed(entries) && Upserted(entries, user, amount).Ok?
    ensures var after, p := Upserted(entries, user, amount).value, Position(entries, user);
            && |after| == (if p < |entries| then |entries| else |entries| + 1)
            && Position(after, user) == p
            && (Position(entries, other) < |entries| ==> Position(after, other) == Position(entries, other))
  {
    hide Position;
    var after := Upserted(entries, user, amount).value;
    PositionUnique(after, user, Position(entries, user));
    if Position(entries, other) < |entries| {
      PositionUnique(after, other, Position(entries, other));
    }
  }

  // ---------------------------------------------------------------- runs

  datatype Op = Upsert(user: Pubkey, amount: u64) | Remove(user: Pubkey)

  function ApplyOp(entries: seq<Entry>, op: Op): seq<Entry> {
    var r := match op
             case Upsert(user, amount) => Upserted(entries, user, amount)
             case Remove(user) => Removed(entries, user);
    match r
    case Ok(after) => after
    case Err(_) => entries
  }

  function Run(ops: seq<Op>): seq<Entry> {
    if ops == [] then [] else ApplyOp(Run(ops[..|ops| - 1]), ops[|ops| - 1])
  }

  /** The same operations on a map of at most 16 positive allowances. */
  function TableRun(ops: seq<Op>): map<Pubkey, u64> {
    if ops == [] then map[]
    else
      var table := TableRun(ops[..|ops| - 1]);
      match ops[|ops| - 1]
      case Upsert(user, amount) =>
        if amount > 0 && (user in table || |table| < 16) then table[user := amount] else table
      case Remove(user) => table - {user}
  }

  /** Over every sequence of upserts and removes, failed ones included, the vector stays well formed and stands
      for the map. */
  lemma {:induction false} RunRefines(ops: seq<Op>)
    ensures WellFormed(Run(ops)) && |Run(ops)| <= 16
    ensures Table(Run(ops)) == TableRun(ops)
    decreases |ops|
  {
    hide Position, Upserted, Removed;
    if ops == [] {
      assert Table([]) == map[];
    } else {
      var entries := Run(ops[..|ops| - 1]);
      RunRefines(ops[..|ops| - 1]);
      match ops[|ops| - 1] {
        case Upsert(user, amount) => UpsertIsUpdate(entries, user, amount);
        case Remove(user) =>
          RemoveIsDelete(entries, user);
          if user !in Table(entries) {
            assert Table(entries) - {user} == Table(entries);
          }
      }
    }
  }

  /** When the user's present entry was inserted: the last upsert of a user who was not listed at that time. */
  function InsertedAt(ops: seq<Op>, user: Pubkey): nat {
    if ops == [] then 0
    else
      var front, last := ops[..|ops| - 1], ops[|ops| - 1];
      if last.Upsert? && last.user == user && user !in TableRun(front) then |front| else InsertedAt(front, user)
  }

  /** The entries stand in the order of their insertions. */
  predicate InOrder(entries: seq<Entry>, ops: seq<Op>) {
    && (forall i | 0 <= i < |entries| :: InsertedAt(ops, entries[i].user) < |ops|)
    && (forall i, j | 0 <= i < j < |entries| :: InsertedAt(ops, entries[i].user) < InsertedAt(ops, entries[j].user))
  }

  lemma Listed(entries: seq<Entry>, i: nat)
    requires WellFormed(entries) && i < |entries|
    ensures entries[i].user in Table(entries) && Position(entries, entries[i].user) == i
  {
    PositionUnique(entries, entries[i].user, i);
    TableLookup(entries, entries[i].user);
  }

  lemma InsertionPush(ops: seq<Op>, op: Op, user: Pubkey)
    ensures InsertedAt(ops + [op], user) ==
            if op.Upsert? && op.user == user && user !in TableRun(ops) then |ops| else InsertedAt(ops, user)
  {
    assert (ops + [op])[..|ops|] == ops;
  }

  lemma OrderStep(entries: seq<Entry>, ops: seq<Op>, op: Op)
    requires WellFormed(entries) && Table(entries) == TableRun(ops) && InOrder(entries, ops)
    ensures InOrder(ApplyOp(entries, op), ops + [op])
  {
    hide Position, Table, TableRun, WellFormed;
    var more, after := ops + [op], ApplyOp(entries, op);
    forall i | 0 <= i < |entries|
      ensures InsertedAt(more, entries[i].user) == InsertedAt(ops, entries[i].user)
    {
      Listed(entries, i);
      InsertionPush(ops, op, entries[i].user);
    }
    hide InsertedAt;
    match op
    case Upsert(user, amount) =>
      if Upserted(entries, user, amount).Ok? && Position(entries, user) == |entries| {
        TableLookup(entries, user);
        InsertionPush(ops, op, user);
        assert after == entries + [Entry(user, amount)];
      } else {
        assert forall i | 0 <= i < |after| :: after[i].user == entries[i].user;
      }
    case Remove(user) =>
      if Removed(entries, user).Ok? {
        var p := Position(entries, user);
        assert forall i | 0 <= i < |after| :: after[i] == entries[if i < p then i else i + 1];
      }
  }

  /**
   Over every sequence of upserts and removes the listed users stand in the order of their insertions: changing
   an amount or removing someone else moves nobody, and coming back after a removal means coming last.
   */
  lemma {:induction false} RunOrder(ops: seq<Op>)
    ensures InOrder(Run(ops), ops)
    decreases |ops|
  {
    hide Table, TableRun, ApplyOp, WellFormed, InsertedAt, Position, Upserted, Removed;
    if ops != [] {
      hide InOrder;
      var front, last := ops[..|ops| - 1], ops[|ops| - 1];
      RunOrder(front);
      RunRefines(front);
      OrderStep(Run(front), front, last);
      assert front + [last] == ops;
    }
  }

  // ---------------------------------------------------------------- encoded size

  datatype VaultData = VaultData(
    admin: Pubkey,
    mint: Pubkey,
    vaultTokenAccount: Pubkey,
    whitelist: seq<Entry>,
    bump: u8,
    mintBump: u8,
    extraAccountMetaBump: u8)

  function EncodeEntries(entries: seq<Entry>): (b: seq<u8>)
    ensures |b| == |entries| * ENTRY_LEN
  {
    if entries == [] then []
    else
      var last := entries[|entries| - 1];
      EncodeEntries(entries[..|entries| - 1]) + last.user.bytes + U64ToBytes(last.amount)
  }

  /** The account data: an 8-byte discriminator, the fields in order, the vector behind its 4-byte length. */
  function EncodeVault(discriminator: Bytes8, v: VaultData): seq<u8> {
    discriminator + v.admin.bytes + v.mint.bytes + v.vaultTokenAccount.bytes
    + ToBytes(|v.whitelist|, 4) + EncodeEntries(v.whitelist) + [v.bump, v.mintBump, v.extraAccountMetaBump]
  }

  /** Whatever was upserted and removed, the account data fits the space allocated at initialization, and can
      fill it. */
  lemma EncodedSizeFits(discriminator: Bytes8, v: VaultData, ops: seq<Op>)
    requires v.whitelist == Run(ops)
    ensures VAULT_LEN == 743
    ensures |EncodeVault(discriminator, v)| == 111 + 40 * |TableRun(ops)| <= 8 + VAULT_LEN
    ensures |EncodeVault(discriminator, v)| == 8 + VAULT_LEN <==> |TableRun(ops)| == 16
  {
    RunRefines(ops);
    TableSize(v.whitelist);
  }

  lemma {:induction false} EntryBytes(entries: seq<Entry>, i: nat)
    requires i < |entries|
    ensures var b := EncodeEntries(entries);
            && b[40 * i..40 * i + 32] == entries[i].user.bytes
            && b[40 * i + 32..40 * i + 40] == U64ToBytes(entries[i].amount)
    decreases |entries|
  {
    var n := |entries| - 1;
    var front := EncodeEntries(entries[..n]);
    if i == n {
      assert |front| == 40 * i;
    } else {
      EntryBytes(entries[..n], i);
      var b := EncodeEntries(entries);
      assert b[..|front|] == front;
      assert b[40 * i..40 * i + 32] == front[40 * i..40 * i + 32];
      assert b[40 * i + 32..40 * i + 40] == front[40 * i + 32..40 * i + 40];
    }
  }

  /** Where each field of the account data lies: the fixed fields, the little-endian length, the entries in
      their order, and the three bumps behind them. */
  lemma EncodedFields(discriminator: Bytes8, v: VaultData, i: nat)
    requires |v.whitelist| <= 16 && i < |v.whitelist|
    ensures var data, end := EncodeVault(discriminator, v), 108 + 40 * |v.whitelist|;
            && data[0..8] == discriminator && data[8..40] == v.admin.bytes && data[40..72] == v.mint.bytes
            && data[72..104] == v.vaultTokenAccount.bytes && data[104..108] == [|v.whitelist|, 0, 0, 0]
            && data[108 + 40 * i..140 + 40 * i] == v.whitelist[i].user.bytes
            && data[140 + 40 * i..148 + 40 * i] == U64ToBytes(v.whitelist[i].amount)
            && data[end..] == [v.bump, v.mintBump, v.extraAccountMetaBump]
  {
    var data, entries, n := EncodeVault(discriminator, v), EncodeEntries(v.whitelist), |v.whitelist|;
    LengthBytes(n);
    EntryBytes(v.whitelist, i);
    hide EncodeEntries, ToBytes;
    var head := discriminator + v.admin.bytes + v.mint.bytes + v.vaultTokenAccount.bytes + ToBytes(n, 4);
    assert |head| == 108;
    assert data == head + entries + [v.bump, v.mintBump, v.extraAccountMetaBump];
    assert data[108..108 + 40 * n] == entries;
    assert data[108 + 40 * i..140 + 40 * i] == entries[40 * i..40 * i + 32];
    assert data[140 + 40 * i..148 + 40 * i] == entries[40 * i + 32..40 * i + 40];
  }

  lemma LengthBytes(n: nat)
    requires n <= 16
    ensures ToBytes(n, 4) == [n, 0, 0, 0]
  {
    assert ToBytes(0, 0) == [] && ToBytes(0, 1) == [0] && ToBytes(0, 2) == [0, 0] && ToBytes(0, 3) == [0, 0, 0];
  }

  // ---------------------------------------------------------------- the transfer hook

  datatype TokenAccount = TokenAccount(key: Pubkey, owner: Pubkey, mint: Pubkey, transferring: bool)

  function TransferHook(v: VaultData, mint: Pubkey, source: TokenAccount, destination: TokenAccount, amount: u64)
    : Result<(), VaultError>
  {
    if source.mint != mint || destination.mint != mint || v.mint != mint then Err(ConstraintViolated)
    else if v.vaultTokenAccount != source.key
        && v.vaultTokenAccount != destination.key then Err(InvalidVaultInteraction)
    else if !source.transferring then Err(InvalidVaultInteraction)
    else if destination.key == v.vaultTokenAccount then Allowed(v.whitelist, source.owner, amount)
    else if source.key == v.vaultTokenAccount then Allowed(v.whitelist, destination.owner, amount)
    else Err(InvalidVaultInteraction)
  }

  /**
   A transfer is accepted if and only if it is in progress, all three mints agree, one side is the vault
   account, and the amount is positive and within the map's allowance of the user on the other side; if the
   vault is on both sides, the owner of the source counts. Otherwise the error is that of the first that fails.
   */
  lemma HookExactly(
    v: VaultData, mint: Pubkey, ops: seq<Op>, source: TokenAccount, destination: TokenAccount, amount: u64)
    requires v.whitelist == Run(ops)
    ensures var user := if destination.key == v.vaultTokenAccount then source.owner else destination.owner;
            var r, table := TransferHook(v, mint, source, destination, amount), TableRun(ops);
            var minted := source.mint == mint && destination.mint == mint && v.mint == mint;
            var sided := source.key == v.vaultTokenAccount || destination.key == v.vaultTokenAccount;
            var asked := minted && sided && source.transferring;
            && (r.Ok? <==> asked && user in table && 0 < amount <= table[user])
            && (r == Err(ConstraintViolated) <==> !minted)
            && (r == Err(InvalidVaultInteraction) <==> minted && !(sided && source.transferring))
            && (r == Err(InvalidAmount) <==> asked && amount == 0)
            && (r == Err(NotWhitelisted) <==> asked && amount > 0 && user !in table)
            && (r == Err(AmountExceedsWhitelist) <==> asked && user in table && amount > table[user] && amount > 0)
  {
    RunRefines(ops);
    AllowedMeaning(v.whitelist, source.owner, amount);
    AllowedMeaning(v.whitelist, destination.owner, amount);
  }
}
