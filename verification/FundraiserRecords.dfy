/**
 The two account records of the fundraiser: plain values, their byte layout, and the mutable views that
 the program lays over account data.
 */
module FundraiserRecords {
  import opened Rust
  import opened LittleEndian
  import opened FundraiserErrors

  datatype FundraiserRecord = FundraiserRecord(
    maker: Pubkey,
    mint: Pubkey,
    target: u64,
    current: u64,
    started: i64,
    duration: u8,
    bump: u8)

  datatype ContributorRecord = ContributorRecord(amount: u64, bump: u8)

  const FUNDRAISER_LEN := 32 + 32 + 8 + 8 + 8 + 1 + 1
  const CONTRIBUTOR_LEN := 8 + 1

  const MINT_AT := 32
  const TARGET_AT := 64
  const CURRENT_AT := 72
  const STARTED_AT := 80
  const DURATION_AT := 88
  const BUMP_AT := 89

  /** `read_u64`: the number at `offset`, if the eight bytes are there. */
  function ReadU64(data: seq<u8>, offset: nat): Result<u64, FundraiserError> {
    if offset + 8 > |data| then Err(InvalidInstructionData) else Ok(U64FromBytes(data[offset..offset + 8]))
  }

  function Decode(data: seq<u8>): FundraiserRecord
    requires |data| == FUNDRAISER_LEN
  {
    FundraiserRecord(
      Pubkey(data[..MINT_AT]),
      Pubkey(data[MINT_AT..TARGET_AT]),
      U64FromBytes(data[TARGET_AT..CURRENT_AT]),
      U64FromBytes(data[CURRENT_AT..STARTED_AT]),
      I64FromBytes(data[STARTED_AT..DURATION_AT]),
      data[DURATION_AT],
      data[BUMP_AT])
  }

  function Encode(r: FundraiserRecord): (data: seq<u8>)
    ensures |data| == FUNDRAISER_LEN
  {
    r.maker.bytes + r.mint.bytes
    + U64ToBytes(r.target) + U64ToBytes(r.current) + I64ToBytes(r.started)
    + [r.duration, r.bump]
  }

  function DecodeContributor(data: seq<u8>): ContributorRecord
    requires |data| == CONTRIBUTOR_LEN
  {
    ContributorRecord(U64FromBytes(data[..8]), data[8])
  }

  function EncodeContributor(r: ContributorRecord): (data: seq<u8>)
    ensures |data| == CONTRIBUTOR_LEN
  {
    U64ToBytes(r.amount) + [r.bump]
  }

  /** Records and buffers of the right length correspond one to one, so no byte is shared, skipped or lost. */
  lemma LayoutBijection(r: FundraiserRecord, data: seq<u8>)
    requires |data| == FUNDRAISER_LEN
    ensures Decode(Encode(r)) == r
    ensures Encode(Decode(data)) == data
  {
    var e := Encode(r);
    assert e[..32] == r.maker.bytes && e[32..64] == r.mint.bytes;
    assert e[64..72] == U64ToBytes(r.target) && e[72..80] == U64ToBytes(r.current)
        && e[80..88] == I64ToBytes(r.started);
    U64RoundTrip(r.target, data[64..72]);
    U64RoundTrip(r.current, data[72..80]);
    I64RoundTrip(r.started, data[80..88]);
    assert data == data[..32] + data[32..64] + data[64..72] + data[72..80] + data[80..88] + [data[88], data[89]];
  }

  lemma ContributorBijection(r: ContributorRecord, data: seq<u8>)
    requires |data| == CONTRIBUTOR_LEN
    ensures DecodeContributor(EncodeContributor(r)) == r
    ensures EncodeContributor(DecodeContributor(data)) == data
  {
    var e := EncodeContributor(r);
    assert e[..8] == U64ToBytes(r.amount);
    U64RoundTrip(r.amount, data[..8]);
    assert data == data[..8] + [data[8]];
  }

  /** Where each field lies, byte by byte. */
  lemma FieldOffsets(data: seq<u8>, record: seq<u8>)
    requires |data| == 90 && |record| == 9
    ensures FUNDRAISER_LEN == 90 && CONTRIBUTOR_LEN == 9
    ensures var f := Decode(data);
            && f.maker.bytes == data[0..32] && f.mint.bytes == data[32..64]
            && f.target == U64FromBytes(data[64..72]) && f.current == U64FromBytes(data[72..80])
            && f.started == I64FromBytes(data[80..88]) && f.duration == data[88] && f.bump == data[89]
    ensures DecodeContributor(record) == ContributorRecord(U64FromBytes(record[0..8]), record[8])
  {
  }

  /** Reading an encoded number back from anywhere inside a buffer. */
  lemma ReadBack(before: seq<u8>, n: u64, after: seq<u8>)
    ensures ReadU64(before + U64ToBytes(n) + after, |before|) == Ok(n)
  {
    var data := before + U64ToBytes(n) + after;
    assert data[|before|..|before| + 8] == U64ToBytes(n);
    U64RoundTrip(n, U64ToBytes(n));
  }

  /** `data` with `bytes` written over it from `offset` on. */
  function Overwrite(data: seq<u8>, offset: nat, bytes: seq<u8>): (r: seq<u8>)
    requires offset + |bytes| <= |data|
    ensures |r| == |data|
  {
    data[..offset] + bytes + data[offset + |bytes|..]
  }

  /** A slice of overwritten data is the new bytes, or untouched where it does not meet them. */
  lemma OverwriteSlice(data: seq<u8>, offset: nat, bytes: seq<u8>, lo: nat, hi: nat)
    requires offset + |bytes| <= |data| && lo <= hi <= |data|
    ensures lo == offset && hi == offset + |bytes| ==> Overwrite(data, offset, bytes)[lo..hi] == bytes
    ensures hi <= offset || offset + |bytes| <= lo ==> Overwrite(data, offset, bytes)[lo..hi] == data[lo..hi]
  {
  }

  method CopyFromSlice(data: array<u8>, offset: nat, bytes: seq<u8>)
    requires offset + |bytes| <= data.Length
    modifies data
    ensures data[..] == Overwrite(old(data[..]), offset, bytes)
  {
    for i := 0 to |bytes|
      invariant forall k | 0 <= k < data.Length ::
                  data[k] == if offset <= k < offset + i then bytes[k - offset] else old(data[k])
    {
      data[offset + i] := bytes[i];
    }
  }

  /** What writing one field of the buffer does to the record. */
  lemma FieldWritten(data: seq<u8>, offset: nat, bytes: seq<u8>)
    requires |data| == FUNDRAISER_LEN && offset + |bytes| <= |data|
    ensures var before, after := Decode(data), Decode(Overwrite(data, offset, bytes));
            && (offset == 0 && |bytes| == 32 ==> after == before.(maker := Pubkey(bytes)))
            && (offset == MINT_AT && |bytes| == 32 ==> after == before.(mint := Pubkey(bytes)))
            && (offset == TARGET_AT && |bytes| == 8 ==> after == before.(target := U64FromBytes(bytes)))
            && (offset == CURRENT_AT && |bytes| == 8 ==> after == before.(current := U64FromBytes(bytes)))
            && (offset == STARTED_AT && |bytes| == 8 ==> after == before.(started := I64FromBytes(bytes)))
            && (offset == DURATION_AT && |bytes| == 1 ==> after == before.(duration := bytes[0]))
            && (offset == BUMP_AT && |bytes| == 1 ==> after == before.(bump := bytes[0]))
  {
    OverwriteSlice(data, offset, bytes, 0, MINT_AT);
    OverwriteSlice(data, offset, bytes, MINT_AT, TARGET_AT);
    OverwriteSlice(data, offset, bytes, TARGET_AT, CURRENT_AT);
    OverwriteSlice(data, offset, bytes, CURRENT_AT, STARTED_AT);
    OverwriteSlice(data, offset, bytes, STARTED_AT, DURATION_AT);
  }

  /** The view of a fundraiser account: it shares the account's bytes. */
  class Fundraiser {
    const data: array<u8>

    ghost predicate Valid() { data.Length == FUNDRAISER_LEN }

    constructor (data: array<u8>)
      requires data.Length == FUNDRAISER_LEN
      ensures Valid() && this.data == data
    {
      this.data := data;
    }

    ghost function Record(): FundraiserRecord
      requires Valid()
      reads data
    {
      Decode(data[..])
    }

    function Maker(): (r: Pubkey)
      requires Valid()
      reads data
      ensures r == Record().maker
    {
      assert data[..][..32] == data[..32];
      Pubkey(data[..32])
    }

    function MintToRaise(): (r: Pubkey)
      requires Valid()
      reads data
      ensures r == Record().mint
    {
      assert data[..][32..64] == data[32..64];
      Pubkey(data[32..64])
    }

    function AmountToRaise(): (r: u64)
      requires Valid()
      reads data
      ensures r == Record().target
    {
      assert data[..][64..72] == data[64..72];
      U64FromBytes(data[64..72])
    }

    function CurrentAmount(): (r: u64)
      requires Valid()
      reads data
      ensures r == Record().current
    {
      assert data[..][72..80] == data[72..80];
      U64FromBytes(data[72..80])
    }

    function TimeStarted(): (r: i64)
      requires Valid()
      reads data
      ensures r == Record().started
    {
      assert data[..][80..88] == data[80..88];
      I64FromBytes(data[80..88])
    }

    function Duration(): (r: u8)
      requires Valid()
      reads data
      ensures r == Record().duration
    {
      data[88]
    }

    function Bump(): (r: u8)
      requires Valid()
      reads data
      ensures r == Record().bump
    {
      data[89]
    }

    /** A copy of the whole record, as the handlers take before they check it. */
    method Load() returns (r: FundraiserRecord)
      requires Valid()
      ensures r == Record()
    {
      r := FundraiserRecord(Maker(), MintToRaise(), AmountToRaise(), CurrentAmount(), TimeStarted(),
          Duration(), Bump());
    }

    method SetMaker(maker: Pubkey)
      requires Valid()
      modifies data
      ensures Record() == old(Record()).(maker := maker)
      ensures data[32..] == old(data[32..])
    {
      FieldWritten(data[..], 0, maker.bytes);
      CopyFromSlice(data, 0, maker.bytes);
    }

    method SetMintToRaise(mint: Pubkey)
      requires Valid()
      modifies data
      ensures Record() == old(Record()).(mint := mint)
      ensures data[..32] == old(data[..32]) && data[64..] == old(data[64..])
    {
      FieldWritten(data[..], MINT_AT, mint.bytes);
      CopyFromSlice(data, MINT_AT, mint.bytes);
    }

    method SetAmountToRaise(amount: u64)
      requires Valid()
      modifies data
      ensures Record() == old(Record()).(target := amount)
      ensures data[..64] == old(data[..64]) && data[72..] == old(data[72..])
    {
      U64RoundTrip(amount, U64ToBytes(amount));
      FieldWritten(data[..], TARGET_AT, U64ToBytes(amount));
      CopyFromSlice(data, TARGET_AT, U64ToBytes(amount));
    }

    method SetCurrentAmount(amount: u64)
      requires Valid()
      modifies data
      ensures Record() == old(Record()).(current := amount)
      ensures data[..72] == old(data[..72]) && data[80..] == old(data[80..])
    {
      U64RoundTrip(amount, U64ToBytes(amount));
      FieldWritten(data[..], CURRENT_AT, U64ToBytes(amount));
      CopyFromSlice(data, CURRENT_AT, U64ToBytes(amount));
    }

    method SetTimeStarted(timestamp: i64)
      requires Valid()
      modifies data
      ensures Record() == old(Record()).(started := timestamp)
      ensures data[..80] == old(data[..80]) && data[88..] == old(data[88..])
    {
      I64RoundTrip(timestamp, I64ToBytes(timestamp));
      FieldWritten(data[..], STARTED_AT, I64ToBytes(timestamp));
      CopyFromSlice(data, STARTED_AT, I64ToBytes(timestamp));
    }

    method SetDuration(duration: u8)
      requires Valid()
      modifies data
      ensures Record() == old(Record()).(duration := duration)
      ensures data[..88] == old(data[..88]) && data[89] == old(data[89])
    {
      FieldWritten(data[..], DURATION_AT, [duration]);
      CopyFromSlice(data, DURATION_AT, [duration]);
    }

    method SetBump(bump: u8)
      requires Valid()
      modifies data
      ensures Record() == old(Record()).(bump := bump)
      ensures data[..89] == old(data[..89])
    {
      FieldWritten(data[..], BUMP_AT, [bump]);
      CopyFromSlice(data, BUMP_AT, [bump]);
    }
  }

  /** The view of a contributor account. */
  class Contributor {
    const data: array<u8>

    ghost predicate Valid() { data.Length == CONTRIBUTOR_LEN }

    constructor (data: array<u8>)
      requires data.Length == CONTRIBUTOR_LEN
      ensures Valid() && this.data == data
    {
      this.data := data;
    }

    ghost function Record(): ContributorRecord
      requires Valid()
      reads data
    {
      DecodeContributor(data[..])
    }

    function Amount(): (r: u64)
      requires Valid()
      reads data
      ensures r == Record().amount
    {
      assert data[..][..8] == data[..8];
      U64FromBytes(data[..8])
    }

    function Bump(): (r: u8)
      requires Valid()
      reads data
      ensures r == Record().bump
    {
      data[8]
    }

    method Load() returns (r: ContributorRecord)
      requires Valid()
      ensures r == Record()
    {
      r := ContributorRecord(Amount(), Bump());
    }

    method SetAmount(amount: u64)
      requires Valid()
      modifies data
      ensures Record() == old(Record()).(amount := amount)
      ensures data[8] == old(data[8])
    {
      CopyFromSlice(data, 0, U64ToBytes(amount));
      U64RoundTrip(amount, U64ToBytes(amount));
      assert data[..][..8] == U64ToBytes(amount);
    }

    method SetBump(bump: u8)
      requires Valid()
      modifies data
      ensures Record() == old(Record()).(bump := bump)
      ensures data[..8] == old(data[..8])
    {
      data[8] := bump;
      assert data[..][..8] == old(data[..])[..8];
    }
  }
}
