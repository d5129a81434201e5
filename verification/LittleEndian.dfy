/** Little-endian integers in byte buffers: `to_le_bytes` and `from_le_bytes` of u64 and i64. */
module LittleEndian {
  import opened Rust

  function Pow256(k: nat): (p: nat)
    ensures p >= 1
  {
    if k == 0 then 1 else 256 * Pow256(k - 1)
  }

  /** The low `k` bytes of `n`, least significant first. */
  function ToBytes(n: nat, k: nat): (b: seq<u8>)
    ensures |b| == k
  {
    if k == 0 then [] else [n % 256] + ToBytes(n / 256, k - 1)
  }

  function FromBytes(b: seq<u8>): nat {
    if b == [] then 0 else b[0] + 256 * FromBytes(b[1..])
  }

  lemma {:induction false} FromBytesBound(b: seq<u8>)
    ensures FromBytes(b) < Pow256(|b|)
    decreases |b|
  {
    if b != [] {
      FromBytesBound(b[1..]);
    }
  }

  lemma {:induction false} NumberRoundTrip(n: nat, k: nat)
    requires n < Pow256(k)
    ensures FromBytes(ToBytes(n, k)) == n
    decreases k
  {
    if k != 0 {
      NumberRoundTrip(n / 256, k - 1);
      assert ToBytes(n, k)[1..] == ToBytes(n / 256, k - 1);
    }
  }

  lemma {:induction false} BytesRoundTrip(b: seq<u8>)
    ensures ToBytes(FromBytes(b), |b|) == b
    decreases |b|
  {
    if b != [] {
      BytesRoundTrip(b[1..]);
      var n := FromBytes(b);
      assert n % 256 == b[0] && n / 256 == FromBytes(b[1..]);
    }
  }

  lemma EightBytes()
    ensures Pow256(8) == U64_MAX + 1
  {
    assert Pow256(2) == 0x1_0000 && Pow256(4) == 0x1_0000_0000 && Pow256(6) == 0x1_0000_0000_0000;
  }

  type Bytes8 = b: seq<u8> | |b| == 8 witness seq(8, _ => 0)

  function U64ToBytes(n: u64): Bytes8 {
    ToBytes(n, 8)
  }

  function U64FromBytes(b: Bytes8): u64 {
    EightBytes();
    FromBytesBound(b);
    FromBytes(b)
  }

  /** Two's complement. */
  function I64ToBytes(n: i64): Bytes8 {
    U64ToBytes(AsU64(n))
  }

  function I64FromBytes(b: Bytes8): i64 {
    var n := U64FromBytes(b);
    if n > I64_MAX then n - U64_MAX - 1 else n
  }

  /** Eight bytes and u64 correspond one to one. */
  lemma U64RoundTrip(n: u64, b: Bytes8)
    ensures U64FromBytes(U64ToBytes(n)) == n
    ensures U64ToBytes(U64FromBytes(b)) == b
  {
    EightBytes();
    NumberRoundTrip(n, 8);
    BytesRoundTrip(b);
  }

  /** Eight bytes and i64 correspond one to one, negative numbers included. */
  lemma I64RoundTrip(n: i64, b: Bytes8)
    ensures I64FromBytes(I64ToBytes(n)) == n
    ensures I64ToBytes(I64FromBytes(b)) == b
  {
    U64RoundTrip(AsU64(n), b);
  }

  /** The eight bytes by their positions, the lowest first; the top bit of the last is the sign. */
  lemma ByteByByte(b: Bytes8)
    ensures U64FromBytes(b) ==
            b[0] as int + 0x100 * (b[1] as int) + 0x1_0000 * (b[2] as int) + 0x100_0000 * (b[3] as int)
            + 0x1_0000_0000 * (b[4] as int) + 0x100_0000_0000 * (b[5] as int)
            + 0x1_0000_0000_0000 * (b[6] as int) + 0x100_0000_0000_0000 * (b[7] as int)
    ensures I64FromBytes(b) == U64FromBytes(b) as int - if b[7] < 0x80 then 0 else 0x1_0000_0000_0000_0000
  {
    assert FromBytes(b[8..]) == 0;
    assert FromBytes(b[7..]) == b[7];
    assert FromBytes(b[6..]) == b[6] as int + 0x100 * (b[7] as int);
    assert FromBytes(b[5..]) == b[5] as int + 0x100 * FromBytes(b[6..]);
    assert FromBytes(b[4..]) == b[4] as int + 0x100 * FromBytes(b[5..]);
    assert FromBytes(b[3..]) == b[3] as int + 0x100 * FromBytes(b[4..]);
    assert FromBytes(b[2..]) == b[2] as int + 0x100 * FromBytes(b[3..]);
    assert FromBytes(b[1..]) == b[1] as int + 0x100 * FromBytes(b[2..]);
    assert b[0..] == b;
  }
}
