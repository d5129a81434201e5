/**
 The fragment of Rust's arithmetic and library types that the on-chain programs rely on:
 fixed-width integers, checked and saturating operations, truncating division, `Option` and `Result`.
 */
module Rust {

  const I64_MIN := -0x8000_0000_0000_0000
  const I64_MAX := 0x7FFF_FFFF_FFFF_FFFF
  const U64_MAX := 0xFFFF_FFFF_FFFF_FFFF

  type i64 = x: int | I64_MIN <= x <= I64_MAX
  type u64 = x: int | 0 <= x <= U64_MAX
  type u16 = x: int | 0 <= x <= 0xFFFF
  type u8 = x: int | 0 <= x <= 0xFF

  type Bytes32 = b: seq<u8> | |b| == 32 witness seq(32, _ => 0)

  datatype Pubkey = Pubkey(bytes: Bytes32)

  datatype Option<+T> = None | Some(value: T)

  datatype Result<+T, +E> = Ok(value: T) | Err(error: E) {
    predicate IsFailure() { Err? }

    function PropagateFailure<U>(): Result<U, E>
      requires Err?
    {
      Err(error)
    }

    function Extract(): T
      requires Ok?
    {
      value
    }
  }

  predicate FitsI64(x: int) { I64_MIN <= x <= I64_MAX }

  predicate FitsU64(x: int) { 0 <= x <= U64_MAX }

  /** The outcome of a checked `i64` operation whose exact value is `x`. */
  function CheckedI64<E>(x: int, error: E): Result<i64, E> {
    if FitsI64(x) then Ok(x) else Err(error)
  }

  /** The outcome of a checked `u64` operation whose exact value is `x`. */
  function CheckedU64<E>(x: int, error: E): Result<u64, E> {
    if FitsU64(x) then Ok(x) else Err(error)
  }

  /** `i64` saturation of the exact value `x`. */
  function SaturatingI64(x: int): i64 {
    if x < I64_MIN then I64_MIN else if x > I64_MAX then I64_MAX else x
  }

  /** Integer division rounding toward zero, as Rust's `/` and `checked_div` do; Dafny's `/` is Euclidean. */
  function TruncDiv(a: int, b: int): int
    requires b > 0
  {
    if a >= 0 then a / b else -(-a / b)
  }

  /** The cast `x as u64`: a negative value wraps around. */
  function AsU64(x: i64): u64 {
    if x < 0 then x + U64_MAX + 1 else x
  }

  function Pow10(n: nat): (p: nat)
    ensures p >= 1
  {
    if n == 0 then 1 else 10 * Pow10(n - 1)
  }

  /** Powers of ten for every exponent: ten at one, and products for sums. */
  lemma {:induction false} PowersOfTen(m: nat, n: nat)
    ensures Pow10(0) == 1 && Pow10(1) == 10
    ensures Pow10(m + n) == Pow10(m) * Pow10(n)
    decreases m
  {
    if m != 0 {
      PowersOfTen(m - 1, n);
      TenTimes(Pow10(m - 1), Pow10(n));
    }
  }

  lemma TenTimes(a: nat, b: nat)
    ensures 10 * (a * b) == 10 * a * b
  {
  }

  lemma DivMod(m: nat, b: int)
    requires b > 0
    ensures m == b * (m / b) + m % b && 0 <= m % b < b
  {
  }

  lemma MulNegated(b: int, q: int)
    ensures b * -q == -(b * q)
  {
  }

  /** `TruncDiv` is the quotient with a remainder smaller than the divisor and of the dividend's sign. */
  lemma TruncDivMeaning(a: int, b: int)
    requires b > 0
    ensures var r := a - b * TruncDiv(a, b); -b < r < b && (r > 0 ==> a > 0) && (r < 0 ==> a < 0)
  {
    if a >= 0 {
      DivMod(a, b);
    } else {
      DivMod(-a, b);
      MulNegated(b, -a / b);
    }
  }
}
