/** The reward formula shared by claim and unstake. */
module Rewards {
  import opened Rust
  import opened StakingErrors

  const SECONDS_PER_DAY: i64 := 86400

  /**
   The base units minted for `days` reward days, with the failures of the checked operations in their
   order: the product by the basis points, the power of ten (whose overflow panics), the product by it.
   */
  function RewardAmount(days: i64, bps: u16, decimals: u8): Result<u64, StakingError> {
    var perDay :- CheckedU64(AsU64(days) * bps, InvalidRewardsBps);
    if !FitsU64(Pow10(decimals)) then Err(Panicked)
    else
      var scaled :- CheckedU64(perDay * Pow10(decimals), InvalidRewardsBps);
      Ok(scaled / 10000)
  }

  /** The value of the formula when nothing overflows: the exact reward rounded down. */
  function FloorReward(days: nat, bps: u16, decimals: u8): nat {
    days * bps * Pow10(decimals) / 10000
  }

  predicate ArithmeticFits(days: nat, bps: u16, decimals: u8) {
    FitsI64(days) && FitsU64(days * bps) && FitsU64(Pow10(decimals)) && FitsU64(days * bps * Pow10(decimals))
  }

  /** For a non-negative number of days the formula succeeds exactly when it fits, with the floor of the exact
      reward. */
  lemma RewardIsFloor(days: nat, bps: u16, decimals: u8)
    requires FitsI64(days)
    ensures RewardAmount(days, bps, decimals).Ok? <==> ArithmeticFits(days, bps, decimals)
    ensures ArithmeticFits(days, bps, decimals) ==>
              RewardAmount(days, bps, decimals).value == days * bps * Pow10(decimals) / 10000
  {
  }

  /** Which failure it is when the reward does not fit; a clock in the future, as a negative number of days, is
      never paid at 6 decimals. */
  lemma RewardRefusals(days: i64, bps: u16, decimals: u8)
    ensures days >= 0 ==>
              && (RewardAmount(days, bps, decimals) == Err(Panicked) <==>
                    days * bps <= U64_MAX && Pow10(decimals) > U64_MAX)
              && (RewardAmount(days, bps, decimals) == Err(InvalidRewardsBps) <==>
                    days * bps > U64_MAX || (Pow10(decimals) <= U64_MAX && days * bps * Pow10(decimals) > U64_MAX))
    ensures days < 0 ==> RewardAmount(days, bps, 6) == if bps == 0 then Ok(0) else Err(InvalidRewardsBps)
  {
    if days < 0 {
      SixZeros();
      WrappedProduct(days + U64_MAX + 1, bps);
    }
  }

  /** The wrapped number of days is at least 2^63, so its product by 10^6 does not fit. */
  lemma WrappedProduct(days: nat, bps: u16)
    requires days > I64_MAX
    ensures bps == 0 ==> days * bps == 0
    ensures bps > 0 ==> days * bps > I64_MAX && days * bps * 1_000_000 > U64_MAX
  {
    if bps > 0 {
      assert days * bps >= days;
    }
  }

  function Total(days: seq<nat>): nat {
    if days == [] then 0 else Total(days[..|days| - 1]) + days[|days| - 1]
  }

  /** The sum of one payment for each entry of `days`; `None` if the arithmetic of one of them does not fit. */
  function Payments(days: seq<nat>, bps: u16, decimals: u8): Option<nat> {
    if days == [] then Some(0)
    else
      var last := days[|days| - 1];
      if !FitsI64(last) then None
      else
        match (Payments(days[..|days| - 1], bps, decimals), RewardAmount(last, bps, decimals))
        case (Some(paid), Ok(amount)) => Some(paid + amount)
        case _ => None
  }

  lemma FloorOfSum(x: nat, y: nat)
    ensures x / 10000 + y / 10000 <= (x + y) / 10000 <= x / 10000 + y / 10000 + 1
    ensures x % 10000 == 0 || y % 10000 == 0 ==> (x + y) / 10000 == x / 10000 + y / 10000
  {
  }

  /** The scaled reward is additive in the days, so fewer days fit whenever more do. */
  lemma ScaledSum(d: nat, e: nat, bps: nat, unit: nat)
    ensures (d + e) * bps == d * bps + e * bps
    ensures (d + e) * bps * unit == d * bps * unit + e * bps * unit
    ensures d * bps >= 0 && e * bps >= 0 && d * bps * unit >= 0 && e * bps * unit >= 0
  {
    var x, y := d * bps, e * bps;
    assert (d + e) * bps == x + y;
    assert (x + y) * unit == x * unit + y * unit;
  }

  /** At 6 decimals every day pays a whole number of base units: bps * 10^6 is a multiple of 10000. */
  lemma NoRemainder(days: nat, bps: u16)
    ensures days * bps * Pow10(6) % 10000 == 0
    ensures FloorReward(days, bps, 6) == days * (100 * bps)
  {
    SixZeros();
    var n := days * bps;
    assert n * 1_000_000 == (100 * n) * 10000;
    assert days * (100 * bps) == 100 * n;
  }

  lemma SixZeros()
    ensures Pow10(6) == 1_000_000
  {
    assert Pow10(1) == 10 && Pow10(2) == 100 && Pow10(3) == 1000 && Pow10(4) == 10000 && Pow10(5) == 100000;
  }

  /**
   Splitting a period into n >= 1 payments, for any decimals where the arithmetic of the one payment fits:
   every part fits too, together they never mint more than the one payment and at most n - 1 base units less,
   and exactly the same at the 6 decimals fixed at initialization.
   */
  lemma {:induction false} SplitPayments(days: seq<nat>, bps: u16, decimals: u8)
    requires |days| >= 1 && ArithmeticFits(Total(days), bps, decimals)
    ensures var paid, whole := Payments(days, bps, decimals), FloorReward(Total(days), bps, decimals);
            && paid.Some?
            && paid.value <= whole <= paid.value + |days| - 1
            && (decimals == 6 ==> paid.value == whole)
    decreases |days|
  {
    var front, last := days[..|days| - 1], days[|days| - 1];
    ScaledSum(Total(front), last, bps, Pow10(decimals));
    assert ArithmeticFits(last, bps, decimals) && ArithmeticFits(Total(front), bps, decimals);
    RewardIsFloor(last, bps, decimals);
    FloorOfSum(Total(front) * bps * Pow10(decimals), last * bps * Pow10(decimals));
    if decimals == 6 {
      NoRemainder(last, bps);
    }
    if front == [] {
      assert Total(days) == last;
    } else {
      SplitPayments(front, bps, decimals);
    }
  }

  const MAX_SAFE_DAYS := 281_479_271

  /** At 6 decimals the formula overflows for no u16 bps exactly up to 281,479,271 days. */
  lemma SafeDays(days: nat)
    requires FitsI64(days)
    ensures (forall bps: u16 :: RewardAmount(days, bps, 6).Ok?) <==> days <= MAX_SAFE_DAYS
  {
    SixZeros();
    forall bps: u16
      ensures RewardAmount(days, bps, 6).Ok? <==> days * bps <= 18_446_744_073_709
    {
      RewardIsFloor(days, bps, 6);
      var n := days * bps;
    }
    if days <= MAX_SAFE_DAYS {
      forall bps: u16
        ensures days * bps <= 18_446_744_073_709
      {
        assert days * bps <= MAX_SAFE_DAYS * bps;
      }
    } else {
      var top: u16 := 0xFFFF;
      assert RewardAmount(days, top, 6).Ok? <==> days * top <= 18_446_744_073_709;
    }
  }
}
