/** The arithmetic gates of the fundraiser: deadline, minimum, cap. */
module FundraiserRules {
  import opened Rust
  import opened FundraiserErrors
  import opened FundraiserRecords

  const MIN_AMOUNT_TO_RAISE := 3
  const SECONDS_TO_DAYS := 86_400
  const MAX_CONTRIBUTION_PERCENTAGE := 10
  const PERCENTAGE_SCALER := 100

  /** `pow10`: 10 to the power of the mint's decimals, if that is a u64. */
  function UnitOf(decimals: u8): Result<u64, FundraiserError> {
    CheckedU64(Pow10(decimals), ArithmeticOverflow)
  }

  /** `has_ended`: whole days since the start, by saturating subtraction and truncating division. */
  predicate HasEnded(f: FundraiserRecord, now: i64) {
    f.duration != 0 && TruncDiv(SaturatingI64(now - f.started), SECONDS_TO_DAYS) >= f.duration
  }

  /** For all i64 inputs the deadline is exactly started + 86400 * duration; saturation and rounding never show. */
  lemma DeadlineExact(f: FundraiserRecord, now: i64)
    ensures HasEnded(f, now) <==> f.duration != 0 && now >= f.started + 86_400 * f.duration
  {
  }

  /** Once ended, a fundraiser stays ended. */
  lemma EndedForGood(f: FundraiserRecord, g: FundraiserRecord, now: i64, later: i64)
    requires HasEnded(f, now) && now <= later && g.started == f.started && g.duration == f.duration
    ensures HasEnded(g, later)
  {
    DeadlineExact(f, now);
    DeadlineExact(g, later);
  }

  /** The target gate of initialize. */
  function CheckTarget(target: u64, decimals: u8): Result<(), FundraiserError> {
    var unit :- UnitOf(decimals);
    var minimum :- CheckedU64(MIN_AMOUNT_TO_RAISE * unit, ArithmeticOverflow);
    if target <= minimum then Err(InvalidAmount) else Ok(())
  }

  /** The amount gates of contribute; on success the new record amount and the new current amount. */
  function CheckAmount(f: FundraiserRecord, recorded: u64, amount: u64, decimals: u8): Result<(u64, u64),
      FundraiserError> {
    var unit :- UnitOf(decimals);
    if amount < unit then Err(ContributionTooSmall)
    else
      var scaled :- CheckedU64(f.target * MAX_CONTRIBUTION_PERCENTAGE, ArithmeticOverflow);
      var maxContribution := scaled / PERCENTAGE_SCALER;
      if amount > maxContribution then Err(ContributionTooBig)
      else
        var newRecorded :- CheckedU64(recorded + amount, ArithmeticOverflow);
        if newRecorded > maxContribution then Err(MaximumContributionsReached)
        else
          var newCurrent :- CheckedU64(f.current + amount, ArithmeticOverflow);
          Ok((newRecorded, newCurrent))
  }

  /** The most one record may hold. */
  function Cap(f: FundraiserRecord): nat {
    f.target * MAX_CONTRIBUTION_PERCENTAGE / PERCENTAGE_SCALER
  }

  /** The targets that leave room for any contribution at all. */
  predicate Feasible(target: u64, decimals: u8) {
    10 * Pow10(decimals) <= target <= U64_MAX / 10
  }

  /** The cap is a tenth of the target, rounded down; a feasible target leaves room for one whole token. */
  lemma CapIsATenth(f: FundraiserRecord, decimals: u8)
    ensures Cap(f) == f.target / 10
    ensures Feasible(f.target, decimals) <==> Pow10(decimals) <= f.target / 10 && f.target * 10 <= U64_MAX
  {
  }

  /** What passing the amount gates means. */
  lemma CheckAmountMeaning(f: FundraiserRecord, recorded: u64, amount: u64, decimals: u8)
    ensures CheckAmount(f, recorded, amount, decimals).Ok? <==>
              && 10 * Pow10(decimals) <= f.target <= U64_MAX / 10
              && Pow10(decimals) <= amount
              && recorded + amount <= f.target / 10
              && f.current + amount <= U64_MAX
    ensures CheckAmount(f, recorded, amount, decimals).Ok? ==>
              CheckAmount(f, recorded, amount, decimals).value == (recorded + amount, f.current + amount)
  {
    assert Cap(f) == f.target / 10;
  }

  /** Which gate refuses an amount, in their order: the minimum, the width of the product by ten, the cap on one
      contribution, the cap on the record, the width of the two sums. */
  lemma CheckAmountRefusals(f: FundraiserRecord, recorded: u64, amount: u64, decimals: u8)
    requires Pow10(decimals) <= U64_MAX
    ensures var r, wide, cap := CheckAmount(f, recorded, amount, decimals), f.target * 10 > U64_MAX, f.target / 10;
            && (r == Err(ContributionTooSmall) <==> amount < Pow10(decimals))
            && (amount >= Pow10(decimals) ==>
                  && (r == Err(ContributionTooBig) <==> !wide && amount > cap)
                  && (r == Err(MaximumContributionsReached) <==> !wide && amount <= cap < recorded + amount <= U64_MAX)
                  && (r == Err(ArithmeticOverflow) <==>
                        || wide
                        || (amount <= cap && recorded + amount > U64_MAX)
                        || (recorded + amount <= cap && f.current + amount > U64_MAX)))
            && (r.Err? ==>
                  r.error in
                  {ContributionTooSmall, ContributionTooBig, MaximumContributionsReached, ArithmeticOverflow})
  {
    CapIsATenth(f, decimals);
    hide Pow10;
  }

  /** The target gate of initialize: the exact condition of each error. */
  lemma CheckTargetRefusals(target: u64, decimals: u8)
    ensures var r := CheckTarget(target, decimals);
            && (r == Err(ArithmeticOverflow) <==> 3 * Pow10(decimals) > U64_MAX)
            && (r == Err(InvalidAmount) <==> target <= 3 * Pow10(decimals) <= U64_MAX)
            && (r.Err? ==> r.error in {ArithmeticOverflow, InvalidAmount})
  {
  }

  /**
   Feasibility: for a fundraiser that has raised nothing and a fresh record, some amount passes every amount
   gate if and only if 10 * 10^decimals <= target <= floor((2^64 - 1) / 10).
   */
  lemma SomeAmountPasses(f: FundraiserRecord, decimals: u8)
    requires f.current == 0
    ensures (exists amount: u64 :: CheckAmount(f, 0, amount, decimals).Ok?) <==>
              10 * Pow10(decimals) <= f.target <= U64_MAX / 10
  {
    if Feasible(f.target, decimals) {
      CheckAmountMeaning(f, 0, Pow10(decimals), decimals);
      assert CheckAmount(f, 0, Pow10(decimals), decimals).Ok?;
    } else {
      forall amount: u64
        ensures CheckAmount(f, 0, amount, decimals).Err?
      {
        CheckAmountMeaning(f, 0, amount, decimals);
      }
    }
  }

  /**
   Initialize accepts targets that no contribution can ever meet: exactly those above 3 * 10^decimals that are
   not feasible, for example 4 at no decimals and the largest u64.
   */
  lemma InitializeAcceptsMore(target: u64, decimals: u8)
    ensures CheckTarget(target, decimals).Ok? <==> target > 3 * Pow10(decimals)
    ensures Feasible(target, decimals) ==> CheckTarget(target, decimals).Ok?
    ensures CheckTarget(4, 0).Ok? && !Feasible(4, 0)
    ensures CheckTarget(U64_MAX, 0).Ok? && !Feasible(U64_MAX, 0)
  {
  }
}
