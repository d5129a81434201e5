/** How a round ends: by refunds or by the payout, and never one after the other. */
module FundraiserSettlement {
  import opened FundraiserRules
  import opened FundraiserChain
  import opened FundraiserInvariant
  import opened FundraiserEffects
  import opened FundraiserRuns

  // ---------------------------------------------------------------- one way only

  /** No step of the log begins a new round. */
  predicate SameRound(log: seq<Step>) {
    forall e <- log :: !e.call.Initialize?
  }

  predicate NoDeposits(env: Env, log: seq<Step>) {
    forall e <- log :: DirectBy(env, e.call) == 0
  }

  /** The deadline has passed, or the fundraiser is closed. */
  predicate Over(s: Chain, now: int) {
    s.fundraiser.Some? ==>
      var f := s.fundraiser.value;
      f.duration != 0 && now >= f.started + 86_400 * f.duration
  }

  /** The vault holds less than the target, or the fundraiser is closed. */
  predicate Short(env: Env, s: Chain) {
    s.fundraiser.Some? ==>
      var f := s.fundraiser.value;
      VaultOf(env, f) in s.tokens && s.tokens[VaultOf(env, f)] < f.target
  }

  lemma OverStep(env: Env, s: Chain, before: int, step: Step)
    requires Sound(env, s, before) && before <= step.now && WellSigned(env, step.call) && Apply(env, s, step).Ok?
    requires Over(s, before) && !step.call.Initialize?
    ensures !step.call.Contribute? && Over(Apply(env, s, step).value, step.now)
    ensures s.fundraiser.None? ==>
              !step.call.CheckContributions? && !step.call.Refund? && Apply(env, s, step).value.fundraiser.None?
    ensures Short(env, s) && DirectBy(env, step.call) == 0 ==>
              !step.call.CheckContributions? && Short(env, Apply(env, s, step).value)
  {
    VaultStep(env, s, before, step);
    if step.call.Contribute? {
      ContributeEffect(env, s, step);
      DeadlineExact(s.fundraiser.value, step.now);
    } else if step.call.CheckContributions? {
      CheckEffect(env, s, step);
    }
    hide Apply, Sound, HasEnded;
  }

  lemma {:induction false} OverForGood(env: Env, s: Chain, start: int, steps: seq<Step>)
    requires Invariant(env, s, start) && Proper(env, start, steps) && Over(s, start)
    requires SameRound(Log(env, s, steps))
    ensures Over(Run(env, s, steps), EndTime(start, steps))
    ensures forall e <- Log(env, s, steps) :: !e.call.Contribute?
    ensures s.fundraiser.None? ==>
              && Run(env, s, steps).fundraiser.None?
              && forall e <- Log(env, s, steps) :: !e.call.CheckContributions? && !e.call.Refund?
    ensures Short(env, s) && NoDeposits(env, Log(env, s, steps)) ==>
              && Short(env, Run(env, s, steps))
              && forall e <- Log(env, s, steps) :: !e.call.CheckContributions?
    decreases |steps|
  {
    if steps != [] {
      hide Invariant, Apply, Run, Log, Short, Sound, Next;
      var front, last := steps[..|steps| - 1], steps[|steps| - 1];
      var w, log := Run(env, s, front), Log(env, s, front);
      LastStep(env, s, start, steps);
      if Apply(env, w, last).Ok? {
        assert last in log + [last] && forall e <- log :: e in log + [last];
        InvariantSound(env, w, EndTime(start, front));
        OverForGood(env, s, start, front);
        OverStep(env, w, EndTime(start, front), last);
      } else {
        OverForGood(env, s, start, front);
        OverLater(w, EndTime(start, front), last.now);
      }
    } else {
      assert Log(env, s, steps) == [] && Run(env, s, steps) == s;
    }
  }

  lemma OverLater(s: Chain, now: int, later: int)
    requires Over(s, now) && now <= later
    ensures Over(s, later)
  {
  }

  /**
   One-way settlement: within a round, after a successful refund no contribution succeeds any more; and if no
   tokens are placed directly in the vault from then on, check_contributions does not succeed either.
   */
  lemma RefundSettles(env: Env, s: Chain, before: int, refund: Step, steps: seq<Step>)
    requires Invariant(env, s, before) && before <= refund.now && WellSigned(env, refund.call)
    requires refund.call.Refund? && Apply(env, s, refund).Ok?
    requires Proper(env, refund.now, steps)
    requires SameRound(Log(env, Next(env, s, refund), steps))
    ensures var log := Log(env, Next(env, s, refund), steps);
            && (forall e <- log :: !e.call.Contribute?)
            && (NoDeposits(env, log) ==> forall e <- log :: !e.call.CheckContributions?)
  {
    StepKeepsInvariant(env, s, before, refund);
    RefundEffect(env, s, refund);
    DeadlineExact(s.fundraiser.value, refund.now);
    hide Apply, Invariant, HasEnded, Run, Log;
    OverForGood(env, Next(env, s, refund), refund.now, steps);
  }

  /** After check_contributions paid out, nothing of that round succeeds any more: no refund, contribution or
      second payout. */
  lemma PayoutSettles(env: Env, s: Chain, before: int, check: Step, steps: seq<Step>)
    requires Invariant(env, s, before) && before <= check.now && WellSigned(env, check.call)
    requires check.call.CheckContributions? && Apply(env, s, check).Ok?
    requires Proper(env, check.now, steps)
    requires SameRound(Log(env, Next(env, s, check), steps))
    ensures forall e <- Log(env, Next(env, s, check), steps) ::
              !e.call.Refund? && !e.call.Contribute? && !e.call.CheckContributions?
  {
    StepKeepsInvariant(env, s, before, check);
    CheckEffect(env, s, check);
    hide Apply, Invariant, Run, Log;
    OverForGood(env, Next(env, s, check), check.now, steps);
  }

  // ---------------------------------------------------------------- rounds that cannot be funded

  /** The target of the open fundraiser leaves room for a contribution, or it is closed. */
  predicate Fundable(env: Env, s: Chain) {
    s.fundraiser.Some? ==>
      s.fundraiser.value.mint in env.decimals
      && Feasible(s.fundraiser.value.target, env.decimals[s.fundraiser.value.mint])
  }

  lemma FundableStep(env: Env, s: Chain, before: int, step: Step)
    requires Sound(env, s, before) && WellSigned(env, step.call) && Apply(env, s, step).Ok?
    requires !step.call.Initialize? && s.fundraiser.Some? && !Fundable(env, s)
    ensures !step.call.Contribute?
    ensures Apply(env, s, step).value.fundraiser.None? || !Fundable(env, Apply(env, s, step).value)
  {
    VaultStep(env, s, before, step);
    if step.call.Contribute? {
      ContributeEffect(env, s, step);
    }
    hide Apply, Sound, Feasible;
  }

  /**
   A round opened with a target outside 10 * 10^decimals .. floor((2^64 - 1) / 10), which initialize accepts
   above 3 * 10^decimals, never takes a single contribution.
   */
  lemma {:induction false} DeadRound(env: Env, s: Chain, start: int, steps: seq<Step>)
    requires Invariant(env, s, start) && Proper(env, start, steps)
    requires s.fundraiser.Some? && !Fundable(env, s) && SameRound(Log(env, s, steps))
    ensures forall e <- Log(env, s, steps) :: !e.call.Contribute?
    ensures Run(env, s, steps).fundraiser.None? || !Fundable(env, Run(env, s, steps))
    decreases |steps|
  {
    if steps != [] {
      hide Invariant, Apply, Run, Log, Fundable, Sound, Next;
      var front, last := steps[..|steps| - 1], steps[|steps| - 1];
      var w, log := Run(env, s, front), Log(env, s, front);
      LastStep(env, s, start, steps);
      if Apply(env, w, last).Ok? {
        assert last in log + [last] && forall e <- log :: e in log + [last];
        InvariantSound(env, w, EndTime(start, front));
        DeadRound(env, s, start, front);
        if w.fundraiser.Some? {
          FundableStep(env, w, EndTime(start, front), last);
        } else {
          VaultStep(env, w, EndTime(start, front), last);
        }
      } else {
        DeadRound(env, s, start, front);
      }
    } else {
      assert Log(env, s, steps) == [] && Run(env, s, steps) == s;
    }
  }
}
