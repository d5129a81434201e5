/** Refunds of many records in any order: exactly when all of them succeed, in any round, and what they leave. */
module FundraiserRefunds {
  import opened Rust
  import opened FundraiserRecords
  import opened FundraiserRules
  import opened FundraiserChain
  import opened FundraiserInvariant
  import opened FundraiserEffects
  import opened FundraiserRuns
  import opened Sums

  /** What the live records of one contributor add up to. */
  ghost function Owed(s: Chain, contributor: Pubkey): int {
    Sum(AmountsFor(s.records, contributor))
  }

  function AmountsFor(records: map<Key, ContributorRecord>, contributor: Pubkey): map<Key, int> {
    map k | k in records && k.contributor == contributor :: records[k].amount
  }

  lemma OwedDrop(records: map<Key, ContributorRecord>, account: Key, contributor: Pubkey)
    requires account in records
    ensures Sum(AmountsFor(records - {account}, contributor)) ==
            Sum(AmountsFor(records, contributor))
            - if account.contributor == contributor then records[account].amount else 0
  {
    if account.contributor == contributor {
      assert AmountsFor(records - {account}, contributor) == AmountsFor(records, contributor) - {account};
      SumSplit(AmountsFor(records, contributor), account);
    } else {
      assert AmountsFor(records - {account}, contributor) == AmountsFor(records, contributor);
    }
  }

  /** A round that carries nothing over and missed its target: total and vault cover the records, `direct`
      tokens are extra. */
  ghost predicate Missed(env: Env, s: Chain, direct: nat) {
    && s.fundraiser.Some? && RecordsWithinLimits(env, s)
    && var f := s.fundraiser.value;
       && VaultOf(env, f) in s.tokens
       && f.current == Recorded(s)
       && s.tokens[VaultOf(env, f)] == Recorded(s) + direct < f.target
  }

  /** After refunding `done`: those records are gone, the rest of the record stays, and each wallet is paid
      what it lost in records. */
  ghost predicate Refunded(env: Env, before: Chain, after: Chain, done: set<Key>, contributor: Pubkey)
    requires before.fundraiser.Some?
  {
    var f, ata := before.fundraiser.value, TokenAccount(contributor, before.fundraiser.value.mint);
    && after.records == before.records - done
    && after.fundraiser.Some? && after.fundraiser.value == f.(current := after.fundraiser.value.current)
    && (contributor != env.address ==>
          TokensIn(after.tokens, ata) + Owed(after, contributor) ==
          TokensIn(before.tokens, ata) + Owed(before, contributor))
  }

  lemma RefundSucceeds(env: Env, s: Chain, before: int, step: Step, account: Key, direct: nat)
    requires Invariant(env, s, before) && before <= step.now
    requires Missed(env, s, direct) && account in s.records
    requires step.call == RefundOf(s.fundraiser.value, account) && HasEnded(s.fundraiser.value, step.now)
    ensures Apply(env, s, step).Ok?
  {
    hide Apply, Invariant, HasEnded;
    RefundExactly(env, s, before, step, account);
    assert Amounts(s.records)[account] == s.records[account].amount;
    SumAtLeast(Amounts(s.records), account);
  }

  lemma StillMissed(env: Env, s: Chain, step: Step, account: Key, direct: nat)
    requires WellSigned(env, step.call) && Missed(env, s, direct) && account in s.records
    requires step.call == RefundOf(s.fundraiser.value, account) && Apply(env, s, step).Ok?
    ensures Missed(env, Apply(env, s, step).value, direct)
  {
    hide Apply, HasEnded, Amounts, Pow10;
    RefundEffect(env, s, step);
    RecordedDrop(s.records, account);
  }

  lemma RefundPays(env: Env, s: Chain, step: Step, account: Key, contributor: Pubkey)
    requires WellSigned(env, step.call) && s.fundraiser.Some? && account in s.records
    requires step.call == RefundOf(s.fundraiser.value, account) && Apply(env, s, step).Ok?
    ensures Refunded(env, s, Apply(env, s, step).value, {account}, contributor)
  {
    hide Apply, HasEnded;
    RefundEffect(env, s, step);
    OwedDrop(s.records, account, contributor);
    hide AmountsFor;
  }

  lemma RefundedThen(env: Env, a: Chain, b: Chain, c: Chain, done: set<Key>, account: Key, contributor: Pubkey)
    requires a.fundraiser.Some? && Refunded(env, a, b, done, contributor) && Refunded(env, b, c, {account}, contributor)
    ensures Refunded(env, a, c, done + {account}, contributor)
  {
    assert a.records - done - {account} == a.records - (done + {account});
    hide Owed, TokensIn;
  }

  /** Refunds of the accounts in `order`, one after the other, each after the deadline. */
  ghost predicate RefundsOf(f: FundraiserRecord, order: seq<Key>, steps: seq<Step>) {
    && |steps| == |order|
    && (forall i | 0 <= i < |order| :: steps[i].call == RefundOf(f, order[i]) && HasEnded(f, steps[i].now))
    && (forall i, j | 0 <= i < j < |order| :: order[i] != order[j])
  }

  function Elements(order: seq<Key>): set<Key> {
    set k | k in order
  }

  /** Refunds in any order, of any of the records, all succeed. */
  lemma {:induction false} RefundSome(env: Env, s: Chain, start: int, order: seq<Key>, steps: seq<Step>,
      direct: nat, contributor: Pubkey)
    requires Invariant(env, s, start) && Missed(env, s, direct) && Proper(env, start, steps)
    requires RefundsOf(s.fundraiser.value, order, steps) && forall k <- order :: k in s.records
    ensures Log(env, s, steps) == steps
    ensures Missed(env, Run(env, s, steps), direct)
    ensures Refunded(env, s, Run(env, s, steps), Elements(order), contributor)
    decreases |steps|
  {
    var f := s.fundraiser.value;
    if steps == [] {
      assert s.records - {} == s.records;
      assert Elements(order) == {};
    } else {
      hide Invariant, Apply, HasEnded, Missed, Refunded, Run, Log, Next, RefundsOf, Proper, WellSigned,
          Elements, RefundOf;
      var n := |steps| - 1;
      var front, last, w := steps[..n], steps[n], Run(env, s, steps[..n]);
      LastStep(env, s, start, steps);
      RefundsSplit(f, order, steps);
      RefundSome(env, s, start, order[..n], front, direct, contributor);
      ElementsPush(order);
      RefundNext(env, s, w, EndTime(start, front), last, order[n], Elements(order[..n]), direct, contributor);
      assert front + [last] == steps;
    }
  }

  /** One more refund after those of `done`. */
  lemma RefundNext(env: Env, s: Chain, w: Chain, before: int, step: Step, account: Key, done: set<Key>,
      direct: nat, contributor: Pubkey)
    requires Invariant(env, w, before) && before <= step.now && WellSigned(env, step.call)
    requires s.fundraiser.Some? && account in s.records && account !in done
    requires Missed(env, w, direct) && Refunded(env, s, w, done, contributor)
    requires step.call == RefundOf(s.fundraiser.value, account) && HasEnded(s.fundraiser.value, step.now)
    ensures Apply(env, w, step).Ok?
    ensures Missed(env, Apply(env, w, step).value, direct)
    ensures Refunded(env, s, Apply(env, w, step).value, done + {account}, contributor)
  {
    hide Invariant, Apply, HasEnded, Missed, WellSigned, Owed, TokensIn;
    EndedSame(s.fundraiser.value, w.fundraiser.value, step.now);
    RefundSucceeds(env, w, before, step, account, direct);
    StillMissed(env, w, step, account, direct);
    RefundPays(env, w, step, account, contributor);
    hide Refunded;
    RefundedThen(env, s, w, Apply(env, w, step).value, done, account, contributor);
  }

  lemma ElementsPush(order: seq<Key>)
    requires order != [] && forall i, j | 0 <= i < j < |order| :: order[i] != order[j]
    ensures var n := |order| - 1;
            order[n] !in Elements(order[..n]) && Elements(order) == Elements(order[..n]) + {order[n]}
  {
    assert order == order[..|order| - 1] + [order[|order| - 1]];
  }

  lemma RefundsSplit(f: FundraiserRecord, order: seq<Key>, steps: seq<Step>)
    requires RefundsOf(f, order, steps) && steps != []
    ensures var n := |steps| - 1;
            && |order| == n + 1
            && RefundsOf(f, order[..n], steps[..n])
            && steps[n].call == RefundOf(f, order[n]) && HasEnded(f, steps[n].now)
            && forall i, j | 0 <= i < j < |order| :: order[i] != order[j]
  {
    hide HasEnded;
  }

  lemma EndedSame(f: FundraiserRecord, g: FundraiserRecord, now: i64)
    requires g == f.(current := g.current)
    ensures HasEnded(f, now) <==> HasEnded(g, now)
  {
  }

  // ---------------------------------------------------------------- exactly when a sequence of refunds succeeds

  /** What the records of `order` hold together. */
  function OrderSum(records: map<Key, ContributorRecord>, order: seq<Key>): nat
    requires forall k <- order :: k in records
  {
    if order == [] then 0
    else
      var n := |order| - 1;
      OrderSum(records, order[..n]) + records[order[n]].amount
  }

  /** Refunding different records, all of them: what they hold is the sum of all amounts. */
  lemma {:induction false} OrderSumRest(records: map<Key, ContributorRecord>, order: seq<Key>)
    requires forall k <- order :: k in records
    requires forall i, j | 0 <= i < j < |order| :: order[i] != order[j]
    ensures OrderSum(records, order) + Sum(Amounts(records - Elements(order))) == Sum(Amounts(records))
    decreases |order|
  {
    if order == [] {
      assert records - Elements(order) == records;
    } else {
      var n := |order| - 1;
      OrderSumRest(records, order[..n]);
      ElementsPush(order);
      var rest := records - Elements(order[..n]);
      RecordedDrop(rest, order[n]);
      assert records - Elements(order) == rest - {order[n]};
    }
  }

  lemma OrderSumAll(records: map<Key, ContributorRecord>, order: seq<Key>)
    requires forall i, j | 0 <= i < j < |order| :: order[i] != order[j]
    requires Elements(order) == records.Keys
    ensures forall k <- order :: k in records
    ensures OrderSum(records, order) == Sum(Amounts(records))
  {
    assert forall k <- order :: k in Elements(order);
    OrderSumRest(records, order);
    assert records - Elements(order) == map[];
    assert Amounts(map[]) == map[];
  }

  /** After the refunds of `order` and nothing else: they are paid out of the total and the vault. */
  ghost predicate Drained(env: Env, s: Chain, w: Chain, order: seq<Key>)
    requires forall k <- order :: k in s.records
  {
    && s.fundraiser.Some? && VaultOf(env, s.fundraiser.value) in s.tokens
    && var f, vault, paid := s.fundraiser.value, VaultOf(env, s.fundraiser.value), OrderSum(s.records, order);
       && paid <= f.current
       && w.fundraiser == Some(f.(current := f.current - paid))
       && w.records == s.records - Elements(order)
       && w.tokens.Keys == s.tokens.Keys
       && w.tokens[vault] == s.tokens[vault] - paid
  }

  /** The total covers the records of `order`, and each of their contributors has a token account. */
  predicate CanRefund(s: Chain, f: FundraiserRecord, order: seq<Key>)
    requires forall k <- order :: k in s.records
  {
    && OrderSum(s.records, order) <= f.current
    && forall k <- order :: TokenAccount(k.contributor, f.mint) in s.tokens
  }

  lemma CanRefundPush(s: Chain, f: FundraiserRecord, order: seq<Key>)
    requires order != [] && forall k <- order :: k in s.records
    ensures var n := |order| - 1;
            CanRefund(s, f, order) <==>
              && CanRefund(s, f, order[..n])
              && TokenAccount(order[n].contributor, f.mint) in s.tokens
              && OrderSum(s.records, order[..n]) + s.records[order[n]].amount <= f.current
  {
    var n := |order| - 1;
    assert order == order[..n] + [order[n]];
  }

  /** The total is covered by the vault, which is below the target. */
  ghost predicate CoveredBelow(env: Env, s: Chain) {
    && s.fundraiser.Some? && VaultOf(env, s.fundraiser.value) in s.tokens
    && s.fundraiser.value.current <= s.tokens[VaultOf(env, s.fundraiser.value)] < s.fundraiser.value.target
  }

  /** After the refunds of `done`, one more succeeds exactly if the rest of the total covers it. */
  lemma DrainSucceeds(env: Env, s: Chain, w: Chain, before: int, step: Step, done: seq<Key>, account: Key)
    requires Invariant(env, w, before) && before <= step.now
    requires CoveredBelow(env, s) && forall k <- done :: k in s.records
    requires Drained(env, s, w, done) && account in s.records && account !in Elements(done)
    requires step.call == RefundOf(s.fundraiser.value, account) && HasEnded(s.fundraiser.value, step.now)
    ensures var f := s.fundraiser.value;
            Apply(env, w, step).Ok? <==>
              && TokenAccount(account.contributor, f.mint) in s.tokens
              && OrderSum(s.records, done) + s.records[account].amount <= f.current
  {
    hide Apply, Invariant, HasEnded, OrderSum, Elements;
    EndedSame(s.fundraiser.value, w.fundraiser.value, step.now);
    RefundExactly(env, w, before, step, account);
  }

  lemma DrainStep(env: Env, s: Chain, w: Chain, step: Step, order: seq<Key>)
    requires WellSigned(env, step.call) && order != [] && forall k <- order :: k in s.records
    requires forall i, j | 0 <= i < j < |order| :: order[i] != order[j]
    requires Drained(env, s, w, order[..|order| - 1])
    requires step.call == RefundOf(s.fundraiser.value, order[|order| - 1]) && Apply(env, w, step).Ok?
    ensures Drained(env, s, Apply(env, w, step).value, order)
  {
    var done, account := order[..|order| - 1], order[|order| - 1];
    RefundEffect(env, w, step);
    ElementsPush(order);
    hide Apply, HasEnded, Elements;
    assert w.records - {account} == s.records - Elements(order);
  }

  lemma DrainNext(env: Env, s: Chain, w: Chain, before: int, step: Step, order: seq<Key>)
    requires Invariant(env, w, before) && before <= step.now && WellSigned(env, step.call) && CoveredBelow(env, s)
    requires s.fundraiser.Some? && order != [] && forall k <- order :: k in s.records
    requires forall i, j | 0 <= i < j < |order| :: order[i] != order[j]
    requires Drained(env, s, w, order[..|order| - 1]) && CanRefund(s, s.fundraiser.value, order[..|order| - 1])
    requires var account := order[|order| - 1];
             step.call == RefundOf(s.fundraiser.value, account) && HasEnded(s.fundraiser.value, step.now)
    ensures Apply(env, w, step).Ok? <==> CanRefund(s, s.fundraiser.value, order)
    ensures Apply(env, w, step).Ok? ==> Drained(env, s, Apply(env, w, step).value, order)
  {
    hide Invariant, Apply, HasEnded, Drained, CoveredBelow, WellSigned, Elements, RefundOf, CanRefund, OrderSum;
    var done, account := order[..|order| - 1], order[|order| - 1];
    ElementsPush(order);
    CanRefundPush(s, s.fundraiser.value, order);
    DrainSucceeds(env, s, w, before, step, done, account);
    if Apply(env, w, step).Ok? {
      DrainStep(env, s, w, step, order);
    }
  }

  lemma NoRefunds(env: Env, s: Chain, order: seq<Key>, steps: seq<Step>)
    requires steps == [] && CoveredBelow(env, s) && RefundsOf(s.fundraiser.value, order, steps)
    ensures order == [] && Log(env, s, steps) == steps
    ensures Drained(env, s, Run(env, s, steps), order) && CanRefund(s, s.fundraiser.value, order)
  {
    assert s.records - {} == s.records;
    assert Elements(order) == {};
  }

  /**
   On every state with the invariant, refunds of different live records in any order all succeed if and only if
   the running total covers what those records hold, and each contributor has a token account.
   */
  lemma {:induction false} RefundsExactly(env: Env, s: Chain, start: int, order: seq<Key>, steps: seq<Step>)
    requires Invariant(env, s, start) && Proper(env, start, steps) && s.fundraiser.Some? && CoveredBelow(env, s)
    requires RefundsOf(s.fundraiser.value, order, steps) && forall k <- order :: k in s.records
    ensures Log(env, s, steps) == steps ==> Drained(env, s, Run(env, s, steps), order)
    ensures Log(env, s, steps) == steps <==> CanRefund(s, s.fundraiser.value, order)
    decreases |steps|
  {
    hide Invariant, Apply, HasEnded, Drained, CoveredBelow, Run, Log, Next, RefundsOf, Proper, WellSigned, Elements,
        RefundOf, CanRefund, OrderSum;
    if steps == [] {
      NoRefunds(env, s, order, steps);
    } else {
      var n := |steps| - 1;
      var front, last, w := steps[..n], steps[n], Run(env, s, steps[..n]);
      LastStep(env, s, start, steps);
      RefundsSplit(s.fundraiser.value, order, steps);
      RefundsExactly(env, s, start, order[..n], front);
      LogLength(env, s, front);
      assert steps == front + [last];
      CanRefundPush(s, s.fundraiser.value, order);
      if Log(env, s, front) == front {
        DrainNext(env, s, w, EndTime(start, front), last, order);
      }
    }
  }

  lemma {:induction false} LogLength(env: Env, s: Chain, steps: seq<Step>)
    ensures |Log(env, s, steps)| <= |steps|
    decreases |steps|
  {
    hide Apply;
    if steps != [] {
      LogLength(env, s, steps[..|steps| - 1]);
    }
  }

  // ---------------------------------------------------------------- solvency of a round

  /** All records of `w` are refunded in `end`: what that returns to a contributor and leaves behind. */
  ghost predicate Settled(env: Env, w: Chain, end: Chain, log: seq<Step>, contributor: Pubkey)
    requires w.fundraiser.Some?
  {
    var f, ata := w.fundraiser.value, TokenAccount(contributor, w.fundraiser.value.mint);
    && (forall k <- w.records :: w.records[k].amount == Contributed(log, k))
    && TokensIn(end.tokens, ata) == TokensIn(w.tokens, ata) + Owed(w, contributor)
    && end.records == map[]
    && end.fundraiser == Some(f.(current := 0))
    && TokensIn(end.tokens, VaultOf(env, f)) == Direct(env, log)
  }

  /**
   Refund solvency, all histories, any order: take any moment when the vault is below the target. Refunding
   every live record after the deadline, in any permutation, succeeds throughout if and only if the round
   carries nothing over from earlier ones. Then every record held exactly what its contributions gave it and
   its contributor gets all of it back; at the end no record and no running total is left, and the vault holds
   only what was placed in it directly.
   */
  lemma RefundAnyRound(env: Env, s: Chain, start: int, history: seq<Step>, order: seq<Key>, refunds: seq<Step>,
      contributor: Pubkey)
    requires Start(env, s) && Proper(env, start, history)
    requires Run(env, s, history).fundraiser.Some?
    requires var w := Run(env, s, history);
             var f := w.fundraiser.value;
             && VaultOf(env, f) in w.tokens && w.tokens[VaultOf(env, f)] < f.target
             && RefundsOf(f, order, refunds) && Elements(order) == w.records.Keys
    requires Proper(env, EndTime(start, history), refunds) && contributor != env.address
    ensures var w := Run(env, s, history);
            && (Log(env, w, refunds) == refunds <==> Carried(env, s, history) == 0)
            && (Carried(env, s, history) == 0 ==>
                  Settled(env, w, Run(env, w, refunds), Log(env, s, history), contributor))
  {
    hide Invariant, Start, Run, Log, Missed, Refunded, RefundsOf, Proper, RecordsWithinLimits, Recorded, Settled;
    var w := Run(env, s, history);
    RefundsNeedCover(env, s, start, history, order, refunds);
    if Carried(env, s, history) == 0 {
      RefundClean(env, s, start, history, order, refunds, contributor);
    }
  }

  /** When all refunds succeed, nothing was carried over. */
  lemma RefundsNeedCover(env: Env, s: Chain, start: int, history: seq<Step>, order: seq<Key>, refunds: seq<Step>)
    requires Start(env, s) && Proper(env, start, history)
    requires Run(env, s, history).fundraiser.Some?
    requires var w := Run(env, s, history);
             var f := w.fundraiser.value;
             && VaultOf(env, f) in w.tokens && w.tokens[VaultOf(env, f)] < f.target
             && RefundsOf(f, order, refunds) && Elements(order) == w.records.Keys
    requires Proper(env, EndTime(start, history), refunds)
    ensures Log(env, Run(env, s, history), refunds) == refunds ==> Carried(env, s, history) == 0
  {
    var w := Run(env, s, history);
    StartInvariant(env, s, start);
    RunKeepsInvariant(env, s, start, history);
    LedgerHolds(env, s, start, history, Key(env.maker, env.bump));
    assert forall i, j | 0 <= i < j < |order| :: order[i] != order[j];
    OrderSumAll(w.records, order);
    hide Invariant, Start, Run, Log, RefundsOf, Proper, OrderSum, Carried;
    RefundsExactly(env, w, EndTime(start, history), order, refunds);
  }

  lemma RefundClean(env: Env, s: Chain, start: int, history: seq<Step>, order: seq<Key>, refunds: seq<Step>,
      contributor: Pubkey)
    requires Start(env, s) && Proper(env, start, history) && Carried(env, s, history) == 0
    requires Run(env, s, history).fundraiser.Some?
    requires var w := Run(env, s, history);
             var f := w.fundraiser.value;
             && VaultOf(env, f) in w.tokens && w.tokens[VaultOf(env, f)] < f.target
             && RefundsOf(f, order, refunds) && Elements(order) == w.records.Keys
    requires Proper(env, EndTime(start, history), refunds) && contributor != env.address
    ensures var w := Run(env, s, history);
            && Log(env, w, refunds) == refunds
            && Settled(env, w, Run(env, w, refunds), Log(env, s, history), contributor)
  {
    hide Invariant, Start, Run, Log, Missed, Refunded, RefundsOf, Proper, RecordsWithinLimits, Recorded, Carried;
    var w, log := Run(env, s, history), Log(env, s, history);
    CleanMissed(env, s, start, history);
    forall k <- w.records
      ensures w.records[k].amount == Contributed(log, k)
    {
      LedgerHolds(env, s, start, history, k);
    }
    assert forall k <- order :: k in w.records by {
      assert forall k <- order :: k in Elements(order);
    }
    RefundSome(env, w, EndTime(start, history), order, refunds, Direct(env, log), contributor);
    NothingLeft(env, w, Run(env, w, refunds), Direct(env, log), contributor);
  }

  /** The case of a first round, where nothing can be carried over: solvency without a further condition. */
  lemma RefundSolvency(env: Env, s: Chain, start: int, history: seq<Step>, order: seq<Key>, refunds: seq<Step>,
      contributor: Pubkey)
    requires Start(env, s) && Proper(env, start, history) && Rounds(Log(env, s, history)) <= 1
    requires Run(env, s, history).fundraiser.Some?
    requires var w := Run(env, s, history);
             var f := w.fundraiser.value;
             && VaultOf(env, f) in w.tokens && w.tokens[VaultOf(env, f)] < f.target
             && RefundsOf(f, order, refunds) && Elements(order) == w.records.Keys
    requires Proper(env, EndTime(start, history), refunds) && contributor != env.address
    ensures var w := Run(env, s, history);
            && Log(env, w, refunds) == refunds
            && Settled(env, w, Run(env, w, refunds), Log(env, s, history), contributor)
  {
    hide Invariant, Start, Run, Log, RefundsOf, Proper, Carried, Settled, RecordsWithinLimits;
    FirstRound(env, s, start, history);
    RefundAnyRound(env, s, start, history, order, refunds, contributor);
  }

  lemma CleanMissed(env: Env, s: Chain, start: int, history: seq<Step>)
    requires Start(env, s) && Proper(env, start, history) && Carried(env, s, history) == 0
    requires Run(env, s, history).fundraiser.Some?
    requires var w := Run(env, s, history);
             var vault := VaultOf(env, w.fundraiser.value);
             vault in w.tokens && w.tokens[vault] < w.fundraiser.value.target
    ensures Invariant(env, Run(env, s, history), EndTime(start, history))
    ensures Missed(env, Run(env, s, history), Direct(env, Log(env, s, history)))
  {
    hide Invariant, Start, Run, Log, Proper, RecordsWithinLimits, Recorded, Carried;
    StartInvariant(env, s, start);
    RunKeepsInvariant(env, s, start, history);
    RoundLedger(env, s, start, history);
  }

  /** When every record is refunded, the total is zero and the vault holds the direct deposits only. */
  lemma NothingLeft(env: Env, before: Chain, after: Chain, direct: nat, contributor: Pubkey)
    requires before.fundraiser.Some? && Missed(env, after, direct)
    requires Refunded(env, before, after, before.records.Keys, contributor) && contributor != env.address
    ensures var f := before.fundraiser.value;
            var ata := TokenAccount(contributor, f.mint);
            && TokensIn(after.tokens, ata) == TokensIn(before.tokens, ata) + Owed(before, contributor)
            && after.records == map[]
            && after.fundraiser == Some(f.(current := 0))
            && TokensIn(after.tokens, VaultOf(env, f)) == direct
  {
    assert after.records == map[];
    assert Amounts(after.records) == map[] && AmountsFor(after.records, contributor) == map[];
    hide RecordsWithinLimits;
  }
}
