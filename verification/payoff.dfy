// How far payouts get: in any run by which nothing matures, whatever calls are
// refused, lost, answered before finality or retried, and whatever crashes,
// the addresses still waiting are counted by the batches prepared so far, and
// the batches still due by those confirmed (internal/pool/controller.go).

module Payoff {
  import opened Arith
  import opened Ranking
  import opened ShareWindow
  import opened Ledger
  import opened PoolSystem
  import opened Guarantees
  import opened Batching
  import opened Retries

  // ----- Who is eligible

  ghost predicate SameBalances(before: Db, after: Db) {
    forall a :: Balance(after, a) == Balance(before, a)
  }

  lemma SameBalancesSameEligible(before: Db, after: Db, threshold: nat)
    requires threshold > 0 && SameBalances(before, after)
    ensures Eligible(after, threshold) == Eligible(before, threshold)
  {
    forall a ensures a in Eligible(after, threshold) <==> a in Eligible(before, threshold) {
      EligibleByBalance(before, threshold, a);
      EligibleByBalance(after, threshold, a);
      assert Balance(after, a) == Balance(before, a);
    }
  }

  // ----- Steps by which nothing matures

  /** An answer that does not mature the block it is about. */
  ghost predicate Barren(s: Pool, answer: BlockAnswer) {
    s.phase.Syncing? && s.phase.blocks != [] && s.phase.blocks[0] in s.db.blocks ==>
      NextStatus(s.db.blocks[s.phase.blocks[0]], answer.known, answer.canonical, answer.tip) != Mature
  }

  /** Anything may happen but maturing, and batches are prepared by one policy. */
  ghost predicate Steady(s: Pool, act: Action, policy: Policy) {
    && (act.Observe? ==> Barren(s, act.answer))
    && (act.PreparePayout? ==> act.threshold == policy.threshold && act.maxOutputs == policy.maxOutputs)
  }

  ghost predicate SteadySteps(s: Pool, acts: seq<Action>, policy: Policy)
    decreases |acts|
  {
    acts == [] || (Steady(s, acts[0], policy) && SteadySteps(Exec(s, acts[0]), acts[1..], policy))
  }

  lemma PendingReplaced(db: Db, id: string, b: Block)
    requires IsPending(db.blocks, id) && b.status != Mature
    ensures SameBalances(db, db.(blocks := db.blocks[id := b]))
  {
    forall a ensures Balance(db.(blocks := db.blocks[id := b]), a) == Balance(db, a) {
      BlockReplaced(db.blocks, id, b, Mature, a);
    }
  }

  lemma ObserveBalances(s: Pool, answer: BlockAnswer)
    requires Inv(s) && Barren(s, answer)
    ensures SameBalances(s.db, ExecObserve(s, answer).db)
  {
    if s.phase.Syncing? && s.phase.blocks != [] {
      var id := s.phase.blocks[0];
      assert IsPending(s.db.blocks, id);
      PendingReplaced(
        s.db, id, Observed(s.db.blocks[id], answer.known, answer.canonical, answer.confirmations, answer.tip, ""));
    }
  }

  lemma ErrorBalances(s: Pool, failure: string)
    requires Inv(s)
    ensures SameBalances(s.db, ExecObserveError(s, failure).db)
  {
    if s.phase.Syncing? && s.phase.blocks != [] {
      var id := s.phase.blocks[0];
      assert IsPending(s.db.blocks, id);
      PendingReplaced(s.db, id, s.db.blocks[id].(lastError := Clip(failure)));
    }
  }

  lemma PendingAdded(db: Db, id: string, b: Block)
    requires id !in db.blocks && b.status == Pending
    ensures SameBalances(db, db.(blocks := db.blocks[id := b]))
  {
    forall a ensures Balance(db.(blocks := db.blocks[id := b]), a) == Balance(db, a) {
      BlockAdded(db.blocks, id, b, Mature, a);
    }
  }

  lemma AllocateBalances(s: Pool, worker: nat)
    ensures SameBalances(s.db, ExecAllocate(s, worker).db)
  {
    if worker in s.workers && s.workers[worker].Won? {
      var w := s.workers[worker];
      if Allocatable(s.db, w.found, w.window, w.bps) {
        var units := Window(s.db.shares, w.found.cutoff, w.window);
        PendingAdded(s.db, w.found.id, Frozen(units, w.found, w.window, w.bps));
      }
    }
  }

  lemma RowsReplaced(db: Db, after: map<nat, Payout>)
    requires SameContents(db.payouts, after)
    ensures SameBalances(db, db.(payouts := after))
  {
    forall a ensures Balance(db.(payouts := after), a) == Balance(db, a) {
      SameReserved(db.payouts, after, a);
    }
  }

  lemma SendBalances(s: Pool, wallet: Wallet, outcome: Outcome, noted: bool)
    ensures var t := ExecSend(s, wallet, outcome, noted);
      SameContents(s.db.payouts, t.db.payouts) && SameBalances(s.db, t.db)
  {
    if s.phase.Paying? && s.phase.batches != [] {
      SendShape(s, wallet, outcome, noted);
      RowsReplaced(s.db, ExecSend(s, wallet, outcome, noted).db.payouts);
    }
  }

  lemma SettleBalances(s: Pool, stored: bool)
    ensures var t := ExecSettle(s, stored); SameContents(s.db.payouts, t.db.payouts) && SameBalances(s.db, t.db)
  {
    if s.phase.Answered? {
      var status := if s.phase.confirmed then Confirmed else Submitted;
      FailedAndSettledKeepContents(s.db.payouts, s.phase.batch.id, s.phase.transaction, status);
      RowsReplaced(s.db, ExecSettle(s, stored).db.payouts);
    }
  }

  lemma LastPayoutKept(s: Pool, act: Action)
    requires !act.PreparePayout?
    ensures Exec(s, act).db.lastPayout == s.db.lastPayout
  {
  }

  lemma SameTablesSameBalances(before: Db, after: Db)
    requires after.blocks == before.blocks && after.payouts == before.payouts
    ensures SameBalances(before, after)
  {
  }

  lemma CallBalances(s: Pool, act: Action)
    requires act.Send? || act.Settle?
    ensures SameContents(s.db.payouts, Exec(s, act).db.payouts) && SameBalances(s.db, Exec(s, act).db)
  {
    match act {
      case Send(wallet, outcome, noted) => SendBalances(s, wallet, outcome, noted);
      case Settle(stored) => SettleBalances(s, stored);
    }
  }

  lemma BlockStepBalances(s: Pool, act: Action, policy: Policy)
    requires Inv(s) && Steady(s, act, policy) && (act.Observe? || act.ObserveError? || act.Allocate?)
    ensures SameBalances(s.db, Exec(s, act).db)
  {
    if act.Observe? {
      assert Exec(s, act) == ExecObserve(s, act.answer);
      ObserveBalances(s, act.answer);
    } else if act.ObserveError? {
      assert Exec(s, act) == ExecObserveError(s, act.failure);
      ErrorBalances(s, act.failure);
    } else {
      assert Exec(s, act) == ExecAllocate(s, act.worker);
      AllocateBalances(s, act.worker);
    }
  }

  /** No step but a preparation changes a balance. */
  lemma StepBalances(s: Pool, act: Action, policy: Policy)
    requires Inv(s) && Steady(s, act, policy) && !act.PreparePayout?
    ensures SameBalances(s.db, Exec(s, act).db)
  {
    if act.Send? || act.Settle? {
      CallBalances(s, act);
    } else if act.Observe? || act.ObserveError? || act.Allocate? {
      BlockStepBalances(s, act, policy);
    } else {
      OtherStepEvolves(s, act);
      SameTablesSameBalances(s.db, Exec(s, act).db);
    }
  }

  /** Nor does any other step add a row. */
  lemma StepRows(s: Pool, act: Action)
    requires Inv(s) && !act.PreparePayout?
    ensures |Exec(s, act).db.payouts| == |s.db.payouts|
  {
    if act.Send? || act.Settle? {
      CallBalances(s, act);
      SameKeysSameSize(s.db.payouts, Exec(s, act).db.payouts);
    } else {
      PayoutsUntouched(s, act);
    }
  }

  // ----- Counting batches

  /** How many batches n recipients need: n divided by the size of a batch, rounded up. */
  ghost function BatchesFor(n: nat, size: nat): nat
    requires size > 0
    decreases n
  {
    if n == 0 then 0 else 1 + BatchesFor(Less0(n, size), size)
  }

  lemma {:induction false} BatchesForIsCeiling(n: nat, size: nat)
    requires size > 0
    ensures BatchesFor(n, size) == (n + size - 1) / size
    decreases n
  {
    if n > 0 {
      BatchesForIsCeiling(Less0(n, size), size);
      DivMod(n + size - 1, size);
      if n > size {
        var k := (n - 1) / size;
        DivMod(n - 1, size);
        MulAdd(k, 1, size);
        DivisionUnique(size, (n + size - 1) / size, k + 1, (n + size - 1) % size, (n - 1) % size);
      } else {
        DivisionUnique(size, (n + size - 1) / size, 1, (n + size - 1) % size, n - 1);
        DivisionUnique(size, (size - 1) / size, 0, (size - 1) % size, size - 1);
      }
    } else {
      DivMod(size - 1, size);
      DivisionUnique(size, (size - 1) / size, 0, (size - 1) % size, size - 1);
    }
  }

  /** The addresses eligible by a policy. */
  ghost function Waiters(db: Db, policy: Policy): nat {
    |Eligible(db, policy.threshold)|
  }

  /** No row is added and as many addresses wait as before. */
  ghost predicate Stays(before: Db, after: Db, policy: Policy) {
    && after.lastPayout == before.lastPayout && |after.payouts| == |before.payouts|
    && Waiters(after, policy) == Waiters(before, policy)
  }

  /** One row is added for a batch of those who wait. */
  ghost predicate Adds(before: Db, after: Db, policy: Policy) {
    && after.lastPayout == before.lastPayout + 1 && |after.payouts| == |before.payouts| + 1
    && Waiters(before, policy) > 0
    && Waiters(after, policy) == Less0(Waiters(before, policy), policy.maxOutputs)
  }

  lemma SameKeysSameSize<K, V>(m: map<K, V>, n: map<K, V>)
    requires m.Keys == n.Keys
    ensures |m| == |n|
  {
    assert |m| == |m.Keys| && |n| == |n.Keys|;
  }

  lemma AddedRows(db: Db, p: Payout)
    requires db.lastPayout + 1 !in db.payouts
    ensures AddPayout(db, p).lastPayout == db.lastPayout + 1 && |AddPayout(db, p).payouts| == |db.payouts| + 1
  {
  }

  lemma PreparedRows(db: Db, policy: Policy, fee: nat, requestID: string)
    requires db.lastPayout + 1 !in db.payouts
    ensures Preparable(db, policy.threshold, policy.maxOutputs, requestID) ==>
      var after := WithPayout(db, policy.threshold, fee, policy.maxOutputs, requestID);
      after.lastPayout == db.lastPayout + 1 && |after.payouts| == |db.payouts| + 1
  {
    if Preparable(db, policy.threshold, policy.maxOutputs, requestID) {
      WithPayoutAdds(db, policy.threshold, fee, policy.maxOutputs, requestID);
      AddedRows(db, NewPayout(db, policy.threshold, fee, policy.maxOutputs, requestID));
    }
  }

  lemma PreparedWaiters(db: Db, policy: Policy, fee: nat, requestID: string)
    requires db.lastPayout + 1 !in db.payouts
    ensures Preparable(db, policy.threshold, policy.maxOutputs, requestID) ==>
      Waiters(WithPayout(db, policy.threshold, fee, policy.maxOutputs, requestID), policy)
        == Less0(Waiters(db, policy), policy.maxOutputs)
  {
    if Preparable(db, policy.threshold, policy.maxOutputs, requestID) {
      BatchShrinksEligible(db, policy.threshold, fee, policy.maxOutputs, requestID);
    }
  }

  lemma SomeoneWaits(db: Db, policy: Policy, requestID: string)
    ensures Preparable(db, policy.threshold, policy.maxOutputs, requestID) ==> Waiters(db, policy) > 0
  {
  }

  lemma NotPrepared(db: Db, policy: Policy, fee: nat, requestID: string)
    ensures !Preparable(db, policy.threshold, policy.maxOutputs, requestID) ==>
      WithPayout(db, policy.threshold, fee, policy.maxOutputs, requestID) == db
  {
  }

  /** One prepared batch is one row, and reaches as many addresses as it has room for. */
  lemma WithPayoutCounts(db: Db, policy: Policy, fee: nat, requestID: string)
    requires db.lastPayout + 1 !in db.payouts
    ensures var after := WithPayout(db, policy.threshold, fee, policy.maxOutputs, requestID);
      Stays(db, after, policy) || Adds(db, after, policy)
  {
    var prepared := Preparable(db, policy.threshold, policy.maxOutputs, requestID);
    var after := WithPayout(db, policy.threshold, fee, policy.maxOutputs, requestID);
    if prepared {
      PreparedRows(db, policy, fee, requestID);
      PreparedWaiters(db, policy, fee, requestID);
      SomeoneWaits(db, policy, requestID);
      assert Adds(db, after, policy);
    } else {
      NotPrepared(db, policy, fee, requestID);
      assert after == db;
    }
  }

  lemma PreparedDb(s: Pool, threshold: nat, fee: nat, maxOutputs: nat, requestID: string, lost: bool)
    ensures ExecPrepare(s, threshold, fee, maxOutputs, requestID, lost).db
      == if s.phase.NoneActive? then WithPayout(s.db, threshold, fee, maxOutputs, requestID) else s.db
  {
  }

  lemma PrepareCounts(s: Pool, fee: nat, requestID: string, lost: bool, policy: Policy)
    requires s.db.lastPayout + 1 !in s.db.payouts
    ensures var after := ExecPrepare(s, policy.threshold, fee, policy.maxOutputs, requestID, lost).db;
      Stays(s.db, after, policy) || Adds(s.db, after, policy)
  {
    PreparedDb(s, policy.threshold, fee, policy.maxOutputs, requestID, lost);
    WithPayoutCounts(s.db, policy, fee, requestID);
  }

  lemma OtherStepStays(s: Pool, act: Action, policy: Policy)
    requires Inv(s) && Inv(Exec(s, act)) && Steady(s, act, policy) && !act.PreparePayout?
    requires ValidPolicy(policy.threshold, policy.maxOutputs)
    ensures Stays(s.db, Exec(s, act).db, policy)
  {
    StepBalances(s, act, policy);
    LastPayoutKept(s, act);
    StepRows(s, act);
    SameBalancesSameEligible(s.db, Exec(s, act).db, policy.threshold);
  }

  lemma NextRowUnused(db: Db)
    requires Sound(db)
    ensures db.lastPayout + 1 !in db.payouts
  {
  }

  lemma StepCounts(s: Pool, act: Action, policy: Policy)
    requires Inv(s) && Steady(s, act, policy) && ValidPolicy(policy.threshold, policy.maxOutputs)
    ensures Inv(Exec(s, act))
    ensures Stays(s.db, Exec(s, act).db, policy) || Adds(s.db, Exec(s, act).db, policy)
  {
    StepKeepsInv(s, act);
    if act.PreparePayout? {
      NextRowUnused(s.db);
      PrepareCounts(s, act.payoutFee, act.requestID, act.lost, policy);
    } else {
      OtherStepStays(s, act, policy);
    }
  }

  /** What `rows` batches leave of n addresses waiting. */
  ghost function Left(n: nat, rows: nat, size: nat): nat {
    if rows == 0 then n else Left(Less0(n, size), rows - 1, size)
  }

  lemma {:induction false} LeftIsDifference(n: nat, rows: nat, size: nat)
    ensures Left(n, rows, size) == Less0(n, rows * size)
    decreases rows
  {
    if rows == 0 {
      assert rows * size == 0;
    } else {
      LeftIsDifference(Less0(n, size), rows - 1, size);
      Less0Twice(n, Less0(n, size), size, rows);
    }
  }

  /** So many wait after the rows added since. */
  ghost predicate LeftAfter(before: Db, after: Db, policy: Policy) {
    && after.lastPayout >= before.lastPayout
    && Waiters(after, policy) == Left(Waiters(before, policy), after.lastPayout - before.lastPayout, policy.maxOutputs)
  }

  lemma LeftStep(before: nat, middle: nat, after: nat, first: nat, second: nat, third: nat, size: nat)
    requires (second == first && middle == before) || (second == first + 1 && middle == Less0(before, size))
    requires third >= second && after == Left(middle, third - second, size)
    ensures third >= first && after == Left(before, third - first, size)
  {
    var rows := third - second;
    if second == first + 1 {
      assert third - first == rows + 1;
      assert Left(before, rows + 1, size) == Left(middle, rows, size);
    }
  }

  lemma LeftNext(before: Db, middle: Db, after: Db, policy: Policy)
    requires (Stays(before, middle, policy) || Adds(before, middle, policy)) && LeftAfter(middle, after, policy)
    ensures LeftAfter(before, after, policy)
  {
    LeftStep(
      Waiters(before, policy), Waiters(middle, policy), Waiters(after, policy),
      before.lastPayout, middle.lastPayout, after.lastPayout, policy.maxOutputs);
  }

  lemma {:induction false} RunLeft(s: Pool, acts: seq<Action>, policy: Policy)
    requires Inv(s) && SteadySteps(s, acts, policy) && ValidPolicy(policy.threshold, policy.maxOutputs)
    ensures LeftAfter(s.db, Run(s, acts).db, policy)
    decreases |acts|
  {
    if acts != [] {
      StepCounts(s, acts[0], policy);
      RunLeft(Exec(s, acts[0]), acts[1..], policy);
      LeftNext(s.db, Exec(s, acts[0]).db, Run(Exec(s, acts[0]), acts[1..]).db, policy);
    }
  }

  /** Later tables in which exactly the batches prepared since have taken addresses off those eligible. */
  ghost predicate Served(before: Db, after: Db, policy: Policy) {
    && after.lastPayout >= before.lastPayout
    && Waiters(after, policy)
      == Less0(Waiters(before, policy), (after.lastPayout - before.lastPayout) * policy.maxOutputs)
  }

  lemma LeftServed(before: Db, after: Db, policy: Policy)
    requires LeftAfter(before, after, policy)
    ensures Served(before, after, policy)
  {
    LeftIsDifference(Waiters(before, policy), after.lastPayout - before.lastPayout, policy.maxOutputs);
  }

  /**
    From any reachable state, whatever is refused, lost, retried or crashed, the
    addresses still eligible are those the batches prepared since have not
    reached: max(0, eligible - batches * maxOutputs).
   */
  lemma EligibleOverRuns(acts: seq<Action>, more: seq<Action>, policy: Policy)
    requires ValidPolicy(policy.threshold, policy.maxOutputs) && SteadySteps(Run(START, acts), more, policy)
    ensures Served(Run(START, acts).db, Run(START, acts + more).db, policy)
  {
    Reachable(acts);
    RunConcat(START, acts, more);
    RunLeft(Run(START, acts), more, policy);
    LeftServed(Run(START, acts).db, Run(START, acts + more).db, policy);
  }

  // ----- Confirmations

  ghost function ConfirmedIDs(payouts: map<nat, Payout>): set<nat> {
    set p | p in payouts && payouts[p].status == Confirmed
  }

  /** The batches that are still to be confirmed: the active ones and those not yet prepared. */
  ghost function Due(db: Db, policy: Policy): nat
    requires policy.maxOutputs > 0
  {
    BatchesFor(|Eligible(db, policy.threshold)|, policy.maxOutputs) + |ActiveIDs(db.payouts)|
  }

  lemma ActiveOrConfirmed(payouts: map<nat, Payout>)
    ensures |payouts| == |ActiveIDs(payouts)| + |ConfirmedIDs(payouts)|
  {
    var active, confirmed := ActiveIDs(payouts), ConfirmedIDs(payouts);
    assert payouts.Keys == active + confirmed && active !! confirmed;
    assert |payouts| == |payouts.Keys|;
  }

  /** Batches still to be prepared, and rows: a preparation turns one into the other. */
  ghost function PreparedOrDue(db: Db, policy: Policy): nat
    requires policy.maxOutputs > 0
  {
    BatchesFor(Waiters(db, policy), policy.maxOutputs) + |db.payouts|
  }

  lemma StepKeepsDue(before: Db, after: Db, policy: Policy)
    requires policy.maxOutputs > 0 && (Stays(before, after, policy) || Adds(before, after, policy))
    ensures PreparedOrDue(after, policy) == PreparedOrDue(before, policy)
  {
  }

  lemma {:induction false} RunKeepsDue(s: Pool, acts: seq<Action>, policy: Policy)
    requires Inv(s) && SteadySteps(s, acts, policy) && ValidPolicy(policy.threshold, policy.maxOutputs)
    ensures PreparedOrDue(Run(s, acts).db, policy) == PreparedOrDue(s.db, policy)
    decreases |acts|
  {
    if acts != [] {
      StepCounts(s, acts[0], policy);
      StepKeepsDue(s.db, Exec(s, acts[0]).db, policy);
      RunKeepsDue(Exec(s, acts[0]), acts[1..], policy);
    }
  }

  /** Every confirmation, and nothing else, takes one off what is due. */
  lemma DueIsConserved(s: Pool, acts: seq<Action>, policy: Policy)
    requires Inv(s) && SteadySteps(s, acts, policy) && ValidPolicy(policy.threshold, policy.maxOutputs)
    ensures var t := Run(s, acts);
      Due(t.db, policy) + |ConfirmedIDs(t.db.payouts)| == Due(s.db, policy) + |ConfirmedIDs(s.db.payouts)|
    ensures Due(Run(s, acts).db, policy) <= Due(s.db, policy)
  {
    RunKeepsDue(s, acts, policy);
    ActiveOrConfirmed(s.db.payouts);
    ActiveOrConfirmed(Run(s, acts).db.payouts);
    RunEvolves(s, acts);
    ConfirmedStay(s.db.payouts, Run(s, acts).db.payouts);
  }

  lemma ConfirmedStay(before: map<nat, Payout>, after: map<nat, Payout>)
    requires PayoutsEvolve(before, after)
    ensures |ConfirmedIDs(before)| <= |ConfirmedIDs(after)|
  {
    forall p | p in ConfirmedIDs(before) ensures p in ConfirmedIDs(after) {
      assert PayoutEvolves(before[p], after[p]);
    }
    CardinalityMonotone(ConfirmedIDs(before), ConfirmedIDs(after));
  }

  lemma {:induction false} NothingDue(db: Db, policy: Policy)
    requires policy.maxOutputs > 0
    ensures Due(db, policy) == 0 <==> Eligible(db, policy.threshold) == {} && ActiveIDs(db.payouts) == {}
  {
    if Eligible(db, policy.threshold) != {} {
      assert |Eligible(db, policy.threshold)| > 0;
    }
  }

  /**
    Everyone is paid, and every batch confirmed, exactly when as many batches
    have been confirmed as were due: the active ones, and the eligible addresses
    divided by the size of a batch, rounded up.
   */
  lemma PaidOffExactly(acts: seq<Action>, more: seq<Action>, policy: Policy)
    requires ValidPolicy(policy.threshold, policy.maxOutputs) && SteadySteps(Run(START, acts), more, policy)
    ensures var s, t := Run(START, acts).db, Run(START, acts + more).db;
      Eligible(t, policy.threshold) == {} && ActiveIDs(t.payouts) == {} <==>
        |ConfirmedIDs(t.payouts)| - |ConfirmedIDs(s.payouts)|
          == BatchesFor(|Eligible(s, policy.threshold)|, policy.maxOutputs) + |ActiveIDs(s.payouts)|
  {
    Reachable(acts);
    RunConcat(START, acts, more);
    DueIsConserved(Run(START, acts), more, policy);
    NothingDue(Run(START, acts + more).db, policy);
  }

  // ----- Passes that confirm

  /** The first call of a pass is answered as confirmed, and the answer is stored. */
  ghost predicate Confirms(outcomes: nat -> Outcome, stores: nat -> bool, transaction: string) {
    outcomes(0) == Replied(transaction, true) && stores(0) && transaction != ""
  }

  /** No active row has been executed from another wallet. */
  ghost predicate FromOneWallet(s: Pool, wallet: Wallet) {
    forall p :: Outstanding(s, p) ==> FirstCall(s, p).wallet == wallet
  }

  /** The controller is between passes. */
  ghost predicate Ready(s: Pool, wallet: Wallet, requestID: string) {
    Inv(s) && s.phase.Idle? && FromOneWallet(s, wallet) && !RequestUsed(s.db.payouts, requestID)
  }

  lemma UnusedNotExecuted(s: Pool, requestID: string)
    requires Inv(s) && !RequestUsed(s.db.payouts, requestID)
    ensures requestID !in s.executed
  {
    assert requestID in s.executed ==> HasRow(s.db.payouts, s.executed[requestID].request);
  }

  lemma {:induction false} NoneListed(payouts: map<nat, Payout>, n: nat)
    requires ActiveIDs(payouts) == {}
    ensures ActiveUpTo(payouts, n) == []
  {
    if n > 0 {
      NoneListed(payouts, n - 1);
      assert n !in ActiveIDs(payouts);
    }
  }

  /** What a pass finds to be paid: the active row, or else a new one, if there is anyone to pay. */
  ghost function Begun(s: Pool, policy: Policy, requestID: string): Pool {
    if ActiveIDs(s.db.payouts) != {} then s.(phase := PayingOn(FirstActive(s.db, PASS_LIMIT)))
    else if Preparable(s.db, policy.threshold, policy.maxOutputs, requestID)
    then Reserve(s, NewPayout(s.db, policy.threshold, policy.fee, policy.maxOutputs, requestID), false)
    else s
  }

  lemma SomeListed(s: Pool, p: nat)
    requires Inv(s) && p in ActiveIDs(s.db.payouts)
    ensures FirstActive(s.db, PASS_LIMIT) == [Batch(p, RequestOf(s.db.payouts[p]))]
    ensures ActiveIDs(s.db.payouts) == {p}
  {
    OnlyBatch(s, p);
    forall q | q in ActiveIDs(s.db.payouts) ensures q == p {
      assert IsActive(s.db.payouts, q) && IsActive(s.db.payouts, p);
    }
  }

  lemma PassBegins(s: Pool, policy: Policy, requestID: string)
    requires Inv(s) && s.phase.Idle?
    ensures Run(s, PassStart(policy.threshold, policy.fee, policy.maxOutputs, requestID)) == Begun(s, policy, requestID)
  {
    if ActiveIDs(s.db.payouts) != {} {
      var p :| p in ActiveIDs(s.db.payouts);
      SomeListed(s, p);
      StartWithActive(s, policy.threshold, policy.fee, policy.maxOutputs, requestID);
    } else {
      NoneListed(s.db.payouts, s.db.lastPayout);
      PreparedBatch(s, policy.threshold, policy.fee, policy.maxOutputs, requestID);
      RunTwo(s, BeginPayouts, PreparePayout(policy.threshold, policy.fee, policy.maxOutputs, requestID, false));
    }
  }

  /** What one confirmed call makes of the batch at hand, if there is one. */
  ghost function Called(s: Pool, wallet: Wallet, outcome: Outcome): Pool {
    ExecSettle(ExecSend(s, wallet, outcome, true), true)
  }

  /** An accepted and confirmed call settles its row, whether or not it was made before. */
  lemma CallConfirms(s: Pool, batch: Batch, wallet: Wallet, transaction: string)
    requires s.phase == Paying([batch]) && Accepts(s.executed, Call(batch.request, wallet)) && transaction != ""
    ensures Called(s, wallet, Replied(transaction, true))
      == s.(db := s.db.(payouts := Settled(s.db.payouts, batch.id, transaction, Confirmed)),
            executed := s.executed[batch.request.requestID := Call(batch.request, wallet)], phase := Idle)
  {
    assert [batch][1..] == [];
  }

  /** The tables after a confirmed pass: its row, resumed or new, is settled. */
  ghost function ConfirmedPass(db: Db, policy: Policy, requestID: string, transaction: string): Db {
    if ActiveIDs(db.payouts) != {} then
      var p :| p in ActiveIDs(db.payouts);
      db.(payouts := Settled(db.payouts, p, transaction, Confirmed))
    else ConfirmedBatch(db, policy.threshold, policy.fee, policy.maxOutputs, requestID, transaction)
  }

  lemma ResumedConfirms(s: Pool, policy: Policy, requestID: string, wallet: Wallet, transaction: string)
    requires Ready(s, wallet, requestID) && ActiveIDs(s.db.payouts) != {} && transaction != ""
    ensures var t := Called(Begun(s, policy, requestID), wallet, Replied(transaction, true));
      t.phase.Idle? && t.db == ConfirmedPass(s.db, policy, requestID, transaction)
  {
    var p :| p in ActiveIDs(s.db.payouts)
      && ConfirmedPass(s.db, policy, requestID, transaction)
        == s.db.(payouts := Settled(s.db.payouts, p, transaction, Confirmed));
    SomeListed(s, p);
    if Outstanding(s, p) {
      FirstCallIsRow(s, p);
    }
    CallConfirms(Begun(s, policy, requestID), Batch(p, RequestOf(s.db.payouts[p])), wallet, transaction);
  }

  lemma ReserveConfirms(s: Pool, p: Payout, wallet: Wallet, transaction: string)
    requires s.phase.Idle? && p.requestID !in s.executed && transaction != ""
    ensures var t := Called(Reserve(s, p, false), wallet, Replied(transaction, true));
      t.phase.Idle? && t.db == ConfirmLast(AddPayout(s.db, p), transaction)
  {
    CallConfirms(Reserve(s, p, false), Batch(s.db.lastPayout + 1, RequestOf(p)), wallet, transaction);
  }

  lemma ConfirmedIsAdded(db: Db, policy: Policy, requestID: string, transaction: string)
    requires ActiveIDs(db.payouts) == {} && Preparable(db, policy.threshold, policy.maxOutputs, requestID)
    ensures
      var p := NewPayout(db, policy.threshold, policy.fee, policy.maxOutputs, requestID);
      ConfirmedPass(db, policy, requestID, transaction) == ConfirmLast(AddPayout(db, p), transaction)
  {
  }

  lemma ConfirmedIsNothing(db: Db, policy: Policy, requestID: string, transaction: string)
    requires ActiveIDs(db.payouts) == {} && !Preparable(db, policy.threshold, policy.maxOutputs, requestID)
    ensures ConfirmedPass(db, policy, requestID, transaction) == db
  {
    ConfirmNothing(db, transaction);
  }

  lemma NewConfirms(s: Pool, policy: Policy, requestID: string, wallet: Wallet, transaction: string)
    requires Ready(s, wallet, requestID) && ActiveIDs(s.db.payouts) == {} && transaction != ""
    ensures var t := Called(Begun(s, policy, requestID), wallet, Replied(transaction, true));
      t.phase.Idle? && t.db == ConfirmedPass(s.db, policy, requestID, transaction)
  {
    if Preparable(s.db, policy.threshold, policy.maxOutputs, requestID) {
      UnusedNotExecuted(s, requestID);
      NewPayoutPrepared(s.db, policy, requestID);
      ConfirmedIsAdded(s.db, policy, requestID, transaction);
      var p := NewPayout(s.db, policy.threshold, policy.fee, policy.maxOutputs, requestID);
      ReserveConfirms(s, p, wallet, transaction);
    } else {
      ConfirmedIsNothing(s.db, policy, requestID, transaction);
    }
  }

  lemma ConfirmNothing(db: Db, transaction: string)
    requires ActiveIDs(db.payouts) == {}
    ensures ConfirmLast(db, transaction) == db
  {
    assert db.lastPayout !in ActiveIDs(db.payouts);
  }

  lemma OneCall(s: Pool, wallet: Wallet, outcomes: nat -> Outcome, stores: nat -> bool)
    requires stores(0)
    ensures Run(s, Sends(wallet, outcomes, stores, 1)) == Called(s, wallet, outcomes(0))
  {
    RunTwo(s, Send(wallet, outcomes(0), true), Settle(true));
    SendsReach(s, s, Called(s, wallet, outcomes(0)), wallet, outcomes, stores, 0);
  }

  lemma FirstCallEndsPass(
      s: Pool, policy: Policy, requestID: string, wallet: Wallet, outcomes: nat -> Outcome, stores: nat -> bool)
    requires Inv(s) && s.phase.Idle? && stores(0)
    requires Called(Begun(s, policy, requestID), wallet, outcomes(0)).phase.Idle?
    ensures Run(s, PayoutPass(wallet, policy.threshold, policy.fee, policy.maxOutputs, requestID, outcomes, stores))
      == Called(Begun(s, policy, requestID), wallet, outcomes(0))
  {
    var begun := Begun(s, policy, requestID);
    PassBegins(s, policy, requestID);
    OneCall(begun, wallet, outcomes, stores);
    SendsPadded(begun, wallet, outcomes, stores, 1);
    PassRuns(s, wallet, policy.threshold, policy.fee, policy.maxOutputs, requestID, outcomes, stores);
  }

  /**
    A pass whose first call is confirmed settles one row, and ends idle. The row
    may be new, or it may have been submitted by any number of earlier passes.
   */
  lemma PassConfirms(
      s: Pool, policy: Policy, requestID: string, wallet: Wallet,
      outcomes: nat -> Outcome, stores: nat -> bool, transaction: string)
    requires Ready(s, wallet, requestID) && Confirms(outcomes, stores, transaction)
    ensures
      var pass := PayoutPass(wallet, policy.threshold, policy.fee, policy.maxOutputs, requestID, outcomes, stores);
      var t := Run(s, pass);
      t.phase.Idle? && t.db == ConfirmedPass(s.db, policy, requestID, transaction)
  {
    if ActiveIDs(s.db.payouts) != {} {
      ResumedConfirms(s, policy, requestID, wallet, transaction);
    } else {
      NewConfirms(s, policy, requestID, wallet, transaction);
    }
    FirstCallEndsPass(s, policy, requestID, wallet, outcomes, stores);
  }

  lemma ResumedLeavesNone(payouts: map<nat, Payout>, p: nat, transaction: string)
    requires ActiveIDs(payouts) == {p} && transaction != ""
    ensures ActiveIDs(Settled(payouts, p, transaction, Confirmed)) == {}
  {
    forall q | q in payouts ensures q != p ==> !payouts[q].Active() {
      assert q in ActiveIDs(payouts) ==> q == p;
    }
  }

  lemma AddedLeavesNone(db: Db, p: Payout, transaction: string)
    requires ActiveIDs(db.payouts) == {} && transaction != ""
    ensures ActiveIDs(ConfirmLast(AddPayout(db, p), transaction).payouts) == {}
  {
    forall q | q in db.payouts ensures !db.payouts[q].Active() {
      assert q !in ActiveIDs(db.payouts);
    }
  }

  lemma PassLeavesNone(s: Pool, policy: Policy, requestID: string, transaction: string)
    requires Inv(s) && transaction != ""
    ensures ActiveIDs(ConfirmedPass(s.db, policy, requestID, transaction).payouts) == {}
  {
    var db := s.db;
    if ActiveIDs(db.payouts) != {} {
      var p :| p in ActiveIDs(db.payouts)
        && ConfirmedPass(db, policy, requestID, transaction)
          == db.(payouts := Settled(db.payouts, p, transaction, Confirmed));
      SomeListed(s, p);
      ResumedLeavesNone(db.payouts, p, transaction);
    } else {
      if Preparable(db, policy.threshold, policy.maxOutputs, requestID) {
        ConfirmedIsAdded(db, policy, requestID, transaction);
        var p := NewPayout(db, policy.threshold, policy.fee, policy.maxOutputs, requestID);
        AddedLeavesNone(db, p, transaction);
      } else {
        ConfirmedIsNothing(db, policy, requestID, transaction);
      }
    }
  }

  // ----- Paying everyone

  /** The steps of a pass prepare by the policy and observe nothing. */
  lemma {:induction false} SendsSteady(
      s: Pool, wallet: Wallet, outcomes: nat -> Outcome, stores: nat -> bool, n: nat, policy: Policy)
    ensures SteadySteps(s, Sends(wallet, outcomes, stores, n), policy)
  {
    if n > 0 {
      var last := [Send(wallet, outcomes(n - 1), stores(n - 1)), Settle(stores(n - 1))];
      SendsSteady(s, wallet, outcomes, stores, n - 1, policy);
      SteadyPair(Run(s, Sends(wallet, outcomes, stores, n - 1)), last[0], last[1], policy);
      SteadyConcat(s, Sends(wallet, outcomes, stores, n - 1), last, policy);
    }
  }

  lemma SteadyPair(s: Pool, a: Action, b: Action, policy: Policy)
    requires Steady(s, a, policy) && Steady(Exec(s, a), b, policy)
    ensures SteadySteps(s, [a, b], policy)
  {
    assert [a, b][1..] == [b] && [b][1..] == [];
    assert SteadySteps(Exec(s, a), [b], policy);
  }

  lemma {:induction false} SteadyConcat(s: Pool, first: seq<Action>, second: seq<Action>, policy: Policy)
    requires SteadySteps(s, first, policy) && SteadySteps(Run(s, first), second, policy)
    ensures SteadySteps(s, first + second, policy)
    decreases |first|
  {
    if first == [] {
      assert first + second == second;
    } else {
      assert (first + second)[1..] == first[1..] + second;
      SteadyConcat(Exec(s, first[0]), first[1..], second, policy);
    }
  }

  /** One payout pass of the controller, with whatever the node answers. */
  datatype Pass = Pass(requestID: string, wallet: Wallet, outcomes: nat -> Outcome, stores: nat -> bool)

  ghost function PassActs(policy: Policy, pass: Pass): seq<Action> {
    PayoutPass(pass.wallet, policy.threshold, policy.fee, policy.maxOutputs, pass.requestID, pass.outcomes, pass.stores)
  }

  lemma PassIsSteady(s: Pool, policy: Policy, pass: Pass)
    ensures SteadySteps(s, PassActs(policy, pass), policy)
  {
    var start := PassStart(policy.threshold, policy.fee, policy.maxOutputs, pass.requestID);
    SteadyPair(s, start[0], start[1], policy);
    SendsSteady(Run(s, start), pass.wallet, pass.outcomes, pass.stores, PASS_LIMIT, policy);
    SteadyConcat(s, start, Sends(pass.wallet, pass.outcomes, pass.stores, PASS_LIMIT), policy);
  }

  /** Any steps by which nothing matures, then a pass whose first call is confirmed. */
  datatype Round = Round(before: seq<Action>, pass: Pass, transaction: string)

  ghost predicate IsRound(s: Pool, round: Round, policy: Policy) {
    && SteadySteps(s, round.before, policy)
    && Ready(Run(s, round.before), round.pass.wallet, round.pass.requestID)
    && Confirms(round.pass.outcomes, round.pass.stores, round.transaction)
  }

  ghost function RoundActs(policy: Policy, round: Round): seq<Action> {
    round.before + PassActs(policy, round.pass)
  }

  ghost predicate AreRounds(s: Pool, rounds: seq<Round>, policy: Policy)
    decreases |rounds|
  {
    rounds == []
    || (IsRound(s, rounds[0], policy) && AreRounds(Run(s, RoundActs(policy, rounds[0])), rounds[1..], policy))
  }

  ghost function RoundsActs(policy: Policy, rounds: seq<Round>): seq<Action> {
    if rounds == [] then [] else RoundActs(policy, rounds[0]) + RoundsActs(policy, rounds[1..])
  }

  lemma SettledRows(payouts: map<nat, Payout>, id: nat, transaction: string, status: PayoutStatus)
    ensures |Settled(payouts, id, transaction, status)| == |payouts|
  {
    SameKeysSameSize(payouts, Settled(payouts, id, transaction, status));
  }

  lemma NewRows(db: Db, policy: Policy, requestID: string, transaction: string)
    requires db.lastPayout + 1 !in db.payouts && ActiveIDs(db.payouts) == {}
    requires ValidPolicy(policy.threshold, policy.maxOutputs) && !RequestUsed(db.payouts, requestID)
    ensures |ConfirmedPass(db, policy, requestID, transaction).payouts|
      == |db.payouts| + if Waiters(db, policy) > 0 then 1 else 0
  {
    if Preparable(db, policy.threshold, policy.maxOutputs, requestID) {
      SomeoneWaits(db, policy, requestID);
      ConfirmedIsAdded(db, policy, requestID, transaction);
      var added := AddPayout(db, NewPayout(db, policy.threshold, policy.fee, policy.maxOutputs, requestID));
      AddedRows(db, NewPayout(db, policy.threshold, policy.fee, policy.maxOutputs, requestID));
      SettledRows(added.payouts, added.lastPayout, transaction, Confirmed);
    } else {
      ConfirmedIsNothing(db, policy, requestID, transaction);
    }
  }

  /** With a row active a confirmed pass adds none; otherwise it adds one if anyone waits. */
  lemma RowsAfterPass(s: Pool, policy: Policy, requestID: string, transaction: string)
    requires Inv(s) && ValidPolicy(policy.threshold, policy.maxOutputs) && !RequestUsed(s.db.payouts, requestID)
    ensures ActiveIDs(s.db.payouts) != {} ==> |ActiveIDs(s.db.payouts)| == 1
    ensures |ConfirmedPass(s.db, policy, requestID, transaction).payouts| == |s.db.payouts|
      + if ActiveIDs(s.db.payouts) == {} && Waiters(s.db, policy) > 0 then 1 else 0
  {
    if ActiveIDs(s.db.payouts) != {} {
      var p :| p in ActiveIDs(s.db.payouts)
        && ConfirmedPass(s.db, policy, requestID, transaction)
          == s.db.(payouts := Settled(s.db.payouts, p, transaction, Confirmed));
      SomeListed(s, p);
      SettledRows(s.db.payouts, p, transaction, Confirmed);
    } else {
      NextRowUnused(s.db);
      NewRows(s.db, policy, requestID, transaction);
    }
  }

  /** The reckoning of one confirmed pass, in numbers. */
  lemma DueAfterPass(waiting: nat, active: nat, rows: nat, left: nat, after: nat, size: nat)
    requires size > 0 && active <= 1
    requires after == rows + if active == 0 && waiting > 0 then 1 else 0
    requires BatchesFor(left, size) + after == BatchesFor(waiting, size) + rows
    ensures BatchesFor(left, size) <= Less0(BatchesFor(waiting, size) + active, 1)
  {
  }

  lemma DueDrops(s: Pool, after: Db, policy: Policy, requestID: string, transaction: string)
    requires Inv(s) && ValidPolicy(policy.threshold, policy.maxOutputs) && !RequestUsed(s.db.payouts, requestID)
    requires after == ConfirmedPass(s.db, policy, requestID, transaction) && transaction != ""
    requires PreparedOrDue(after, policy) == PreparedOrDue(s.db, policy)
    ensures Due(after, policy) <= Less0(Due(s.db, policy), 1)
  {
    PassLeavesNone(s, policy, requestID, transaction);
    RowsAfterPass(s, policy, requestID, transaction);
    DueOfRows(s.db, after, policy);
  }

  lemma DueOfRows(before: Db, after: Db, policy: Policy)
    requires policy.maxOutputs > 0 && PreparedOrDue(after, policy) == PreparedOrDue(before, policy)
    requires ActiveIDs(after.payouts) == {} && (ActiveIDs(before.payouts) != {} ==> |ActiveIDs(before.payouts)| == 1)
    requires |after.payouts| == |before.payouts|
      + if ActiveIDs(before.payouts) == {} && Waiters(before, policy) > 0 then 1 else 0
    ensures Due(after, policy) <= Less0(Due(before, policy), 1)
  {
    var active := |ActiveIDs(before.payouts)|;
    assert active == 0 <==> ActiveIDs(before.payouts) == {};
    DueAfterPass(
      Waiters(before, policy), active, |before.payouts|, Waiters(after, policy), |after.payouts|, policy.maxOutputs);
  }

  /** One confirmed pass takes one off what is due, if anything is. */
  lemma PassAdvances(s: Pool, policy: Policy, pass: Pass, transaction: string)
    requires Ready(s, pass.wallet, pass.requestID) && Confirms(pass.outcomes, pass.stores, transaction)
    requires ValidPolicy(policy.threshold, policy.maxOutputs)
    ensures Due(Run(s, PassActs(policy, pass)).db, policy) <= Less0(Due(s.db, policy), 1)
  {
    PassIsSteady(s, policy, pass);
    RunKeepsDue(s, PassActs(policy, pass), policy);
    PassConfirms(s, policy, pass.requestID, pass.wallet, pass.outcomes, pass.stores, transaction);
    DueDrops(s, Run(s, PassActs(policy, pass)).db, policy, pass.requestID, transaction);
  }

  lemma RoundAdvances(s: Pool, policy: Policy, round: Round)
    requires Inv(s) && IsRound(s, round, policy) && ValidPolicy(policy.threshold, policy.maxOutputs)
    ensures Due(Run(s, RoundActs(policy, round)).db, policy) <= Less0(Due(s.db, policy), 1)
  {
    RunConcat(s, round.before, PassActs(policy, round.pass));
    DueIsConserved(s, round.before, policy);
    PassAdvances(Run(s, round.before), policy, round.pass, round.transaction);
  }

  lemma {:induction false} RoundsAdvance(s: Pool, policy: Policy, rounds: seq<Round>)
    requires Inv(s) && AreRounds(s, rounds, policy) && ValidPolicy(policy.threshold, policy.maxOutputs)
    ensures Due(Run(s, RoundsActs(policy, rounds)).db, policy) <= Less0(Due(s.db, policy), |rounds|)
    decreases |rounds|
  {
    if rounds != [] {
      RoundAdvances(s, policy, rounds[0]);
      RunKeepsInv(s, RoundActs(policy, rounds[0]));
      RoundsAdvance(Run(s, RoundActs(policy, rounds[0])), policy, rounds[1..]);
      RunConcat(s, RoundActs(policy, rounds[0]), RoundsActs(policy, rounds[1..]));
    }
  }

  /**
    Nobody waits for ever. Whatever happens between them, as many confirmed
    passes as batches are due pay everyone: the active batch, if there is one,
    and the eligible addresses divided by the size of a batch, rounded up.
   */
  lemma PassesPayEveryone(acts: seq<Action>, policy: Policy, rounds: seq<Round>)
    requires ValidPolicy(policy.threshold, policy.maxOutputs) && AreRounds(Run(START, acts), rounds, policy)
    requires |rounds| >= Due(Run(START, acts).db, policy)
    ensures var t := Run(START, acts + RoundsActs(policy, rounds)).db;
      Eligible(t, policy.threshold) == {} && ActiveIDs(t.payouts) == {}
  {
    Reachable(acts);
    RunConcat(START, acts, RoundsActs(policy, rounds));
    RoundsAdvance(Run(START, acts), policy, rounds);
    NothingDue(Run(START, acts + RoundsActs(policy, rounds)).db, policy);
  }
}
