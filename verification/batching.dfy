// Payout batches: who is in one, what it does to the balances, and how many
// it takes to pay everyone who is eligible (internal/store/store.go).

module Batching {
  import opened Arith
  import opened Ranking
  import opened Apportionment
  import opened Ledger

  /** The members served first have at least the balance of everyone left waiting. */
  lemma {:induction false} RecipientsAreLargest(db: Db, threshold: nat, maxOutputs: nat, a: string, b: string)
    requires a in Recipients(db, threshold, maxOutputs)
    requires b in Eligible(db, threshold) && b !in Recipients(db, threshold, maxOutputs)
    ensures Balance(db, a) >= Balance(db, b) >= threshold
    ensures Balance(db, a) == Balance(db, b) ==> Less(a, b)
  {
    BeforeIsStrictTotal(BalanceKey(db), a, b, a);
    if Before(BalanceKey(db), b, a) {
      RankFollowsOrder(Eligible(db, threshold), BalanceKey(db), b, a);
    }
  }

  lemma {:induction false} RecipientCount(db: Db, threshold: nat, maxOutputs: nat)
    ensures var eligible := |Eligible(db, threshold)|;
      |Recipients(db, threshold, maxOutputs)| == if eligible > maxOutputs then maxOutputs else eligible
  {
    TopSize(Eligible(db, threshold), BalanceKey(db), maxOutputs);
  }

  lemma BalanceAfterPayout(db: Db, p: Payout, a: string)
    requires db.lastPayout + 1 !in db.payouts
    ensures Balance(AddPayout(db, p), a) == Balance(db, a) - Get(p.items, a)
  {
    PayoutAdded(db.payouts, db.lastPayout + 1, p, a);
  }

  lemma BatchItem(everyone: set<string>, balance: string -> int, threshold: nat, n: nat, a: string)
    ensures Get(BatchBy(everyone, balance, threshold, n), a)
      == if a in Top(EligibleBy(everyone, balance, threshold), balance, n) then balance(a) else 0
  {
  }

  lemma NewPayoutItem(db: Db, threshold: nat, fee: nat, maxOutputs: nat, requestID: string, a: string)
    ensures Get(NewPayout(db, threshold, fee, maxOutputs, requestID).items, a)
      == if a in Recipients(db, threshold, maxOutputs) then Balance(db, a) else 0
  {
    BatchItem(Addresses(db.blocks), BalanceKey(db), threshold, maxOutputs, a);
  }

  lemma WithPayoutAdds(db: Db, threshold: nat, fee: nat, maxOutputs: nat, requestID: string)
    requires Preparable(db, threshold, maxOutputs, requestID)
    ensures WithPayout(db, threshold, fee, maxOutputs, requestID)
      == AddPayout(db, NewPayout(db, threshold, fee, maxOutputs, requestID))
  {
  }

  /** A batch zeroes the balances of its recipients and touches no other. */
  lemma {:induction false} BatchZeroesRecipients(
      db: Db, threshold: nat, fee: nat, maxOutputs: nat, requestID: string, a: string)
    requires Preparable(db, threshold, maxOutputs, requestID) && db.lastPayout + 1 !in db.payouts
    ensures Balance(WithPayout(db, threshold, fee, maxOutputs, requestID), a)
      == if a in Recipients(db, threshold, maxOutputs) then 0 else Balance(db, a)
  {
    WithPayoutAdds(db, threshold, fee, maxOutputs, requestID);
    NewPayoutItem(db, threshold, fee, maxOutputs, requestID, a);
    BalanceZeroed(db, NewPayout(db, threshold, fee, maxOutputs, requestID), Recipients(db, threshold, maxOutputs), a);
  }

  lemma BalanceZeroed(db: Db, p: Payout, zeroed: set<string>, a: string)
    requires db.lastPayout + 1 !in db.payouts
    requires Get(p.items, a) == if a in zeroed then Balance(db, a) else 0
    ensures Balance(AddPayout(db, p), a) == if a in zeroed then 0 else Balance(db, a)
  {
    BalanceAfterPayout(db, p, a);
  }

  /** So exactly the recipients stop being eligible. */
  lemma {:induction false} EligibleAfterBatch(db: Db, threshold: nat, fee: nat, maxOutputs: nat, requestID: string)
    requires Preparable(db, threshold, maxOutputs, requestID) && db.lastPayout + 1 !in db.payouts
    ensures Eligible(WithPayout(db, threshold, fee, maxOutputs, requestID), threshold)
      == Eligible(db, threshold) - Recipients(db, threshold, maxOutputs)
  {
    forall a ensures Balance(WithPayout(db, threshold, fee, maxOutputs, requestID), a)
      == if a in Recipients(db, threshold, maxOutputs) then 0 else Balance(db, a)
    {
      BatchZeroesRecipients(db, threshold, fee, maxOutputs, requestID, a);
    }
    SameBlocks(db, threshold, fee, maxOutputs, requestID);
    var after := WithPayout(db, threshold, fee, maxOutputs, requestID);
    EligibleOfZeroed(db, after, threshold, Recipients(db, threshold, maxOutputs));
  }

  lemma SameBlocks(db: Db, threshold: nat, fee: nat, maxOutputs: nat, requestID: string)
    ensures WithPayout(db, threshold, fee, maxOutputs, requestID).blocks == db.blocks
  {
  }

  lemma EligibleOfZeroed(db: Db, after: Db, threshold: nat, zeroed: set<string>)
    requires after.blocks == db.blocks && threshold > 0
    requires forall a :: Balance(after, a) == if a in zeroed then 0 else Balance(db, a)
    ensures Eligible(after, threshold) == Eligible(db, threshold) - zeroed
  {
    forall a ensures BalanceKey(after)(a) == if a in zeroed then 0 else BalanceKey(db)(a) {
      assert Balance(after, a) == if a in zeroed then 0 else Balance(db, a);
    }
    EligibleAfter(Addresses(db.blocks), BalanceKey(db), BalanceKey(after), threshold, zeroed);
  }

  lemma EligibleAfter(
      everyone: set<string>, before: string -> int, after: string -> int, threshold: nat, zeroed: set<string>)
    requires threshold > 0
    requires forall a :: after(a) == if a in zeroed then 0 else before(a)
    ensures EligibleBy(everyone, after, threshold) == EligibleBy(everyone, before, threshold) - zeroed
  {
  }

  ghost function ConfirmLast(db: Db, transaction: string): Db {
    db.(payouts := Settled(db.payouts, db.lastPayout, transaction, Confirmed))
  }

  /** One batch prepared and later confirmed by the node. */
  ghost function ConfirmedBatch(
      db: Db, threshold: nat, fee: nat, maxOutputs: nat, requestID: string, transaction: string): Db
  {
    ConfirmLast(WithPayout(db, threshold, fee, maxOutputs, requestID), transaction)
  }

  /** The parts of a payout policy that stay the same from pass to pass. */
  datatype Policy = Policy(threshold: nat, fee: nat, maxOutputs: nat)

  /** Preparing and confirming batch after batch, one for each request id. */
  ghost function Drain(db: Db, policy: Policy, requests: seq<string>, transactions: string -> string): Db
    decreases |requests|
  {
    if requests == [] then db
    else
      var id := requests[0];
      var next := ConfirmedBatch(db, policy.threshold, policy.fee, policy.maxOutputs, id, transactions(id));
      Drain(next, policy, requests[1..], transactions)
  }

  ghost predicate Unused(db: Db, requests: seq<string>) {
    && (forall i :: 0 <= i < |requests| ==> !RequestUsed(db.payouts, requests[i]))
    && (forall i, j :: 0 <= i < j < |requests| ==> requests[i] != requests[j])
    && (forall p :: p in db.payouts ==> p <= db.lastPayout)
  }

  /** Settling a payout changes no balance. */
  lemma SettlingKeepsBalances(db: Db, id: nat, transaction: string, status: PayoutStatus, a: string)
    ensures Balance(db.(payouts := Settled(db.payouts, id, transaction, status)), a) == Balance(db, a)
  {
    if Settleable(db.payouts, id, transaction, status) {
      PayoutReplaced(db.payouts, id, db.payouts[id].(status := status, transaction := transaction, lastError := ""), a);
    }
  }

  lemma ConfirmedBatchEligible(db: Db, policy: Policy, requests: seq<string>, transaction: string)
    requires ValidPolicy(policy.threshold, policy.maxOutputs) && requests != [] && Unused(db, requests)
    ensures var next := ConfirmedBatch(db, policy.threshold, policy.fee, policy.maxOutputs, requests[0], transaction);
      && |Eligible(next, policy.threshold)| == Less0(|Eligible(db, policy.threshold)|, policy.maxOutputs)
      && Unused(next, requests[1..])
  {
    var after := WithPayout(db, policy.threshold, policy.fee, policy.maxOutputs, requests[0]);
    var next := ConfirmLast(after, transaction);
    forall a ensures BalanceKey(next)(a) == BalanceKey(after)(a) {
      SettlingKeepsBalances(after, after.lastPayout, transaction, Confirmed, a);
    }
    SameEligible(Addresses(db.blocks), BalanceKey(next), BalanceKey(after), policy.threshold);
    BatchShrinksEligible(db, policy.threshold, policy.fee, policy.maxOutputs, requests[0]);
    BatchUsesOneRequest(db, policy, requests, transaction);
  }

  lemma SameEligible(everyone: set<string>, balance: string -> int, other: string -> int, threshold: nat)
    requires forall a :: balance(a) == other(a)
    ensures EligibleBy(everyone, balance, threshold) == EligibleBy(everyone, other, threshold)
  {
  }

  function Less0(m: int, n: int): int {
    if m > n then m - n else 0
  }

  lemma BatchShrinksEligible(db: Db, threshold: nat, fee: nat, maxOutputs: nat, requestID: string)
    requires ValidPolicy(threshold, maxOutputs) && !RequestUsed(db.payouts, requestID)
    requires db.lastPayout + 1 !in db.payouts
    ensures |Eligible(WithPayout(db, threshold, fee, maxOutputs, requestID), threshold)|
      == Less0(|Eligible(db, threshold)|, maxOutputs)
  {
    if Eligible(db, threshold) != {} {
      EligibleAfterBatch(db, threshold, fee, maxOutputs, requestID);
      RecipientCount(db, threshold, maxOutputs);
      RecipientsEligible(db, threshold, maxOutputs);
      SizeOfDifference(Eligible(db, threshold), Recipients(db, threshold, maxOutputs));
    } else {
      NoPayout(db, threshold, fee, maxOutputs, requestID);
    }
  }

  lemma RecipientsEligible(db: Db, threshold: nat, maxOutputs: nat)
    ensures Recipients(db, threshold, maxOutputs) <= Eligible(db, threshold)
  {
  }

  lemma NoPayout(db: Db, threshold: nat, fee: nat, maxOutputs: nat, requestID: string)
    requires Eligible(db, threshold) == {}
    ensures WithPayout(db, threshold, fee, maxOutputs, requestID) == db
  {
  }

  lemma BatchUsesOneRequest(db: Db, policy: Policy, requests: seq<string>, transaction: string)
    requires requests != [] && Unused(db, requests)
    ensures Unused(
      ConfirmedBatch(db, policy.threshold, policy.fee, policy.maxOutputs, requests[0], transaction), requests[1..])
  {
    var next := ConfirmedBatch(db, policy.threshold, policy.fee, policy.maxOutputs, requests[0], transaction);
    forall i | 0 <= i < |requests[1..]| ensures !RequestUsed(next.payouts, requests[1..][i]) {
      assert requests[1..][i] == requests[i + 1];
      StillUnused(db, policy, requests[0], transaction, requests[i + 1]);
    }
    RowsBounded(db, policy, requests[0], transaction);
  }

  lemma StillUnused(db: Db, policy: Policy, requestID: string, transaction: string, other: string)
    requires !RequestUsed(db.payouts, other) && other != requestID
    ensures !RequestUsed(
      ConfirmedBatch(db, policy.threshold, policy.fee, policy.maxOutputs, requestID, transaction).payouts, other)
  {
    var next := ConfirmedBatch(db, policy.threshold, policy.fee, policy.maxOutputs, requestID, transaction);
    forall p | p in next.payouts ensures next.payouts[p].requestID != other {
      RowRequest(db, policy, requestID, transaction, p);
    }
  }

  lemma PreparedBounded(db: Db, policy: Policy, requestID: string)
    requires forall p :: p in db.payouts ==> p <= db.lastPayout
    ensures var after := WithPayout(db, policy.threshold, policy.fee, policy.maxOutputs, requestID);
      forall p :: p in after.payouts ==> p <= after.lastPayout
  {
  }

  lemma RowsBounded(db: Db, policy: Policy, requestID: string, transaction: string)
    requires forall p :: p in db.payouts ==> p <= db.lastPayout
    ensures var next := ConfirmedBatch(db, policy.threshold, policy.fee, policy.maxOutputs, requestID, transaction);
      forall p :: p in next.payouts ==> p <= next.lastPayout
  {
    var after := WithPayout(db, policy.threshold, policy.fee, policy.maxOutputs, requestID);
    var next := ConfirmLast(after, transaction);
    PreparedBounded(db, policy, requestID);
    forall p | p in next.payouts ensures p <= next.lastPayout {
      SettledRow(after.payouts, after.lastPayout, transaction, Confirmed, p);
    }
  }

  lemma AddedRow(db: Db, p: Payout, id: nat)
    requires id in AddPayout(db, p).payouts
    ensures var row := AddPayout(db, p).payouts[id]; row == p || (id in db.payouts && db.payouts[id] == row)
  {
  }

  lemma SettledRow(payouts: map<nat, Payout>, settled: nat, transaction: string, status: PayoutStatus, id: nat)
    requires id in Settled(payouts, settled, transaction, status)
    ensures id in payouts && payouts[id].requestID == Settled(payouts, settled, transaction, status)[id].requestID
  {
  }

  lemma RowRequest(db: Db, policy: Policy, requestID: string, transaction: string, id: nat)
    requires id in ConfirmedBatch(db, policy.threshold, policy.fee, policy.maxOutputs, requestID, transaction).payouts
    ensures
      var after := ConfirmedBatch(db, policy.threshold, policy.fee, policy.maxOutputs, requestID, transaction);
      var row := after.payouts[id];
      row.requestID == requestID || (id in db.payouts && db.payouts[id].requestID == row.requestID)
  {
    var after := WithPayout(db, policy.threshold, policy.fee, policy.maxOutputs, requestID);
    SettledRow(after.payouts, after.lastPayout, transaction, Confirmed, id);
    if Preparable(db, policy.threshold, policy.maxOutputs, requestID) {
      NewPayoutPrepared(db, policy, requestID);
      WithPayoutAdds(db, policy.threshold, policy.fee, policy.maxOutputs, requestID);
      AddedRow(db, NewPayout(db, policy.threshold, policy.fee, policy.maxOutputs, requestID), id);
    }
  }

  lemma NewPayoutPrepared(db: Db, policy: Policy, requestID: string)
    ensures var p := NewPayout(db, policy.threshold, policy.fee, policy.maxOutputs, requestID);
      p.status == Prepared && p.requestID == requestID
  {
  }

  /** k batches leave max(0, eligible - k * maxOutputs) addresses waiting. */
  lemma {:induction false} DrainCount(db: Db, policy: Policy, requests: seq<string>, transactions: string -> string)
    requires ValidPolicy(policy.threshold, policy.maxOutputs) && Unused(db, requests)
    ensures |Eligible(Drain(db, policy, requests, transactions), policy.threshold)|
      == Less0(|Eligible(db, policy.threshold)|, |requests| * policy.maxOutputs)
    decreases |requests|
  {
    if requests != [] {
      var next := DrainStep(db, policy, requests, transactions);
      DrainCount(next, policy, requests[1..], transactions);
      Less0Twice(
        |Eligible(db, policy.threshold)|, |Eligible(next, policy.threshold)|, policy.maxOutputs, |requests|);
    }
  }

  /** The first batch of a drain, and what it leaves to the others. */
  lemma DrainStep(db: Db, policy: Policy, requests: seq<string>, transactions: string -> string) returns (next: Db)
    requires ValidPolicy(policy.threshold, policy.maxOutputs) && requests != [] && Unused(db, requests)
    ensures Drain(db, policy, requests, transactions) == Drain(next, policy, requests[1..], transactions)
    ensures Unused(next, requests[1..])
    ensures |Eligible(next, policy.threshold)| == Less0(|Eligible(db, policy.threshold)|, policy.maxOutputs)
  {
    var transaction := transactions(requests[0]);
    next := ConfirmedBatch(db, policy.threshold, policy.fee, policy.maxOutputs, requests[0], transaction);
    ConfirmedBatchEligible(db, policy, requests, transaction);
  }

  lemma Less0Twice(m: nat, rest: nat, n: nat, k: nat)
    requires k > 0 && rest == Less0(m, n)
    ensures Less0(rest, (k - 1) * n) == Less0(m, k * n)
  {
    MulSub(k, 1, n);
    MulSign(k - 1, n);
  }
}
