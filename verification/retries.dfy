// Retrying a payout whose reply was lost. Every retry repeats the row's
// contents, but takes the sending address and the unit from the node's status
// of the moment (internal/pool/controller.go).

module Retries {
  import opened Wrappers
  import opened Ledger
  import opened PoolSystem
  import opened Guarantees

  /** A row that the node has executed and the pool still counts as active. */
  ghost predicate Outstanding(s: Pool, p: nat) {
    IsActive(s.db.payouts, p) && s.db.payouts[p].requestID in s.executed
  }

  ghost function FirstCall(s: Pool, p: nat): Call
    requires Outstanding(s, p)
  {
    s.executed[s.db.payouts[p].requestID]
  }

  lemma FirstCallIsRow(s: Pool, p: nat)
    requires Inv(s) && Outstanding(s, p)
    ensures FirstCall(s, p).request == RequestOf(s.db.payouts[p])
  {
    var first := FirstCall(s, p);
    assert HasRow(s.db.payouts, first.request);
    var q := RowOf(s.db.payouts, first.request);
    assert s.db.payouts[q].requestID == s.db.payouts[p].requestID;
  }

  /** A retry of an executed row is accepted exactly when it comes from the wallet and unit of the first call. */
  lemma RetryAccepted(acts: seq<Action>, p: nat, wallet: Wallet)
    requires Outstanding(Run(START, acts), p)
    ensures var s := Run(START, acts);
      Accepts(s.executed, Call(RequestOf(s.db.payouts[p]), wallet)) <==> wallet == FirstCall(s, p).wallet
  {
    Reachable(acts);
    FirstCallIsRow(Run(START, acts), p);
  }

  // ----- When the wallet has changed

  ghost predicate Differs(act: Action, wallet: Wallet) {
    act.Send? ==> act.wallet != wallet
  }

  ghost predicate HoldsReply(phase: Phase, p: nat) {
    phase.Answered? && phase.batch.id == p
  }

  /** An executed row whose reply the controller does not hold. */
  ghost predicate Waiting(s: Pool, p: nat) {
    Inv(s) && Outstanding(s, p) && !HoldsReply(s.phase, p)
  }

  /** What matters about the payouts: which rows there are, and an outstanding row with its first call. */
  ghost function View(s: Pool, p: nat): Option<(set<nat>, Request, Call)> {
    if Outstanding(s, p) then Some((s.db.payouts.Keys, RequestOf(s.db.payouts[p]), FirstCall(s, p))) else None
  }

  lemma SameView(s: Pool, t: Pool, p: nat)
    requires Outstanding(s, p) && t.db.payouts.Keys == s.db.payouts.Keys
    requires IsActive(t.db.payouts, p) && RequestOf(t.db.payouts[p]) == RequestOf(s.db.payouts[p])
    requires FirstCall(s, p).request.requestID == s.db.payouts[p].requestID
    requires t.executed == s.executed
      || exists call: Call :: t.executed == s.executed[call.request.requestID := call] && Accepts(s.executed, call)
    ensures View(t, p) == View(s, p)
  {
    assert RequestOf(t.db.payouts[p]).requestID == s.db.payouts[p].requestID;
  }

  lemma FailureKeepsRow(payouts: map<nat, Payout>, id: nat, message: string, p: nat)
    requires IsActive(payouts, p)
    ensures var after := PayoutFailed(payouts, id, message);
      after.Keys == payouts.Keys && IsActive(after, p) && RequestOf(after[p]) == RequestOf(payouts[p])
  {
  }

  /** What one call does: rejected calls leave no reply, and executed ones only repeat what was executed. */
  lemma SendEffect(s: Pool, wallet: Wallet, outcome: Outcome, noted: bool)
    requires s.phase.Paying? && s.phase.batches != []
    ensures var t, batch := ExecSend(s, wallet, outcome, noted), s.phase.batches[0];
      var call := Call(batch.request, wallet);
      && (t.db.payouts == s.db.payouts || exists m :: t.db.payouts == PayoutFailed(s.db.payouts, batch.id, m))
      && (t.executed == s.executed
        || (t.executed == s.executed[batch.request.requestID := call] && Accepts(s.executed, call)))
      && (t.phase.Answered? ==> t.phase.batch == batch && Accepts(s.executed, call))
  {
    var message := if outcome.Replied? then CONFLICT else outcome.message;
    var failed := PayoutFailed(s.db.payouts, s.phase.batches[0].id, message);
  }

  lemma SendKeepsWaiting(s: Pool, p: nat, wallet: Wallet, outcome: Outcome, noted: bool)
    requires Waiting(s, p) && wallet != FirstCall(s, p).wallet
    ensures var t := ExecSend(s, wallet, outcome, noted); View(t, p) == View(s, p) && !HoldsReply(t.phase, p)
  {
    FirstCallIsRow(s, p);
    if s.phase.Paying? && s.phase.batches != [] {
      var t, batch := ExecSend(s, wallet, outcome, noted), s.phase.batches[0];
      assert Matches(s.db.payouts, batch);
      SendEffect(s, wallet, outcome, noted);
      forall m ensures var after := PayoutFailed(s.db.payouts, batch.id, m);
        after.Keys == s.db.payouts.Keys && IsActive(after, p) && RequestOf(after[p]) == RequestOf(s.db.payouts[p])
      {
        FailureKeepsRow(s.db.payouts, batch.id, m, p);
      }
      SameView(s, t, p);
    }
  }

  lemma SettleOther(payouts: map<nat, Payout>, other: nat, transaction: string, status: PayoutStatus, p: nat)
    requires OneActive(payouts) && IsActive(payouts, p) && other != p
    ensures Settled(payouts, other, transaction, status) == payouts
  {
    assert IsActive(payouts, other) ==> other == p;
  }

  lemma SettleKeepsWaiting(s: Pool, p: nat, stored: bool)
    requires Waiting(s, p)
    ensures var t := ExecSettle(s, stored); View(t, p) == View(s, p) && !t.phase.Answered?
  {
    if s.phase.Answered? {
      var status := if s.phase.confirmed then Confirmed else Submitted;
      SettleOther(s.db.payouts, s.phase.batch.id, s.phase.transaction, status, p);
    }
  }

  lemma PayoutsUntouched(s: Pool, act: Action)
    requires Inv(s) && !(act.Send? || act.Settle? || act.PreparePayout?)
    ensures Exec(s, act).db.payouts == s.db.payouts
  {
    match act {
      case Allocate(worker) => AllocateKeepsPayouts(s, worker);
      case Observe(answer) => ObserveEvolves(s, answer, "");
      case ObserveError(failure) => ObserveEvolves(s, BlockAnswer(false, false, 0, 0), failure);
      case _ => OtherStepEvolves(s, act);
    }
  }

  /** Only a call executes anything or brings a reply. */
  lemma NodeUntouched(s: Pool, act: Action)
    requires !(act.Send? || act.Settle? || act.PreparePayout?)
    ensures Exec(s, act).executed == s.executed
    ensures Exec(s, act).phase.Answered? ==> Exec(s, act).phase == s.phase
  {
  }

  lemma UntouchedKeepsWaiting(s: Pool, t: Pool, p: nat)
    requires Waiting(s, p) && t.db.payouts == s.db.payouts && t.executed == s.executed
    requires t.phase.Answered? ==> t.phase == s.phase
    ensures View(t, p) == View(s, p) && !HoldsReply(t.phase, p)
  {
  }

  /** While a row is active the controller prepares no other. */
  lemma NoRoomForAnother(s: Pool, p: nat, act: Action)
    requires Waiting(s, p) && act.PreparePayout?
    ensures Exec(s, act) == s
  {
    assert PhaseSound(s.db, s.phase);
    assert !s.phase.NoneActive?;
  }

  lemma SendStepKeepsWaiting(s: Pool, p: nat, act: Action)
    requires Waiting(s, p) && act.Send? && Differs(act, FirstCall(s, p).wallet)
    ensures View(Exec(s, act), p) == View(s, p) && !HoldsReply(Exec(s, act).phase, p)
  {
    SendKeepsWaiting(s, p, act.wallet, act.outcome, act.noted);
  }

  lemma SettleStepKeepsWaiting(s: Pool, p: nat, act: Action)
    requires Waiting(s, p) && act.Settle?
    ensures View(Exec(s, act), p) == View(s, p) && !HoldsReply(Exec(s, act).phase, p)
  {
    SettleKeepsWaiting(s, p, act.stored);
  }

  lemma StepKeepsWaiting(s: Pool, p: nat, act: Action)
    requires Waiting(s, p) && Differs(act, FirstCall(s, p).wallet)
    ensures View(Exec(s, act), p) == View(s, p) && !HoldsReply(Exec(s, act).phase, p)
  {
    if act.Send? {
      SendStepKeepsWaiting(s, p, act);
    } else if act.Settle? {
      SettleStepKeepsWaiting(s, p, act);
    } else {
      OtherKeepsWaiting(s, p, act);
    }
  }

  lemma OtherKeepsWaiting(s: Pool, p: nat, act: Action)
    requires Waiting(s, p) && !(act.Send? || act.Settle?)
    ensures View(Exec(s, act), p) == View(s, p) && !HoldsReply(Exec(s, act).phase, p)
  {
    if act.PreparePayout? {
      NoRoomForAnother(s, p, act);
    } else {
      PayoutsUntouched(s, act);
      NodeUntouched(s, act);
      UntouchedKeepsWaiting(s, Exec(s, act), p);
    }
  }

  /** Waiting for a retry from the wallet of the first call, with the payouts as first seen. */
  ghost predicate Stuck(s: Pool, p: nat, first: Option<(set<nat>, Request, Call)>) {
    Waiting(s, p) && View(s, p) == first
  }

  lemma StuckStep(s: Pool, p: nat, first: Option<(set<nat>, Request, Call)>, act: Action)
    requires Stuck(s, p, first) && first.Some? && Differs(act, first.value.2.wallet)
    ensures Stuck(Exec(s, act), p, first)
  {
    StepKeepsInv(s, act);
    StepKeepsWaiting(s, p, act);
  }

  /**
    Once a row has been executed, it stays active for as long as no call comes
    from the wallet and unit of the first one, and all that time no further
    batch is prepared.
   */
  lemma {:induction false} ChangedWalletBlocks(s: Pool, p: nat, acts: seq<Action>)
    requires Waiting(s, p)
    requires forall i :: 0 <= i < |acts| ==> Differs(acts[i], FirstCall(s, p).wallet)
    ensures View(Run(s, acts), p) == View(s, p)
  {
    var first := View(s, p);
    forall t: Pool, act: Action | Stuck(t, p, first) && Differs(act, first.value.2.wallet)
      ensures Stuck(Exec(t, act), p, first)
    {
      StuckStep(t, p, first, act);
    }
    RunKeeps(s, acts, (t: Pool) => Stuck(t, p, first), (act: Action) => Differs(act, first.value.2.wallet));
  }

  // ----- When it has not

  ghost function Retry(wallet: Wallet, transaction: string): seq<Action> {
    [BeginPayouts, Send(wallet, Replied(transaction, true), true), Settle(true)]
  }

  lemma OnlyBatch(s: Pool, p: nat)
    requires Inv(s) && IsActive(s.db.payouts, p)
    ensures FirstActive(s.db, PASS_LIMIT) == [Batch(p, RequestOf(s.db.payouts[p]))]
  {
    ActiveUpToOne(s.db.payouts, s.db.lastPayout, p);
  }

  lemma {:induction false} ActiveUpToOne(payouts: map<nat, Payout>, n: nat, p: nat)
    requires OneActive(payouts) && IsActive(payouts, p) && p > 0
    ensures ActiveUpTo(payouts, n) == if p <= n then [p] else []
  {
    if n > 0 {
      ActiveUpToOne(payouts, n - 1, p);
      assert IsActive(payouts, n) ==> n == p;
    }
  }

  /** One pass from the first call's wallet, answered and stored, confirms the row. */
  lemma SameWalletConfirms(s: Pool, p: nat, transaction: string)
    requires Inv(s) && Outstanding(s, p) && s.phase.Idle? && transaction != ""
    ensures var t := Run(s, Retry(FirstCall(s, p).wallet, transaction));
      p in t.db.payouts && t.db.payouts[p].status == Confirmed && t.executed == s.executed
  {
    var wallet, batch := FirstCall(s, p).wallet, Batch(p, RequestOf(s.db.payouts[p]));
    BeginFinds(s, p);
    FirstCallIsRow(s, p);
    ConfirmFrom(s, batch, wallet, transaction);
    RetryRuns(s, wallet, transaction);
  }

  lemma RetryRuns(s: Pool, wallet: Wallet, transaction: string)
    ensures Run(s, Retry(wallet, transaction))
      == ExecSettle(ExecSend(ExecBeginPayouts(s), wallet, Replied(transaction, true), true), true)
  {
    RunThree(s, BeginPayouts, Send(wallet, Replied(transaction, true), true), Settle(true));
  }

  lemma BeginFinds(s: Pool, p: nat)
    requires Inv(s) && s.phase.Idle? && IsActive(s.db.payouts, p)
    ensures ExecBeginPayouts(s) == s.(phase := Paying([Batch(p, RequestOf(s.db.payouts[p]))]))
  {
    OnlyBatch(s, p);
  }

  lemma ConfirmFrom(s: Pool, batch: Batch, wallet: Wallet, transaction: string)
    requires IsActive(s.db.payouts, batch.id) && transaction != ""
    requires batch.request.requestID in s.executed && s.executed[batch.request.requestID] == Call(batch.request, wallet)
    ensures var t := ExecSettle(ExecSend(s.(phase := Paying([batch])), wallet, Replied(transaction, true), true), true);
      batch.id in t.db.payouts && t.db.payouts[batch.id].status == Confirmed && t.executed == s.executed
  {
    SendRepeated(s.(phase := Paying([batch])), batch, wallet, transaction);
    SettleConfirms(s.(phase := Answered(batch, transaction, true, [])));
  }

  lemma SendRepeated(s: Pool, batch: Batch, wallet: Wallet, transaction: string)
    requires s.phase == Paying([batch])
    requires batch.request.requestID in s.executed && s.executed[batch.request.requestID] == Call(batch.request, wallet)
    ensures ExecSend(s, wallet, Replied(transaction, true), true) == s.(phase := Answered(batch, transaction, true, []))
  {
    var call := Call(batch.request, wallet);
    assert s.executed[batch.request.requestID := call] == s.executed;
    assert [batch][1..] == [];
  }

  lemma SettleConfirms(s: Pool)
    requires s.phase.Answered? && s.phase.confirmed && s.phase.transaction != ""
    requires IsActive(s.db.payouts, s.phase.batch.id)
    ensures var t := ExecSettle(s, true);
      s.phase.batch.id in t.db.payouts && t.db.payouts[s.phase.batch.id].status == Confirmed && t.executed == s.executed
  {
  }
}
