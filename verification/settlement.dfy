// What the pool books as paid has really been executed by the node, in every
// run (internal/pool/controller.go, internal/store/store.go).

module Settlement {
  import opened Sums
  import opened Ledger
  import opened PoolSystem
  import opened Guarantees

  ghost predicate Executes(executed: map<string, Call>, request: Request) {
    request.requestID in executed && executed[request.requestID].request == request
  }

  /** Every row past prepared has been executed, with its very contents. */
  ghost predicate RowsExecuted(payouts: map<nat, Payout>, executed: map<string, Call>) {
    forall p :: p in payouts && payouts[p].status != Prepared ==> Executes(executed, RequestOf(payouts[p]))
  }

  /** So has the batch whose reply the controller holds. */
  ghost predicate PaidSound(s: Pool) {
    RowsExecuted(s.db.payouts, s.executed) && (s.phase.Answered? ==> Executes(s.executed, s.phase.batch.request))
  }

  /** Status and contents of the rows stay, or rows are added as prepared. */
  ghost predicate NoneSettled(before: map<nat, Payout>, after: map<nat, Payout>) {
    forall p :: p in after && after[p].status != Prepared ==>
      p in before && before[p].status != Prepared && RequestOf(after[p]) == RequestOf(before[p])
  }

  ghost predicate KeepsExecuted(before: map<string, Call>, after: map<string, Call>) {
    forall r :: r in before ==> r in after && after[r] == before[r]
  }

  lemma UnsettledKeepsPaid(s: Pool, t: Pool)
    requires PaidSound(s) && NoneSettled(s.db.payouts, t.db.payouts) && KeepsExecuted(s.executed, t.executed)
    requires t.phase.Answered? ==> Executes(t.executed, t.phase.batch.request)
    ensures PaidSound(t)
  {
  }

  lemma SendKeepsPaid(s: Pool, wallet: Wallet, outcome: Outcome, noted: bool)
    requires PaidSound(s)
    ensures PaidSound(ExecSend(s, wallet, outcome, noted))
  {
    if s.phase.Paying? && s.phase.batches != [] {
      var t, batch := ExecSend(s, wallet, outcome, noted), s.phase.batches[0];
      SendExecutes(s, wallet, outcome, noted);
      FailedSettlesNone(s.db.payouts, batch.id, if outcome.Replied? then CONFLICT else outcome.message);
      UnsettledKeepsPaid(s, t);
    }
  }

  lemma SendExecutes(s: Pool, wallet: Wallet, outcome: Outcome, noted: bool)
    requires s.phase.Paying? && s.phase.batches != []
    ensures var t := ExecSend(s, wallet, outcome, noted);
      KeepsExecuted(s.executed, t.executed) && (t.phase.Answered? ==> Executes(t.executed, t.phase.batch.request))
  {
  }

  lemma FailedSettlesNone(payouts: map<nat, Payout>, id: nat, message: string)
    ensures NoneSettled(payouts, PayoutFailed(payouts, id, message))
  {
  }

  lemma SettleKeepsPaid(s: Pool, stored: bool)
    requires PaidSound(s) && PhaseSound(s.db, s.phase)
    ensures PaidSound(ExecSettle(s, stored))
  {
    if s.phase.Answered? {
      var status := if s.phase.confirmed then Confirmed else Submitted;
      SettledExecuted(s.db.payouts, s.executed, s.phase.batch, s.phase.transaction, status);
    }
  }

  lemma SettledExecuted(
      payouts: map<nat, Payout>, executed: map<string, Call>, batch: Batch, transaction: string, status: PayoutStatus)
    requires RowsExecuted(payouts, executed) && Matches(payouts, batch) && Executes(executed, batch.request)
    ensures RowsExecuted(Settled(payouts, batch.id, transaction, status), executed)
  {
  }

  lemma PrepareKeepsPaid(s: Pool, threshold: nat, fee: nat, maxOutputs: nat, requestID: string, lost: bool)
    requires PaidSound(s)
    ensures PaidSound(ExecPrepare(s, threshold, fee, maxOutputs, requestID, lost))
  {
    if s.phase.NoneActive? && Preparable(s.db, threshold, maxOutputs, requestID) {
      PreparedAdded(s, NewPayout(s.db, threshold, fee, maxOutputs, requestID), lost);
    }
  }

  lemma PreparedAdded(s: Pool, p: Payout, lost: bool)
    requires PaidSound(s) && p.status == Prepared
    ensures PaidSound(Reserve(s, p, lost))
  {
  }

  lemma OtherKeepsPaid(s: Pool, act: Action)
    requires PaidSound(s) && !(act.PreparePayout? || act.Send? || act.Settle?)
    ensures PaidSound(Exec(s, act))
  {
    if act.Allocate? {
      AllocateKeepsPayouts(s, act.worker);
    }
  }

  lemma StepKeepsPaid(s: Pool, act: Action)
    requires Inv(s) && PaidSound(s)
    ensures PaidSound(Exec(s, act))
  {
    match act {
      case PreparePayout(threshold, fee, maxOutputs, requestID, lost) =>
        PrepareKeepsPaid(s, threshold, fee, maxOutputs, requestID, lost);
      case Send(wallet, outcome, noted) => SendKeepsPaid(s, wallet, outcome, noted);
      case Settle(stored) => SettleKeepsPaid(s, stored);
      case _ => OtherKeepsPaid(s, act);
    }
  }

  lemma {:induction false} RunKeepsPaid(s: Pool, acts: seq<Action>)
    requires Inv(s) && PaidSound(s)
    ensures PaidSound(Run(s, acts))
    decreases |acts|
  {
    if acts != [] {
      StepKeepsInv(s, acts[0]);
      StepKeepsPaid(s, acts[0]);
      RunKeepsPaid(Exec(s, acts[0]), acts[1..]);
    }
  }

  lemma PaidIsExecuted(payouts: map<nat, Payout>, executed: map<string, Call>, a: string)
    requires RowsExecuted(payouts, executed)
    requires forall p, q :: p in payouts && q in payouts && payouts[p].requestID == payouts[q].requestID ==> p == q
    ensures Paid(payouts, a) <= ExecutedTo(executed, a)
  {
    var settled := set p | p in payouts && payouts[p].status != Prepared;
    SumRestrict(payouts.Keys, settled, PaidTerm(payouts, a));
    var into: nat -> string := (p: nat) => if p in payouts then payouts[p].requestID else "";
    forall p | p in settled
      ensures into(p) in executed.Keys && PaidTerm(payouts, a)(p) <= ExecutedTerm(executed, a)(into(p))
    {
      assert Executes(executed, RequestOf(payouts[p]));
    }
    SumInjective<nat, string>(settled, executed.Keys, PaidTerm(payouts, a), ExecutedTerm(executed, a), into);
  }

  /**
    The books never run ahead of the wallet, nor the wallet ahead of the
    reservations: in every run, what is shown as paid to an address has been
    executed, and what has been executed is reserved.
   */
  lemma PaidExecutedReserved(acts: seq<Action>, a: string)
    ensures var s := Run(START, acts);
      Paid(s.db.payouts, a) <= ExecutedTo(s.executed, a) <= Reserved(s.db.payouts, a)
  {
    StartSound();
    Reachable(acts);
    RunKeepsPaid(START, acts);
    var s := Run(START, acts);
    PaidIsExecuted(s.db.payouts, s.executed, a);
    NoOverpayment(acts, a);
  }
}
