// Where the status of a payout row comes from: in every run a row moves only
// by the reply that the node gave to a call for that very row, and it moves as
// that reply says (internal/pool/controller.go, internal/store/store.go).

module Receipts {
  import opened Sums
  import opened Apportionment
  import opened Ledger
  import opened PoolSystem
  import opened Guarantees

  // ----- One step

  /** The reply that the controller holds is written to this row. */
  ghost predicate Writes(s: Pool, act: Action, p: nat) {
    && act == Settle(true) && s.phase.Answered? && s.phase.batch.id == p && s.phase.transaction != ""
    && p in s.db.payouts && s.db.payouts[p].status != Confirmed
  }

  /** A confirmed reply confirms the row, any other leaves it submitted, and the row takes the transaction. */
  ghost predicate Written(before: Payout, after: Payout, transaction: string, confirmed: bool) {
    && (after.status == Confirmed <==> confirmed) && (after.status == Submitted <==> !confirmed)
    && after.transaction == transaction && after.lastError == ""
    && after == before.(status := after.status, transaction := transaction, lastError := "")
  }

  ghost predicate StatusKept(before: Payout, after: Payout) {
    after == before.(lastError := after.lastError)
  }

  /** What a step does to a row: the held reply is written to it, or its status stays. */
  ghost predicate RowStep(s: Pool, act: Action, t: Pool, p: nat)
    requires p in s.db.payouts
  {
    && p in t.db.payouts
    && if Writes(s, act, p) then Written(s.db.payouts[p], t.db.payouts[p], s.phase.transaction, s.phase.confirmed)
       else StatusKept(s.db.payouts[p], t.db.payouts[p])
  }

  lemma SettleStep(s: Pool, stored: bool, p: nat)
    requires p in s.db.payouts
    ensures RowStep(s, Settle(stored), ExecSettle(s, stored), p)
  {
  }

  lemma SendStep(s: Pool, wallet: Wallet, outcome: Outcome, noted: bool, p: nat)
    requires p in s.db.payouts
    ensures RowStep(s, Send(wallet, outcome, noted), ExecSend(s, wallet, outcome, noted), p)
  {
    if s.phase.Paying? && s.phase.batches != [] {
      FailedKeepsStatus(s.db.payouts, s.phase.batches[0].id, if outcome.Replied? then CONFLICT else outcome.message, p);
    }
  }

  lemma FailedKeepsStatus(payouts: map<nat, Payout>, id: nat, message: string, p: nat)
    requires p in payouts
    ensures p in PayoutFailed(payouts, id, message) && StatusKept(payouts[p], PayoutFailed(payouts, id, message)[p])
  {
  }

  lemma PrepareStep(
      s: Pool, threshold: nat, fee: nat, maxOutputs: nat, requestID: string, lost: bool, p: nat)
    requires p in s.db.payouts && s.db.lastPayout + 1 !in s.db.payouts
    ensures var t := ExecPrepare(s, threshold, fee, maxOutputs, requestID, lost);
      p in t.db.payouts && t.db.payouts[p] == s.db.payouts[p]
  {
    if s.phase.NoneActive? && Preparable(s.db, threshold, maxOutputs, requestID) {
      AddedKeepsRow(s, NewPayout(s.db, threshold, fee, maxOutputs, requestID), lost, p);
    }
  }

  lemma AddedKeepsRow(s: Pool, row: Payout, lost: bool, p: nat)
    requires p in s.db.payouts && s.db.lastPayout + 1 !in s.db.payouts
    ensures p in Reserve(s, row, lost).db.payouts && Reserve(s, row, lost).db.payouts[p] == s.db.payouts[p]
  {
  }

  lemma OtherStep(s: Pool, act: Action)
    requires !(act.PreparePayout? || act.Send? || act.Settle?)
    ensures Exec(s, act).db.payouts == s.db.payouts
  {
    if act.Allocate? {
      AllocateKeepsPayouts(s, act.worker);
    }
  }

  lemma UntouchedRow(s: Pool, act: Action, t: Pool, p: nat)
    requires p in s.db.payouts && p in t.db.payouts && t.db.payouts[p] == s.db.payouts[p] && !act.Settle?
    ensures RowStep(s, act, t, p)
  {
  }

  lemma OtherRowStep(s: Pool, act: Action, p: nat)
    requires p in s.db.payouts && !(act.PreparePayout? || act.Send? || act.Settle?)
    ensures RowStep(s, act, Exec(s, act), p)
  {
    OtherStep(s, act);
    UntouchedRow(s, act, Exec(s, act), p);
  }

  lemma EveryStep(s: Pool, act: Action, p: nat)
    requires Inv(s) && p in s.db.payouts
    ensures RowStep(s, act, Exec(s, act), p)
  {
    match act {
      case PreparePayout(threshold, fee, maxOutputs, requestID, lost) =>
        NextRowIsNew(s.db);
        PrepareStep(s, threshold, fee, maxOutputs, requestID, lost, p);
        UntouchedRow(s, act, ExecPrepare(s, threshold, fee, maxOutputs, requestID, lost), p);
      case Send(wallet, outcome, noted) => SendStep(s, wallet, outcome, noted, p);
      case Settle(stored) => SettleStep(s, stored, p);
      case _ => OtherRowStep(s, act, p);
    }
  }

  lemma NextRowIsNew(db: Db)
    requires RowsAddUp(db.payouts, db.lastPayout)
    ensures db.lastPayout + 1 !in db.payouts
  {
  }

  /**
    In every run a payout row changes its status or its transaction only when
    the controller writes the reply that it holds for that row. The row is then
    confirmed if and only if the reply is, and submitted otherwise.
   */
  lemma StatusFollowsReply(acts: seq<Action>, act: Action, p: nat)
    requires p in Run(START, acts).db.payouts
    ensures RowStep(Run(START, acts), act, Exec(Run(START, acts), act), p)
  {
    Reachable(acts);
    EveryStep(Run(START, acts), act, p);
  }

  // ----- Where the reply comes from

  /** At step i the node was asked to pay this batch, and this is what it replied. */
  ghost predicate AnsweredAt(acts: seq<Action>, i: nat, batch: Batch, transaction: string, confirmed: bool) {
    && i < |acts| && acts[i].Send? && acts[i].outcome == Replied(transaction, confirmed)
    && var s := Run(START, acts[..i]);
      && s.phase.Paying? && s.phase.batches != [] && s.phase.batches[0] == batch
      && Accepts(s.executed, Call(batch.request, acts[i].wallet))
  }

  lemma PhaseStep(s: Pool, act: Action)
    requires Exec(s, act).phase.Answered? && Exec(s, act).phase != s.phase
    ensures var held := Exec(s, act).phase;
      && act.Send? && act.outcome == Replied(held.transaction, held.confirmed)
      && s.phase.Paying? && s.phase.batches != [] && s.phase.batches[0] == held.batch
      && Accepts(s.executed, Call(held.batch.request, act.wallet))
  {
    if act.Settle? {
      SettlesToPaying(s, act.stored);
    } else if act.PreparePayout? {
      PreparesToPaying(s, act);
    } else if !act.Send? {
      OthersHoldNothing(s, act);
    }
  }

  lemma SettlesToPaying(s: Pool, stored: bool)
    ensures ExecSettle(s, stored).phase.Answered? ==> ExecSettle(s, stored).phase == s.phase
  {
  }

  lemma PreparesToPaying(s: Pool, act: Action)
    requires act.PreparePayout?
    ensures Exec(s, act).phase.Answered? ==> Exec(s, act).phase == s.phase
  {
  }

  lemma OthersHoldNothing(s: Pool, act: Action)
    requires !(act.PreparePayout? || act.Send? || act.Settle?)
    ensures Exec(s, act).phase.Answered? ==> Exec(s, act).phase == s.phase
  {
  }

  lemma AnsweredBefore(acts: seq<Action>, last: Action, i: nat, batch: Batch, transaction: string, confirmed: bool)
    requires AnsweredAt(acts, i, batch, transaction, confirmed)
    ensures AnsweredAt(acts + [last], i, batch, transaction, confirmed)
  {
    assert (acts + [last])[..i] == acts[..i];
  }

  lemma AnsweredLast(acts: seq<Action>, s: Pool, batch: Batch, transaction: string, confirmed: bool)
    requires acts != [] && s == Run(START, acts[..|acts| - 1])
    requires acts[|acts| - 1].Send? && acts[|acts| - 1].outcome == Replied(transaction, confirmed)
    requires s.phase.Paying? && s.phase.batches != [] && s.phase.batches[0] == batch
    requires Accepts(s.executed, Call(batch.request, acts[|acts| - 1].wallet))
    ensures AnsweredAt(acts, |acts| - 1, batch, transaction, confirmed)
  {
  }

  /** The reply that the controller holds is one that the node gave to a call for the same batch. */
  lemma {:induction false} HeldReplyWasGiven(acts: seq<Action>)
    requires Run(START, acts).phase.Answered?
    ensures var held := Run(START, acts).phase;
      exists i :: AnsweredAt(acts, i, held.batch, held.transaction, held.confirmed)
    decreases |acts|
  {
    if acts == [] {
      assert false;
    } else {
      var front, last := acts[..|acts| - 1], acts[|acts| - 1];
      assert acts == front + [last];
      RunAppend(START, front, last);
      if Run(START, front).phase == Run(START, acts).phase {
        var held := Run(START, acts).phase;
        HeldReplyWasGiven(front);
        var i :| AnsweredAt(front, i, held.batch, held.transaction, held.confirmed);
        AnsweredBefore(front, last, i, held.batch, held.transaction, held.confirmed);
      } else {
        var s, held := Run(START, front), Run(START, acts).phase;
        PhaseStep(s, last);
        AnsweredLast(acts, s, held.batch, held.transaction, held.confirmed);
      }
    }
  }

  // ----- Every paid row

  /** A reply the node gave for this row: its contents were sent, and status and transaction are the reply's. */
  ghost predicate Explained(acts: seq<Action>, i: nat, p: nat, row: Payout) {
    AnsweredAt(
      acts, i, Batch(p, Request(row.requestID, row.fee, row.items)), row.transaction, row.status == Confirmed)
  }

  /**
    No row is booked as submitted or confirmed on anything but the node's own
    reply: in every run, such a row has been sent, with its request id, fee and
    items, and answered with the transaction it shows. It shows confirmed if and
    only if that answer was.
   */
  lemma {:induction false} EveryPaidRowWasAnswered(acts: seq<Action>, p: nat)
    requires p in Run(START, acts).db.payouts && Run(START, acts).db.payouts[p].status != Prepared
    ensures exists i :: Explained(acts, i, p, Run(START, acts).db.payouts[p])
    decreases |acts|
  {
    if acts == [] {
      assert false;
    } else {
      var front, last := acts[..|acts| - 1], acts[|acts| - 1];
      assert acts == front + [last];
      RunAppend(START, front, last);
      var s, t := Run(START, front), Run(START, acts);
      Reachable(front);
      if p !in s.db.payouts {
        NewRowsArePrepared(s, last, p);
        assert false;
      }
      EveryStep(s, last, p);
      if Writes(s, last, p) {
        WrittenIsExplained(front, last, p);
      } else {
        EveryPaidRowWasAnswered(front, p);
        var i :| Explained(front, i, p, s.db.payouts[p]);
        ExplainedBefore(front, last, i, p, s.db.payouts[p], t.db.payouts[p]);
      }
    }
  }

  lemma ExplainedBefore(acts: seq<Action>, last: Action, i: nat, p: nat, row: Payout, after: Payout)
    requires Explained(acts, i, p, row) && StatusKept(row, after)
    ensures Explained(acts + [last], i, p, after)
  {
    var batch := Batch(p, Request(row.requestID, row.fee, row.items));
    AnsweredBefore(acts, last, i, batch, row.transaction, row.status == Confirmed);
  }

  lemma WrittenIsExplained(front: seq<Action>, last: Action, p: nat)
    requires Writes(Run(START, front), last, p) && p in Exec(Run(START, front), last).db.payouts
    requires RowStep(Run(START, front), last, Exec(Run(START, front), last), p)
    ensures exists i :: Explained(front + [last], i, p, Exec(Run(START, front), last).db.payouts[p])
  {
    var s, row := Run(START, front), Exec(Run(START, front), last).db.payouts[p];
    Reachable(front);
    HeldReplyWasGiven(front);
    HeldBatch(s, p);
    var i :| AnsweredAt(front, i, s.phase.batch, s.phase.transaction, s.phase.confirmed);
    AnsweredBefore(front, last, i, s.phase.batch, s.phase.transaction, s.phase.confirmed);
    assert Explained(front + [last], i, p, row);
  }

  /** The batch whose reply is held is the row it was read from. */
  lemma HeldBatch(s: Pool, p: nat)
    requires Inv(s) && s.phase.Answered? && s.phase.batch.id == p
    ensures p in s.db.payouts
    ensures var row := s.db.payouts[p]; s.phase.batch == Batch(p, Request(row.requestID, row.fee, row.items))
  {
    assert Matches(s.db.payouts, s.phase.batch);
  }

  lemma NewRowsArePrepared(s: Pool, act: Action, p: nat)
    requires p !in s.db.payouts && p in Exec(s, act).db.payouts
    ensures Exec(s, act).db.payouts[p].status == Prepared
  {
    match act {
      case PreparePayout(threshold, fee, maxOutputs, requestID, lost) =>
        PreparedIsNew(s, threshold, fee, maxOutputs, requestID, lost, p);
      case Send(wallet, outcome, noted) => SendAddsNone(s, wallet, outcome, noted);
      case Settle(stored) => SettleAddsNone(s, stored);
      case _ => OtherStep(s, act);
    }
  }

  lemma PreparedIsNew(
      s: Pool, threshold: nat, fee: nat, maxOutputs: nat, requestID: string, lost: bool, p: nat)
    requires p !in s.db.payouts && p in ExecPrepare(s, threshold, fee, maxOutputs, requestID, lost).db.payouts
    ensures ExecPrepare(s, threshold, fee, maxOutputs, requestID, lost).db.payouts[p].status == Prepared
  {
    if s.phase.NoneActive? && Preparable(s.db, threshold, maxOutputs, requestID) {
      AddedIsPrepared(s, NewPayout(s.db, threshold, fee, maxOutputs, requestID), lost, p);
    }
  }

  lemma AddedIsPrepared(s: Pool, row: Payout, lost: bool, p: nat)
    requires row.status == Prepared && p !in s.db.payouts && p in Reserve(s, row, lost).db.payouts
    ensures Reserve(s, row, lost).db.payouts[p].status == Prepared
  {
  }

  lemma SendAddsNone(s: Pool, wallet: Wallet, outcome: Outcome, noted: bool)
    ensures ExecSend(s, wallet, outcome, noted).db.payouts.Keys == s.db.payouts.Keys
  {
  }

  lemma SettleAddsNone(s: Pool, stored: bool)
    ensures ExecSettle(s, stored).db.payouts.Keys == s.db.payouts.Keys
  {
  }

  // ----- What is reserved but not paid

  lemma UnpaidRows(payouts: map<nat, Payout>, prepared: set<nat>, a: string)
    requires prepared == set p | p in payouts && payouts[p].status == Prepared
    ensures Reserved(payouts, a) - Paid(payouts, a) == Sum(prepared, ReservedTerm(payouts, a))
  {
    var open := (p: nat) => if p in payouts && payouts[p].status == Prepared then Get(payouts[p].items, a) else 0;
    SumAdd(payouts.Keys, ReservedTerm(payouts, a), PaidTerm(payouts, a), open);
    SumRestrict(payouts.Keys, prepared, open);
    SumCongruent(prepared, open, ReservedTerm(payouts, a));
  }

  /** In every run, what is reserved for an address and not yet paid is what the one prepared row, if any, holds. */
  lemma OnlyPreparedIsUnpaid(acts: seq<Action>, a: string)
    ensures var payouts := Run(START, acts).db.payouts;
      && (forall p :: p in payouts && payouts[p].status == Prepared ==>
        Reserved(payouts, a) == Paid(payouts, a) + Get(payouts[p].items, a))
      && ((forall p :: p in payouts ==> payouts[p].status != Prepared) ==> Reserved(payouts, a) == Paid(payouts, a))
  {
    Reachable(acts);
    var payouts := Run(START, acts).db.payouts;
    var prepared := set p | p in payouts && payouts[p].status == Prepared;
    UnpaidRows(payouts, prepared, a);
    if prepared == {} {
      SumConstant(prepared, 0, ReservedTerm(payouts, a));
    }
    forall p | p in prepared ensures Reserved(payouts, a) == Paid(payouts, a) + Get(payouts[p].items, a) {
      OnePrepared(payouts, prepared, p);
      SumRemove(prepared, p, ReservedTerm(payouts, a));
    }
  }

  lemma OnePrepared(payouts: map<nat, Payout>, prepared: set<nat>, p: nat)
    requires OneActive(payouts) && p in prepared
    requires prepared == set q | q in payouts && payouts[q].status == Prepared
    ensures prepared == {p}
  {
    forall q | q in prepared ensures q == p {
      assert IsActive(payouts, p) && IsActive(payouts, q);
    }
  }
}
