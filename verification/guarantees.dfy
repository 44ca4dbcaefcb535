// What holds in every run of the pool, whatever is interleaved, lost or
// crashed (docs/accounting.md).

module Guarantees {
  import opened Sums
  import opened Apportionment
  import opened ShareWindow
  import opened Ledger
  import opened PoolSystem

  lemma Reachable(acts: seq<Action>)
    ensures Inv(Run(START, acts))
  {
    StartSound();
    RunKeepsInv(START, acts);
  }

  // ----- Money

  ghost function ExecutedTerm(executed: map<string, Call>, a: string): string -> int {
    (r: string) => if r in executed then Get(executed[r].request.outputs, a) else 0
  }

  /** Everything the node has been made to pay to an address. */
  ghost function ExecutedTo(executed: map<string, Call>, a: string): int {
    Sum(executed.Keys, ExecutedTerm(executed, a))
  }

  ghost function RowOf(payouts: map<nat, Payout>, request: Request): nat
    requires HasRow(payouts, request)
  {
    var p :| p in payouts && RequestOf(payouts[p]) == request;
    p
  }

  lemma ExecutedIsReserved(payouts: map<nat, Payout>, executed: map<string, Call>, a: string)
    requires ExecutedSound(payouts, executed)
    ensures ExecutedTo(executed, a) <= Reserved(payouts, a)
  {
    var into: string -> nat := (r: string) =>
      if r in executed && HasRow(payouts, executed[r].request) then RowOf(payouts, executed[r].request) else 0;
    forall r | r in executed.Keys
      ensures into(r) in payouts.Keys && RequestOf(payouts[into(r)]) == executed[r].request
    {
      assert HasRow(payouts, executed[r].request);
    }
    SumInjective<string, nat>(executed.Keys, payouts.Keys, ExecutedTerm(executed, a), ReservedTerm(payouts, a), into);
  }

  /**
    No overpayment: in every run the node pays an address no more than its
    batches reserve, which is no more than its matured credit.
   */
  lemma NoOverpayment(acts: seq<Action>, a: string)
    ensures var s := Run(START, acts);
      ExecutedTo(s.executed, a) <= Reserved(s.db.payouts, a) <= Credited(s.db.blocks, Mature, a)
  {
    Reachable(acts);
    ExecutedIsReserved(Run(START, acts).db.payouts, Run(START, acts).executed, a);
  }

  /** What a row asks the node to pay: its items, for its fee, under its request id. */
  ghost predicate Pays(request: Request, row: Payout) {
    request.requestID == row.requestID && request.fee == row.fee && request.outputs == row.items
  }

  /**
    Every executed request has exactly the outputs and fee of one payout row,
    and that row is the only one with its request id.
   */
  lemma ExecutedRequestsAreRows(acts: seq<Action>, r: string)
    requires r in Run(START, acts).executed
    ensures var s := Run(START, acts);
      exists p :: p in s.db.payouts && Pays(s.executed[r].request, s.db.payouts[p]) && s.db.payouts[p].requestID == r
        && forall q :: q in s.db.payouts && s.db.payouts[q].requestID == r ==> q == p
  {
    Reachable(acts);
    var s := Run(START, acts);
    assert HasRow(s.db.payouts, s.executed[r].request);
    var p := RowOf(s.db.payouts, s.executed[r].request);
    assert s.db.payouts[p].requestID == r;
  }

  /** Conservation and the order paid <= reserved <= mature, in every reachable state. */
  lemma LedgerAlwaysBalances(acts: seq<Action>, everyone: set<string>, a: string)
    requires Addresses(Run(START, acts).db.blocks) <= everyone
    ensures var db := Run(START, acts).db;
      && Sum(db.blocks.Keys, RewardTerm(db.blocks))
        == Sum(db.blocks.Keys, PoolFeeTerm(db.blocks)) + Sum(everyone, AccountTerm(db))
      && 0 <= Paid(db.payouts, a) <= Reserved(db.payouts, a) <= Credited(db.blocks, Mature, a)
      && Balance(db, a) >= 0
  {
    Reachable(acts);
    Conservation(Run(START, acts).db, everyone);
    BalanceOrder(Run(START, acts).db, a);
  }

  /** At most one payout is active, so no two batches can compete for one balance. */
  lemma SingleActivePayout(acts: seq<Action>)
    ensures |ActiveIDs(Run(START, acts).db.payouts)| <= 1
  {
    Reachable(acts);
    var active := ActiveIDs(Run(START, acts).db.payouts);
    if active != {} {
      var p :| p in active;
      forall q | q in active ensures q == p {
        assert IsActive(Run(START, acts).db.payouts, p) && IsActive(Run(START, acts).db.payouts, q);
      }
      assert active == {p};
    }
  }

  /** Each block id sent to the node already has an allocation that, with the pool fee, is the whole template payout. */
  lemma AllocatedBeforeSubmitted(acts: seq<Action>, id: string)
    requires id in Run(START, acts).submitted
    ensures var s := Run(START, acts);
      id in s.db.blocks && s.db.blocks[id].poolFee + Total(s.db.blocks[id].amounts) == s.submitted[id]
  {
    Reachable(acts);
    assert Allotted(Run(START, acts).db.blocks, id, Run(START, acts).submitted[id]);
    assert BlockBalances(Run(START, acts).db.blocks[id]);
  }

  // ----- What never changes again

  /** A frozen allocation is never rewritten; mature and orphan are final. */
  ghost predicate Evolves(b: Block, c: Block) {
    && c.height == b.height && c.maturity == b.maturity && c.reward == b.reward && c.fees == b.fees
    && c.poolFee == b.poolFee && c.window == b.window && c.selected == b.selected
    && c.work == b.work && c.amounts == b.amounts
    && (b.status != Pending ==> c.status == b.status)
  }

  ghost predicate BlocksEvolve(before: map<string, Block>, after: map<string, Block>) {
    forall id :: id in before ==> id in after && Evolves(before[id], after[id])
  }

  /** A payout row keeps its contents; it never returns to prepared, and confirmed is final. */
  ghost predicate PayoutsEvolve(before: map<nat, Payout>, after: map<nat, Payout>) {
    forall p :: p in before ==> p in after && PayoutEvolves(before[p], after[p])
  }

  ghost predicate PayoutEvolves(before: Payout, after: Payout) {
    && after.requestID == before.requestID && after.fee == before.fee && after.items == before.items
    && after.amount == before.amount
    && (before.status != Prepared ==> after.status != Prepared)
    && (before.status == Confirmed ==> after == before)
  }

  /** No id is allocated twice: an existing row is left as it is. */
  lemma AllocateKeepsRows(s: Pool, worker: nat, id: string)
    requires id in s.db.blocks
    ensures id in ExecAllocate(s, worker).db.blocks && ExecAllocate(s, worker).db.blocks[id] == s.db.blocks[id]
    ensures ExecAllocate(s, worker).db.payouts == s.db.payouts
  {
  }

  lemma ObserveEvolves(s: Pool, answer: BlockAnswer, failure: string)
    requires PhaseSound(s.db, s.phase)
    ensures BlocksEvolve(s.db.blocks, ExecObserve(s, answer).db.blocks)
    ensures ExecObserve(s, answer).db.payouts == s.db.payouts
    ensures BlocksEvolve(s.db.blocks, ExecObserveError(s, failure).db.blocks)
    ensures ExecObserveError(s, failure).db.payouts == s.db.payouts
  {
    if s.phase.Syncing? && s.phase.blocks != [] {
      assert IsPending(s.db.blocks, s.phase.blocks[0]);
    }
  }

  lemma ReserveEvolves(s: Pool, p: Payout, lost: bool)
    requires s.db.lastPayout + 1 !in s.db.payouts
    ensures PayoutsEvolve(s.db.payouts, Reserve(s, p, lost).db.payouts) && Reserve(s, p, lost).db.blocks == s.db.blocks
  {
  }

  lemma PrepareEvolves(s: Pool, threshold: nat, fee: nat, maxOutputs: nat, requestID: string, lost: bool)
    requires s.db.lastPayout + 1 !in s.db.payouts
    ensures var t := ExecPrepare(s, threshold, fee, maxOutputs, requestID, lost);
      PayoutsEvolve(s.db.payouts, t.db.payouts) && t.db.blocks == s.db.blocks
  {
    if s.phase.NoneActive? && Preparable(s.db, threshold, maxOutputs, requestID) {
      ReserveEvolves(s, NewPayout(s.db, threshold, fee, maxOutputs, requestID), lost);
    }
  }

  lemma RowUpdatesEvolve(payouts: map<nat, Payout>, id: nat, text: string, status: PayoutStatus)
    ensures PayoutsEvolve(payouts, PayoutFailed(payouts, id, text))
    ensures PayoutsEvolve(payouts, Settled(payouts, id, text, status))
  {
  }

  lemma SendEvolves(s: Pool, wallet: Wallet, outcome: Outcome, noted: bool)
    ensures PayoutsEvolve(s.db.payouts, ExecSend(s, wallet, outcome, noted).db.payouts)
    ensures ExecSend(s, wallet, outcome, noted).db.blocks == s.db.blocks
  {
    if s.phase.Paying? && s.phase.batches != [] {
      var message := if outcome.Replied? then CONFLICT else outcome.message;
      RowUpdatesEvolve(s.db.payouts, s.phase.batches[0].id, message, Submitted);
    }
  }

  lemma SettleEvolves(s: Pool, stored: bool)
    ensures PayoutsEvolve(s.db.payouts, ExecSettle(s, stored).db.payouts)
    ensures ExecSettle(s, stored).db.blocks == s.db.blocks
  {
    if s.phase.Answered? {
      var status := if s.phase.confirmed then Confirmed else Submitted;
      RowUpdatesEvolve(s.db.payouts, s.phase.batch.id, s.phase.transaction, status);
    }
  }

  lemma StepEvolves(s: Pool, act: Action)
    requires Inv(s)
    ensures BlocksEvolve(s.db.blocks, Exec(s, act).db.blocks)
    ensures PayoutsEvolve(s.db.payouts, Exec(s, act).db.payouts)
  {
    match act {
      case Allocate(worker) =>
        forall id | id in s.db.blocks
          ensures id in ExecAllocate(s, worker).db.blocks
          ensures ExecAllocate(s, worker).db.blocks[id] == s.db.blocks[id]
        {
          AllocateKeepsRows(s, worker, id);
        }
        AllocateKeepsPayouts(s, worker);
      case Observe(answer) => ObserveEvolves(s, answer, "");
      case ObserveError(failure) => ObserveEvolves(s, BlockAnswer(false, false, 0, 0), failure);
      case PreparePayout(threshold, fee, maxOutputs, requestID, lost) =>
        assert s.db.lastPayout + 1 !in s.db.payouts;
        PrepareEvolves(s, threshold, fee, maxOutputs, requestID, lost);
      case Send(wallet, outcome, noted) => SendEvolves(s, wallet, outcome, noted);
      case Settle(stored) => SettleEvolves(s, stored);
      case _ => OtherStepEvolves(s, act);
    }
  }

  lemma AllocateKeepsPayouts(s: Pool, worker: nat)
    ensures ExecAllocate(s, worker).db.payouts == s.db.payouts
  {
  }

  lemma OtherStepEvolves(s: Pool, act: Action)
    requires !(act.Allocate? || act.Observe? || act.ObserveError? || act.PreparePayout? || act.Send? || act.Settle?)
    ensures Exec(s, act).db.blocks == s.db.blocks && Exec(s, act).db.payouts == s.db.payouts
  {
  }

  lemma {:induction false} RunEvolves(s: Pool, acts: seq<Action>)
    requires Inv(s)
    ensures BlocksEvolve(s.db.blocks, Run(s, acts).db.blocks)
    ensures PayoutsEvolve(s.db.payouts, Run(s, acts).db.payouts)
    decreases |acts|
  {
    if acts != [] {
      StepKeepsInv(s, acts[0]);
      StepEvolves(s, acts[0]);
      RunEvolves(Exec(s, acts[0]), acts[1..]);
    }
  }

  /** From any reachable state, later steps never touch a frozen allocation, a final block or a confirmed payout. */
  lemma FinalStatesAbsorb(acts: seq<Action>, more: seq<Action>)
    ensures BlocksEvolve(Run(START, acts).db.blocks, Run(START, acts + more).db.blocks)
    ensures PayoutsEvolve(Run(START, acts).db.payouts, Run(START, acts + more).db.payouts)
  {
    Reachable(acts);
    RunConcat(START, acts, more);
    RunEvolves(Run(START, acts), more);
  }

  /** The step is an answer about this block. */
  ghost predicate IsAnswer(s: Pool, act: Action, id: string) {
    act.Observe? && s.phase.Syncing? && s.phase.blocks != [] && s.phase.blocks[0] == id
  }

  /**
    A block leaves pending exactly by a successful observation of that block: it
    matures if and only if the answer is canonical at its maturity height, and
    becomes an orphan if and only if the answer is not canonical six blocks on.
    Errors never change a status, and a status that is not pending never changes.
   */
  lemma StatusChangesOnlyByObservation(acts: seq<Action>, act: Action, id: string)
    requires id in Run(START, acts).db.blocks
    ensures var s, t := Run(START, acts), Exec(Run(START, acts), act);
      && id in t.db.blocks
      && var b, after := s.db.blocks[id], t.db.blocks[id].status;
        if b.status != Pending then after == b.status
        else
          && (after == Mature <==> IsAnswer(s, act, id) && act.answer.canonical && act.answer.tip >= b.maturity)
          && (after == Orphan <==> IsAnswer(s, act, id) && !act.answer.canonical && act.answer.tip >= b.height + 6)
  {
    Reachable(acts);
    if IsAnswer(Run(START, acts), act, id) {
      ObservedStatus(Run(START, acts), act.answer, id);
    } else {
      NotAskedKeepsStatus(Run(START, acts), act, id);
    }
  }

  lemma ObservedStatus(s: Pool, answer: BlockAnswer, id: string)
    requires Inv(s) && id in s.db.blocks && s.phase.Syncing? && s.phase.blocks != [] && s.phase.blocks[0] == id
    ensures s.db.blocks[id].status == Pending && id in ExecObserve(s, answer).db.blocks
    ensures var b, after := s.db.blocks[id], ExecObserve(s, answer).db.blocks[id].status;
      && (after == Mature <==> answer.canonical && answer.tip >= b.maturity)
      && (after == Orphan <==> !answer.canonical && answer.tip >= b.height + 6)
  {
    assert IsPending(s.db.blocks, s.phase.blocks[0]);
  }

  lemma NotAskedKeepsStatus(s: Pool, act: Action, id: string)
    requires Inv(s) && id in s.db.blocks && !IsAnswer(s, act, id)
    ensures id in Exec(s, act).db.blocks && Exec(s, act).db.blocks[id].status == s.db.blocks[id].status
  {
    if !act.Observe? {
      OtherKeepsStatus(s, act, id);
    }
  }

  lemma OtherKeepsStatus(s: Pool, act: Action, id: string)
    requires Inv(s) && id in s.db.blocks && !act.Observe?
    ensures id in Exec(s, act).db.blocks && Exec(s, act).db.blocks[id].status == s.db.blocks[id].status
  {
    if act.Allocate? {
      AllocateKeepsRows(s, act.worker, id);
    } else if act.ObserveError? {
      ErrorKeepsStatus(s, act.failure, id);
    } else {
      OtherKeepsBlocks(s, act);
    }
  }

  lemma OtherKeepsBlocks(s: Pool, act: Action)
    requires Inv(s) && !(act.Allocate? || act.Observe? || act.ObserveError?)
    ensures Exec(s, act).db.blocks == s.db.blocks
  {
    match act {
      case PreparePayout(threshold, fee, maxOutputs, requestID, lost) =>
        assert s.db.lastPayout + 1 !in s.db.payouts;
        PrepareEvolves(s, threshold, fee, maxOutputs, requestID, lost);
      case Send(wallet, outcome, noted) => SendEvolves(s, wallet, outcome, noted);
      case Settle(stored) => SettleEvolves(s, stored);
      case _ => OtherStepEvolves(s, act);
    }
  }

  lemma ErrorKeepsStatus(s: Pool, failure: string, id: string)
    requires id in s.db.blocks
    ensures id in ExecObserveError(s, failure).db.blocks
    ensures ExecObserveError(s, failure).db.blocks[id].status == s.db.blocks[id].status
  {
  }

  /** The tables after one observation of a block, whatever its status. */
  ghost function Updated(db: Db, id: string, answer: BlockAnswer): Db
    requires id in db.blocks
  {
    db.(blocks := db.blocks[id :=
      Observed(db.blocks[id], answer.known, answer.canonical, answer.confirmations, answer.tip, "")])
  }

  /** The answers that leave a mature block mature. */
  predicate StaysMature(b: Block, answer: BlockAnswer) {
    if answer.canonical then answer.tip >= b.maturity else answer.known && answer.tip < b.height + 6
  }

  lemma CreditedAfterUpdate(db: Db, id: string, answer: BlockAnswer, a: string)
    requires id in db.blocks && db.blocks[id].status == Mature
    ensures Credited(Updated(db, id, answer).blocks, Mature, a) == Credited(db.blocks, Mature, a)
      - if StaysMature(db.blocks[id], answer) then 0 else Get(db.blocks[id].amounts, a)
  {
    BlockReplaced(db.blocks, id, Updated(db, id, answer).blocks[id], Mature, a);
  }

  lemma SoundAfterUpdate(db: Db, id: string, answer: BlockAnswer)
    requires Sound(db) && id in db.blocks
    ensures Sound(Updated(db, id, answer)) <==>
      forall a :: Reserved(db.payouts, a) <= Credited(Updated(db, id, answer).blocks, Mature, a)
  {
    assert BlockBalances(db.blocks[id]);
  }

  /**
    The state update does not protect a mature block by itself. In any tables
    it keeps the books sound exactly when the block stays mature, or when every
    balance still covers what the block has credited; otherwise some balance
    turns negative. This is why the controller must feed it only pending rows.
   */
  lemma {:induction false} UpdateOfMatureBlock(db: Db, id: string, answer: BlockAnswer)
    requires Sound(db) && id in db.blocks && db.blocks[id].status == Mature
    ensures Sound(Updated(db, id, answer)) <==>
      StaysMature(db.blocks[id], answer) || forall a :: Get(db.blocks[id].amounts, a) <= Balance(db, a)
  {
    SoundAfterUpdate(db, id, answer);
    forall a ensures Reserved(db.payouts, a) <= Credited(Updated(db, id, answer).blocks, Mature, a) <==>
      StaysMature(db.blocks[id], answer) || Get(db.blocks[id].amounts, a) <= Balance(db, a)
    {
      CreditedAfterUpdate(db, id, answer, a);
      BalanceOrder(db, a);
    }
  }

  /** A pool that matured one block and has paid all of it out. */
  ghost function PaidOut(b: Block): Db {
    NonNegativeTotal(b.amounts);
    Db([], 0, map["b" := b], map[1 := Payout("r", Total(b.amounts), 0, Confirmed, "t", "", b.amounts)], 1)
  }

  lemma PaidOutBalance(b: Block, a: string)
    requires b.status == Mature
    ensures Balance(PaidOut(b), a) == 0
  {
    var empty: map<string, Block>, none: map<nat, Payout> := map[], map[];
    PayoutAdded(none, 1, PaidOut(b).payouts[1], a);
    assert PaidOut(b).payouts == none[1 := PaidOut(b).payouts[1]];
    BlockAdded(empty, "b", b, Mature, a);
    assert map["b" := b] == empty["b" := b];
  }

  /** Such a pool is sound, and every answer that does not leave the block mature breaks it. */
  lemma PaidOutBlockIsExposed(b: Block, a: string, answer: BlockAnswer)
    requires b.status == Mature && BlockBalances(b) && Get(b.amounts, a) > 0
    ensures Sound(PaidOut(b))
    ensures Sound(Updated(PaidOut(b), "b", answer)) <==> StaysMature(b, answer)
  {
    forall c ensures Reserved(PaidOut(b).payouts, c) == Credited(PaidOut(b).blocks, Mature, c) {
      PaidOutBalance(b, c);
    }
    UpdateOfMatureBlock(PaidOut(b), "b", answer);
    PaidOutBalance(b, a);
  }

  // ----- The frozen window

  /** What a run does to the share table. */
  ghost function ShareTrace(s: Pool, acts: seq<Action>): seq<Change>
    decreases |acts|
  {
    if acts == [] then [] else StepTrace(s, acts[0]) + ShareTrace(Exec(s, acts[0]), acts[1..])
  }

  ghost function StepTrace(s: Pool, act: Action): seq<Change> {
    match act
    case RecordShare(height, address, work, hash) =>
      if Recordable(s.db.shares, height, address, work, hash)
      then [Record(Share(s.db.lastShare + 1, address, work, hash))] else []
    case Win(worker, address, work, found, _, _) =>
      if Recordable(s.db.shares, found.height, address, work, found.id) && worker !in s.workers
      then [Record(Share(s.db.lastShare + 1, address, work, found.id))] else []
    case PruneShares(retain) => if retain > 0 then [Prune(retain)] else []
    case _ => []
  }

  lemma StepTraceApplies(s: Pool, act: Action)
    ensures Exec(s, act).db.shares == Apply(s.db.shares, StepTrace(s, act))
    ensures var recorded := StepTrace(s, act) != [] && StepTrace(s, act)[0].Record?;
      Exec(s, act).db.lastShare == if recorded then s.db.lastShare + 1 else s.db.lastShare
  {
  }

  lemma RunTraceApplies(s: Pool, acts: seq<Action>)
    ensures Run(s, acts).db.shares == Apply(s.db.shares, ShareTrace(s, acts))
    ensures Fresh(s.db.lastShare, ShareTrace(s, acts))
    decreases |acts|
  {
    if acts != [] {
      var rest := ShareTrace(Exec(s, acts[0]), acts[1..]);
      StepTraceApplies(s, acts[0]);
      RunTraceApplies(Exec(s, acts[0]), acts[1..]);
      var step := StepTrace(s, acts[0]);
      if step == [] {
        assert step + rest == rest;
      } else {
        assert (step + rest)[1..] == rest;
      }
    }
  }

  /**
    The frozen allocation linearises at the winning share. Whatever other
    workers record and however the table is pruned before this worker's
    allocation runs, the block row is the one that an allocation at the moment
    of the win would have written, provided each prune retains the window and
    the work recorded since.
   */
  lemma {:induction false} AllocationFrozenAtWin(
      s: Pool, worker: nat, address: string, work: nat, found: Found, window: nat, bps: nat,
      won: Pool, acts: seq<Action>, later: Pool)
    requires Ascending(s.db.shares) && IdsUpTo(s.db.shares, s.db.lastShare)
    requires worker !in s.workers && Recordable(s.db.shares, found.height, address, work, found.id)
    requires found.reward > 0 && window > 0 && bps <= 10_000
    requires won == ExecWin(s, worker, address, work, found, window, bps)
    requires later == Run(won, acts) && Retains(0, window, ShareTrace(won, acts))
    requires worker in later.workers && later.workers[worker] == won.workers[worker] && found.id !in later.db.blocks
    ensures var units, after := multiset(Take(Units(won.db.shares), window)), ExecAllocate(later, worker);
      && units != multiset{} && found.id in after.db.blocks
      && after.db.blocks[found.id] == Frozen(units, found, window, bps)
  {
    var winner := Share(s.db.lastShare + 1, address, work, found.id);
    WinnerRecorded(s, worker, address, work, found, window, bps);
    WindowAtAllocation(s.db.shares, winner, window, won, acts);
    AllocateUnits(later, worker, found, winner.id, window, bps, multiset(Take(Units(won.db.shares), window)));
  }

  lemma WinnerRecorded(s: Pool, worker: nat, address: string, work: nat, found: Found, window: nat, bps: nat)
    requires Ascending(s.db.shares) && IdsUpTo(s.db.shares, s.db.lastShare)
    requires worker !in s.workers && Recordable(s.db.shares, found.height, address, work, found.id)
    ensures
      var won := ExecWin(s, worker, address, work, found, window, bps);
      var winner := Share(s.db.lastShare + 1, address, work, found.id);
      && won.db.shares == s.db.shares + [winner] && won.db.lastShare == winner.id && Ascending(won.db.shares)
      && worker in won.workers && won.workers[worker] == Won(found.(cutoff := winner.id), window, bps)
  {
  }

  lemma WindowAtAllocation(before: seq<Share>, winner: Share, window: nat, won: Pool, acts: seq<Action>)
    requires won.db.shares == before + [winner] && Ascending(before + [winner]) && won.db.lastShare == winner.id
    requires Retains(0, window, ShareTrace(won, acts)) && window > 0
    ensures Window(Run(won, acts).db.shares, winner.id, window)
      == multiset(Take(Units(won.db.shares), window)) != multiset{}
  {
    assert winner == (before + [winner])[|before|];
    RunTraceApplies(won, acts);
    WindowFrozenAtWinner(before, winner, window, ShareTrace(won, acts));
    WinnerInUnits(before, winner, window);
  }

  lemma AllocateUnits(s: Pool, worker: nat, found: Found, cutoff: nat, window: nat, bps: nat, units: multiset<string>)
    requires worker in s.workers && s.workers[worker] == Won(found.(cutoff := cutoff), window, bps)
    requires found.id !in s.db.blocks
    requires ValidFound(found.(cutoff := cutoff), window, bps) && units != multiset{}
    requires Window(s.db.shares, cutoff, window) == units
    ensures found.id in ExecAllocate(s, worker).db.blocks
    ensures ExecAllocate(s, worker).db.blocks[found.id] == Frozen(units, found, window, bps)
  {
    assert Allocatable(s.db, found.(cutoff := cutoff), window, bps);
  }
}
