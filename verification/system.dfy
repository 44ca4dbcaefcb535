// The whole pool as a transition system: Stratum workers that record, allocate
// and submit, the controller that matures blocks and retries payouts, the node
// that executes a payout request at most once, and crashes between any two
// steps (internal/stratum/server.go, internal/pool/controller.go).

module PoolSystem {
  import opened Sums
  import opened Apportionment
  import opened ShareWindow
  import opened Ledger

  datatype BlockAnswer = BlockAnswer(known: bool, canonical: bool, confirmations: nat, tip: nat)

  /** How one call to the node's payout endpoint ends. */
  datatype Outcome =
    | Refused(message: string)                            // not executed, error reply
    | Lost(message: string)                               // executed, reply lost
    | Replied(transaction: string, confirmed: bool)       // executed, reply received

  /** The wallet as the node's status describes it when a payout is sent. */
  datatype Wallet = Wallet(address: string, unit: string)

  /** A payout call: the contents of the row, sent from the wallet of the moment. */
  datatype Call = Call(request: Request, wallet: Wallet)

  /** Where the controller goroutine stands. */
  datatype Phase =
    | Idle
    | Syncing(blocks: seq<string>)
    | NoneActive
    | Paying(batches: seq<Batch>)
    | Answered(batch: Batch, transaction: string, confirmed: bool, rest: seq<Batch>)

  /** Where a worker holding a winning share stands. */
  datatype Stage =
    | Won(found: Found, window: nat, bps: nat)
    | Committed(found: Found)

  /** The database and the node's requests survive a crash; workers and phase do not. */
  datatype Pool = Pool(
    db: Db,
    workers: map<nat, Stage>,
    submitted: map<string, nat>,
    phase: Phase,
    executed: map<string, Call>)

  const CONFLICT := "request id was used for other contents"

  const START := Pool(EMPTY_DB, map[], map[], Idle, map[])

  datatype Action =
    | RecordShare(height: nat, address: string, work: nat, hash: string)
    | PruneShares(retain: nat)
    | Win(worker: nat, address: string, work: nat, found: Found, window: nat, bps: nat)   // found.id is the hash
    | Allocate(worker: nat)
    | Submit(worker: nat)
    | Abandon(worker: nat)                      // the worker gives up after an error
    | BeginSync(page: seq<string>)
    | Observe(answer: BlockAnswer)
    | ObserveError(failure: string)
    | Skip                                      // an answer whose write fails
    | BeginPayouts
    | PreparePayout(threshold: nat, payoutFee: nat, maxOutputs: nat, requestID: string, lost: bool)
    | Send(wallet: Wallet, outcome: Outcome, noted: bool)
    | Settle(stored: bool)
    | Crash

  function SyncingOn(blocks: seq<string>): Phase {
    if blocks == [] then Idle else Syncing(blocks)
  }

  function PayingOn(batches: seq<Batch>): Phase {
    if batches == [] then Idle else Paying(batches)
  }

  /** Retrying identical contents is accepted, other contents under the same id are not. */
  predicate Accepts(executed: map<string, Call>, call: Call) {
    call.request.requestID in executed ==> executed[call.request.requestID] == call
  }

  ghost function ExecWin(s: Pool, worker: nat, address: string, work: nat, found: Found, window: nat, bps: nat): Pool {
    if Recordable(s.db.shares, found.height, address, work, found.id) && worker !in s.workers then
      s.(db := Recorded(s.db, address, work, found.id),
         workers := s.workers[worker := Won(found.(cutoff := s.db.lastShare + 1), window, bps)])
    else s
  }

  ghost function ExecAllocate(s: Pool, worker: nat): Pool {
    if worker in s.workers && s.workers[worker].Won? then
      var w := s.workers[worker];
      s.(db := Allocated(s.db, w.found, w.window, w.bps),
         workers :=
           if Allocatable(s.db, w.found, w.window, w.bps) then s.workers[worker := Committed(w.found)]
           else s.workers - {worker})
    else s
  }

  ghost function ExecSubmit(s: Pool, worker: nat): Pool {
    if worker in s.workers && s.workers[worker].Committed? then
      var found := s.workers[worker].found;
      s.(submitted := s.submitted[found.id := found.reward], workers := s.workers - {worker})
    else s
  }

  ghost function ExecObserve(s: Pool, answer: BlockAnswer): Pool {
    if s.phase.Syncing? && s.phase.blocks != [] && s.phase.blocks[0] in s.db.blocks then
      var id := s.phase.blocks[0];
      var b := Observed(s.db.blocks[id], answer.known, answer.canonical, answer.confirmations, answer.tip, "");
      s.(db := s.db.(blocks := s.db.blocks[id := b]), phase := SyncingOn(s.phase.blocks[1..]))
    else s
  }

  ghost function ExecObserveError(s: Pool, failure: string): Pool {
    if s.phase.Syncing? && s.phase.blocks != [] then
      s.(db := s.db.(blocks := BlockFailed(s.db.blocks, s.phase.blocks[0], failure)),
         phase := SyncingOn(s.phase.blocks[1..]))
    else s
  }

  ghost function ExecBeginPayouts(s: Pool): Pool {
    if s.phase.Idle? then
      var batches := FirstActive(s.db, PASS_LIMIT);
      s.(phase := if batches == [] then NoneActive else Paying(batches))
    else s
  }

  /** A new payout row is committed; the controller may not learn of it. */
  ghost function Reserve(s: Pool, p: Payout, lost: bool): Pool {
    s.(db := AddPayout(s.db, p), phase := if lost then Idle else Paying([Batch(s.db.lastPayout + 1, RequestOf(p))]))
  }

  ghost function ExecPrepare(s: Pool, threshold: nat, fee: nat, maxOutputs: nat, requestID: string, lost: bool): Pool {
    if s.phase.NoneActive? then
      if Preparable(s.db, threshold, maxOutputs, requestID) then
        Reserve(s, NewPayout(s.db, threshold, fee, maxOutputs, requestID), lost)
      else s.(phase := Idle)
    else s
  }

  /** `noted` is whether a failure is written to the payout row. */
  ghost function ExecSend(s: Pool, wallet: Wallet, outcome: Outcome, noted: bool): Pool {
    if s.phase.Paying? && s.phase.batches != [] then
      var batch, rest := s.phase.batches[0], s.phase.batches[1..];
      var call := Call(batch.request, wallet);
      var runs := !outcome.Refused? && Accepts(s.executed, call);
      var executed := if runs then s.executed[batch.request.requestID := call] else s.executed;
      if runs && outcome.Replied? then
        s.(executed := executed, phase := Answered(batch, outcome.transaction, outcome.confirmed, rest))
      else
        var message := if outcome.Replied? then CONFLICT else outcome.message;
        s.(executed := executed,
           db := if noted then s.db.(payouts := PayoutFailed(s.db.payouts, batch.id, message)) else s.db,
           phase := PayingOn(rest))
    else s
  }

  ghost function ExecSettle(s: Pool, stored: bool): Pool {
    if s.phase.Answered? then
      var status := if s.phase.confirmed then Confirmed else Submitted;
      var settled := Settled(s.db.payouts, s.phase.batch.id, s.phase.transaction, status);
      s.(db := if stored then s.db.(payouts := settled) else s.db,
         phase := PayingOn(s.phase.rest))
    else s
  }

  /** One step. An action that the present state does not allow does nothing. */
  ghost function Exec(s: Pool, act: Action): Pool {
    match act
    case RecordShare(height, address, work, hash) =>
      if Recordable(s.db.shares, height, address, work, hash) then s.(db := Recorded(s.db, address, work, hash)) else s
    case PruneShares(retain) =>
      if retain > 0 then s.(db := s.db.(shares := Pruned(s.db.shares, retain))) else s
    case Win(worker, address, work, found, window, bps) => ExecWin(s, worker, address, work, found, window, bps)
    case Allocate(worker) => ExecAllocate(s, worker)
    case Submit(worker) => ExecSubmit(s, worker)
    case Abandon(worker) => s.(workers := s.workers - {worker})
    case BeginSync(page) =>
      if s.phase.Idle? && IsPendingPage(s.db.blocks, page, 1000) then s.(phase := SyncingOn(page)) else s
    case Observe(answer) => ExecObserve(s, answer)
    case ObserveError(failure) => ExecObserveError(s, failure)
    case Skip => if s.phase.Syncing? && s.phase.blocks != [] then s.(phase := SyncingOn(s.phase.blocks[1..])) else s
    case BeginPayouts => ExecBeginPayouts(s)
    case PreparePayout(threshold, fee, maxOutputs, requestID, lost) =>
      ExecPrepare(s, threshold, fee, maxOutputs, requestID, lost)
    case Send(wallet, outcome, noted) => ExecSend(s, wallet, outcome, noted)
    case Settle(stored) => ExecSettle(s, stored)
    case Crash => s.(workers := map[], phase := Idle)
  }

  ghost function Run(s: Pool, acts: seq<Action>): Pool
    decreases |acts|
  {
    if acts == [] then s else Run(Exec(s, acts[0]), acts[1..])
  }

  lemma RunCons(s: Pool, acts: seq<Action>)
    requires acts != []
    ensures Run(s, acts) == Run(Exec(s, acts[0]), acts[1..])
  {
  }

  lemma {:induction false} RunConcat(s: Pool, first: seq<Action>, second: seq<Action>)
    ensures Run(s, first + second) == Run(Run(s, first), second)
    decreases |first|
  {
    if first == [] {
      assert first + second == second;
    } else {
      RunCons(s, first);
      RunCons(s, first + second);
      assert (first + second)[1..] == first[1..] + second;
      RunConcat(Exec(s, first[0]), first[1..], second);
    }
  }

  lemma RunOne(s: Pool, act: Action)
    ensures Run(s, [act]) == Exec(s, act)
  {
    assert Run(s, [act]) == Run(Exec(s, act), [act][1..]);
  }

  lemma RunAppend(s: Pool, acts: seq<Action>, act: Action)
    ensures Run(s, acts + [act]) == Exec(Run(s, acts), act)
  {
    RunConcat(s, acts, [act]);
    assert Run(Run(s, acts), [act]) == Run(Exec(Run(s, acts), act), []);
  }

  /** A property that every allowed step keeps is kept by every run of allowed steps. */
  lemma {:induction false} RunKeeps(s: Pool, acts: seq<Action>, kept: Pool -> bool, permitted: Action -> bool)
    requires kept(s) && forall i :: 0 <= i < |acts| ==> permitted(acts[i])
    requires forall t: Pool, act: Action :: kept(t) && permitted(act) ==> kept(Exec(t, act))
    ensures kept(Run(s, acts))
    decreases |acts|
  {
    if acts != [] {
      assert permitted(acts[0]);
      RunKeeps(Exec(s, acts[0]), acts[1..], kept, permitted);
    }
  }

  lemma RunThree(s: Pool, a: Action, b: Action, c: Action)
    ensures Run(s, [a, b, c]) == Exec(Exec(Exec(s, a), b), c)
  {
    RunOne(s, a);
    RunAppend(s, [a], b);
    RunAppend(s, [a] + [b], c);
    assert [a] + [b] + [c] == [a, b, c];
  }

  lemma RunTwo(s: Pool, a: Action, b: Action)
    ensures Run(s, [a, b]) == Exec(Exec(s, a), b)
  {
    RunOne(s, a);
    RunAppend(s, [a], b);
    assert [a] + [b] == [a, b];
  }

  // ----- A whole payout pass

  /** How many active payouts one pass takes up. */
  const PASS_LIMIT: nat := 10

  ghost function PassStart(threshold: nat, fee: nat, maxOutputs: nat, requestID: string): seq<Action> {
    [BeginPayouts, PreparePayout(threshold, fee, maxOutputs, requestID, false)]
  }

  /** The first n calls of a pass, each with the writing of its reply. */
  ghost function Sends(wallet: Wallet, outcomes: nat -> Outcome, stores: nat -> bool, n: nat): seq<Action> {
    if n == 0 then []
    else Sends(wallet, outcomes, stores, n - 1) + [Send(wallet, outcomes(n - 1), stores(n - 1)), Settle(stores(n - 1))]
  }

  /** The steps of a pass. Those that the phase has no use for do nothing. */
  ghost function PayoutPass(
      wallet: Wallet, threshold: nat, fee: nat, maxOutputs: nat, requestID: string,
      outcomes: nat -> Outcome, stores: nat -> bool): seq<Action>
  {
    PassStart(threshold, fee, maxOutputs, requestID) + Sends(wallet, outcomes, stores, PASS_LIMIT)
  }

  lemma PassRuns(
      s: Pool, wallet: Wallet, threshold: nat, fee: nat, maxOutputs: nat, requestID: string,
      outcomes: nat -> Outcome, stores: nat -> bool)
    ensures Run(s, PayoutPass(wallet, threshold, fee, maxOutputs, requestID, outcomes, stores))
      == Run(Run(s, PassStart(threshold, fee, maxOutputs, requestID)), Sends(wallet, outcomes, stores, PASS_LIMIT))
  {
    RunConcat(s, PassStart(threshold, fee, maxOutputs, requestID), Sends(wallet, outcomes, stores, PASS_LIMIT));
  }

  lemma SendsNext(s: Pool, wallet: Wallet, outcomes: nat -> Outcome, stores: nat -> bool, n: nat)
    ensures Run(s, Sends(wallet, outcomes, stores, n + 1))
      == Run(Run(s, Sends(wallet, outcomes, stores, n)), [Send(wallet, outcomes(n), stores(n)), Settle(stores(n))])
  {
    RunConcat(s, Sends(wallet, outcomes, stores, n), [Send(wallet, outcomes(n), stores(n)), Settle(stores(n))]);
  }

  /** One call more, if it leads from here to there. */
  lemma SendsReach(
      s: Pool, here: Pool, there: Pool, wallet: Wallet, outcomes: nat -> Outcome, stores: nat -> bool, n: nat)
    requires Run(s, Sends(wallet, outcomes, stores, n)) == here
    requires Run(here, [Send(wallet, outcomes(n), stores(n)), Settle(stores(n))]) == there
    ensures Run(s, Sends(wallet, outcomes, stores, n + 1)) == there
  {
    SendsNext(s, wallet, outcomes, stores, n);
  }

  lemma IdleIgnoresSend(s: Pool, wallet: Wallet, outcome: Outcome, stored: bool)
    requires s.phase.Idle?
    ensures Run(s, [Send(wallet, outcome, stored), Settle(stored)]) == s
  {
    RunTwo(s, Send(wallet, outcome, stored), Settle(stored));
  }

  /** Once the controller is idle, the remaining calls of a pass do nothing. */
  lemma {:induction false} SendsPadded(s: Pool, wallet: Wallet, outcomes: nat -> Outcome, stores: nat -> bool, n: nat)
    requires n <= PASS_LIMIT && Run(s, Sends(wallet, outcomes, stores, n)).phase.Idle?
    ensures Run(s, Sends(wallet, outcomes, stores, PASS_LIMIT)) == Run(s, Sends(wallet, outcomes, stores, n))
    decreases PASS_LIMIT - n
  {
    if n < PASS_LIMIT {
      SendsNext(s, wallet, outcomes, stores, n);
      IdleIgnoresSend(Run(s, Sends(wallet, outcomes, stores, n)), wallet, outcomes(n), stores(n));
      SendsPadded(s, wallet, outcomes, stores, n + 1);
    }
  }

  lemma StartWithActive(s: Pool, threshold: nat, fee: nat, maxOutputs: nat, requestID: string)
    requires s.phase.Idle? && FirstActive(s.db, PASS_LIMIT) != []
    ensures Run(s, PassStart(threshold, fee, maxOutputs, requestID))
      == s.(phase := PayingOn(FirstActive(s.db, PASS_LIMIT)))
  {
    RunTwo(s, BeginPayouts, PreparePayout(threshold, fee, maxOutputs, requestID, false));
  }

  /** What preparing a payout does to an idle controller that has just found none active. */
  lemma PreparedBatch(s: Pool, threshold: nat, fee: nat, maxOutputs: nat, requestID: string)
    requires s.phase.Idle? && FirstActive(s.db, PASS_LIMIT) == []
    ensures var t := ExecPrepare(ExecBeginPayouts(s), threshold, fee, maxOutputs, requestID, false);
      t == if Preparable(s.db, threshold, maxOutputs, requestID)
           then Reserve(s, NewPayout(s.db, threshold, fee, maxOutputs, requestID), false) else s
  {
    var none := ExecBeginPayouts(s);
    assert none == s.(phase := NoneActive);
    assert none.db == s.db;
    forall p: Payout ensures Reserve(none, p, false) == Reserve(s, p, false) {
    }
  }

  // ----- The invariant

  ghost predicate Matches(payouts: map<nat, Payout>, batch: Batch) {
    batch.id in payouts && RequestOf(payouts[batch.id]) == batch.request
  }

  ghost predicate AllMatch(payouts: map<nat, Payout>, batches: seq<Batch>) {
    forall i :: 0 <= i < |batches| ==> Matches(payouts, batches[i])
  }

  /** The blocks still to be observed are pending and listed once. */
  ghost predicate AllPending(blocks: map<string, Block>, queue: seq<string>) {
    && (forall i :: 0 <= i < |queue| ==> IsPending(blocks, queue[i]))
    && (forall i, j :: 0 <= i < j < |queue| ==> queue[i] != queue[j])
  }

  ghost predicate PhaseSound(db: Db, phase: Phase) {
    match phase
    case Idle => true
    case Syncing(queue) => AllPending(db.blocks, queue)
    case NoneActive => forall p :: !IsActive(db.payouts, p)
    case Paying(batches) => AllMatch(db.payouts, batches)
    case Answered(batch, _, _, rest) => Matches(db.payouts, batch) && AllMatch(db.payouts, rest)
  }

  ghost predicate OneActive(payouts: map<nat, Payout>) {
    forall p, q :: IsActive(payouts, p) && IsActive(payouts, q) ==> p == q
  }

  /** Every executed request is one payout row, to the atom. */
  ghost predicate ExecutedSound(payouts: map<nat, Payout>, executed: map<string, Call>) {
    forall r :: r in executed ==> executed[r].request.requestID == r && HasRow(payouts, executed[r].request)
  }

  ghost predicate HasRow(payouts: map<nat, Payout>, request: Request) {
    exists p :: p in payouts && RequestOf(payouts[p]) == request
  }

  ghost predicate Allotted(blocks: map<string, Block>, id: string, reward: nat) {
    id in blocks && blocks[id].reward == reward
  }

  ghost predicate SubmissionsSound(s: Pool) {
    && (forall id :: id in s.submitted ==> Allotted(s.db.blocks, id, s.submitted[id]))
    && (forall w :: w in s.workers && s.workers[w].Committed? ==>
      Allotted(s.db.blocks, s.workers[w].found.id, s.workers[w].found.reward))
  }

  ghost predicate Inv(s: Pool) {
    && Sound(s.db)
    && PhaseSound(s.db, s.phase)
    && OneActive(s.db.payouts)
    && ExecutedSound(s.db.payouts, s.executed)
    && SubmissionsSound(s)
  }

  // ----- Each kind of step keeps it

  lemma RecordKeepsSound(db: Db, height: nat, address: string, work: nat, hash: string)
    requires Sound(db) && Recordable(db.shares, height, address, work, hash)
    ensures Sound(Recorded(db, address, work, hash))
  {
  }

  lemma PruneKeepsSound(db: Db, retain: nat)
    requires Sound(db)
    ensures Sound(db.(shares := Pruned(db.shares, retain)))
  {
    PrunedIsSuffix(db.shares, retain);
  }

  lemma AllocateKeepsSound(db: Db, found: Found, window: nat, bps: nat)
    requires Sound(db) && Allocatable(db, found, window, bps)
    ensures Sound(Allocated(db, found, window, bps))
  {
    var units := Window(db.shares, found.cutoff, window);
    FrozenBalances(units, found, window, bps);
    PendingAddedKeepsSound(db, found.id, Frozen(units, found, window, bps));
  }

  lemma PendingAddedKeepsSound(db: Db, id: string, b: Block)
    requires Sound(db) && id !in db.blocks && b.status == Pending && BlockBalances(b)
    ensures Sound(db.(blocks := db.blocks[id := b]))
  {
    forall a ensures Credited(db.blocks[id := b], Mature, a) == Credited(db.blocks, Mature, a) {
      BlockAdded(db.blocks, id, b, Mature, a);
    }
  }

  /** A pending block may move to any state: what has matured can only grow. */
  lemma ReplacePendingKeepsSound(db: Db, id: string, b: Block)
    requires Sound(db) && IsPending(db.blocks, id)
    requires b.amounts == db.blocks[id].amounts && b.reward == db.blocks[id].reward
    requires b.poolFee == db.blocks[id].poolFee
    ensures Sound(db.(blocks := db.blocks[id := b]))
  {
    assert BlockBalances(db.blocks[id]);
    forall a ensures Credited(db.blocks[id := b], Mature, a) >= Credited(db.blocks, Mature, a) {
      BlockReplaced(db.blocks, id, b, Mature, a);
    }
  }

  /** A batch never takes more than the balances it was computed from. */
  lemma NewPayoutShape(db: Db, threshold: nat, fee: nat, maxOutputs: nat, requestID: string)
    requires Sound(db)
    ensures var p := NewPayout(db, threshold, fee, maxOutputs, requestID);
      p.requestID == requestID && p.amount == Total(p.items) && WithinBalances(db, p)
  {
    forall a ensures Get(NewPayout(db, threshold, fee, maxOutputs, requestID).items, a) <= Balance(db, a) {
      BalanceOrder(db, a);
    }
  }

  ghost predicate WithinBalances(db: Db, p: Payout) {
    forall a :: Get(p.items, a) <= Balance(db, a)
  }

  lemma AddPayoutCovers(db: Db, p: Payout, a: string)
    requires db.lastPayout + 1 !in db.payouts && Get(p.items, a) <= Balance(db, a)
    ensures Reserved(AddPayout(db, p).payouts, a) <= Credited(db.blocks, Mature, a)
  {
    PayoutAdded(db.payouts, db.lastPayout + 1, p, a);
  }

  lemma AddPayoutKeepsCovered(db: Db, p: Payout)
    requires RowsAddUp(db.payouts, db.lastPayout) && WithinBalances(db, p)
    ensures Covered(db.blocks, AddPayout(db, p).payouts)
  {
    assert db.lastPayout + 1 !in db.payouts;
    forall a ensures Reserved(AddPayout(db, p).payouts, a) <= Credited(db.blocks, Mature, a) {
      assert Get(p.items, a) <= Balance(db, a);
      AddPayoutCovers(db, p, a);
    }
  }

  lemma AddPayoutKeepsRows(db: Db, p: Payout)
    requires RowsAddUp(db.payouts, db.lastPayout) && RequestsUnique(db.payouts)
    requires p.amount == Total(p.items) && !RequestUsed(db.payouts, p.requestID)
    ensures var after := AddPayout(db, p);
      RowsAddUp(after.payouts, after.lastPayout) && RequestsUnique(after.payouts)
  {
  }

  lemma AddPayoutKeepsSound(db: Db, p: Payout)
    requires Sound(db) && p.amount == Total(p.items) && !RequestUsed(db.payouts, p.requestID) && WithinBalances(db, p)
    ensures Sound(AddPayout(db, p))
  {
    AddPayoutKeepsCovered(db, p);
    AddPayoutKeepsRows(db, p);
    NewRowSound(db, AddPayout(db, p));
  }

  /** Tables that differ only in their payouts are sound when these are. */
  lemma NewRowSound(before: Db, after: Db)
    requires Sound(before) && after == before.(payouts := after.payouts, lastPayout := after.lastPayout)
    requires RowsAddUp(after.payouts, after.lastPayout) && RequestsUnique(after.payouts)
    requires Covered(before.blocks, after.payouts)
    ensures Sound(after)
  {
  }

  /** Same rows with the same contents; none becomes active. */
  ghost predicate SameContents(before: map<nat, Payout>, after: map<nat, Payout>) {
    before.Keys == after.Keys && forall p :: p in before ==>
      && after[p].amount == before[p].amount && RequestOf(after[p]) == RequestOf(before[p])
      && (after[p].Active() ==> before[p].Active())
  }

  lemma FailedAndSettledKeepContents(payouts: map<nat, Payout>, id: nat, text: string, status: PayoutStatus)
    ensures SameContents(payouts, PayoutFailed(payouts, id, text))
    ensures SameContents(payouts, Settled(payouts, id, text, status))
  {
  }

  lemma SameRow(before: map<nat, Payout>, after: map<nat, Payout>, p: nat)
    requires SameContents(before, after) && p in after
    ensures p in before && after[p].items == before[p].items
    ensures after[p].requestID == before[p].requestID && after[p].amount == before[p].amount
  {
    assert RequestOf(after[p]) == RequestOf(before[p]);
  }

  lemma SameReserved(before: map<nat, Payout>, after: map<nat, Payout>, a: string)
    requires SameContents(before, after)
    ensures Reserved(after, a) == Reserved(before, a)
  {
    forall p | p in after.Keys ensures ReservedTerm(after, a)(p) == ReservedTerm(before, a)(p) {
      SameRow(before, after, p);
    }
    SumCongruent(after.Keys, ReservedTerm(after, a), ReservedTerm(before, a));
  }

  lemma SameContentsKeepsAmounts(before: map<nat, Payout>, after: map<nat, Payout>, last: nat)
    requires SameContents(before, after) && RowsAddUp(before, last)
    ensures RowsAddUp(after, last)
  {
    forall p | p in after ensures 1 <= p <= last && after[p].amount == Total(after[p].items) {
      SameRow(before, after, p);
    }
  }

  lemma SameContentsKeepsUnique(before: map<nat, Payout>, after: map<nat, Payout>)
    requires SameContents(before, after) && RequestsUnique(before)
    ensures RequestsUnique(after)
  {
    forall p, q | p in after && q in after && after[p].requestID == after[q].requestID ensures p == q {
      SameRow(before, after, p);
      SameRow(before, after, q);
    }
  }

  lemma SameContentsKeepsCovered(blocks: map<string, Block>, before: map<nat, Payout>, after: map<nat, Payout>)
    requires SameContents(before, after) && Covered(blocks, before)
    ensures Covered(blocks, after)
  {
    forall a ensures Reserved(after, a) <= Credited(blocks, Mature, a) {
      SameReserved(before, after, a);
    }
  }

  lemma SameContentsKeepsSound(db: Db, after: map<nat, Payout>)
    requires Sound(db) && SameContents(db.payouts, after)
    ensures Sound(db.(payouts := after))
  {
    SameContentsKeepsAmounts(db.payouts, after, db.lastPayout);
    SameContentsKeepsUnique(db.payouts, after);
    SameContentsKeepsCovered(db.blocks, db.payouts, after);
  }

  lemma SameContentsKeepsRest(
      before: map<nat, Payout>, after: map<nat, Payout>, batches: seq<Batch>, executed: map<string, Call>)
    requires SameContents(before, after)
    ensures OneActive(before) ==> OneActive(after)
    ensures AllMatch(before, batches) ==> AllMatch(after, batches)
    ensures ExecutedSound(before, executed) ==> ExecutedSound(after, executed)
  {
    forall p | IsActive(after, p) ensures IsActive(before, p) {
    }
    if ExecutedSound(before, executed) {
      forall r | r in executed ensures HasRow(after, executed[r].request) {
        assert HasRow(before, executed[r].request);
        var p :| p in before && RequestOf(before[p]) == executed[r].request;
        assert p in after && RequestOf(after[p]) == executed[r].request;
      }
    }
  }

  predicate PayoutAction(act: Action) {
    act.BeginPayouts? || act.PreparePayout? || act.Send? || act.Settle?
  }

  lemma PayoutStepKeepsInv(s: Pool, act: Action)
    requires Inv(s) && PayoutAction(act)
    ensures Inv(Exec(s, act))
  {
    match act {
      case BeginPayouts => BeginPayoutsKeepsInv(s);
      case PreparePayout(threshold, fee, maxOutputs, requestID, lost) =>
        PrepareKeepsInv(s, threshold, fee, maxOutputs, requestID, lost);
      case Send(wallet, outcome, noted) => SendKeepsInv(s, wallet, outcome, noted);
      case Settle(stored) => SettleKeepsInv(s, stored);
    }
  }

  predicate WorkerAction(act: Action) {
    act.RecordShare? || act.PruneShares? || act.Win? || act.Allocate? || act.Submit? || act.Abandon?
  }

  lemma WorkerStepKeepsInv(s: Pool, act: Action)
    requires Inv(s) && WorkerAction(act)
    ensures Inv(Exec(s, act))
  {
    match act {
      case RecordShare(height, address, work, hash) => RecordKeepsInv(s, height, address, work, hash);
      case PruneShares(retain) => PruneKeepsSound(s.db, retain);
      case Win(worker, address, work, found, window, bps) => WinKeepsInv(s, worker, address, work, found, window, bps);
      case Allocate(worker) => AllocateKeepsInv(s, worker);
      case Submit(worker) => SubmitKeepsInv(s, worker);
      case Abandon(worker) => WorkerDroppedKeepsInv(s, worker);
    }
  }

  /** Every step keeps the invariant, whatever is lost, refused or crashed. */
  lemma {:induction false} StepKeepsInv(s: Pool, act: Action)
    requires Inv(s)
    ensures Inv(Exec(s, act))
  {
    if WorkerAction(act) {
      WorkerStepKeepsInv(s, act);
    } else if PayoutAction(act) {
      PayoutStepKeepsInv(s, act);
    } else if act.Observe? {
      ObserveKeepsInv(s, act.answer);
    } else if act.ObserveError? {
      ObserveErrorKeepsInv(s, act.failure);
    } else {
      ControlKeepsInv(s, act);
    }
  }

  lemma BeginSyncKeepsInv(s: Pool, page: seq<string>)
    requires Inv(s)
    ensures Inv(Exec(s, BeginSync(page)))
  {
  }

  lemma SkipKeepsInv(s: Pool)
    requires Inv(s)
    ensures Inv(Exec(s, Skip))
  {
  }

  lemma CrashKeepsInv(s: Pool)
    requires Inv(s)
    ensures Inv(Exec(s, Crash))
  {
  }

  lemma ControlKeepsInv(s: Pool, act: Action)
    requires Inv(s) && (act.BeginSync? || act.Skip? || act.Crash?)
    ensures Inv(Exec(s, act))
  {
    match act {
      case BeginSync(page) => BeginSyncKeepsInv(s, page);
      case Skip => SkipKeepsInv(s);
      case Crash => CrashKeepsInv(s);
    }
  }

  lemma RecordKeepsInv(s: Pool, height: nat, address: string, work: nat, hash: string)
    requires Inv(s)
    ensures Recordable(s.db.shares, height, address, work, hash) ==> Inv(s.(db := Recorded(s.db, address, work, hash)))
  {
    if Recordable(s.db.shares, height, address, work, hash) {
      RecordKeepsSound(s.db, height, address, work, hash);
    }
  }

  lemma WinKeepsInv(s: Pool, worker: nat, address: string, work: nat, found: Found, window: nat, bps: nat)
    requires Inv(s)
    ensures Inv(ExecWin(s, worker, address, work, found, window, bps))
  {
    RecordKeepsInv(s, found.height, address, work, found.id);
  }

  lemma SubmitKeepsInv(s: Pool, worker: nat)
    requires Inv(s)
    ensures Inv(ExecSubmit(s, worker))
  {
  }

  lemma AllocateKeepsInv(s: Pool, worker: nat)
    requires Inv(s)
    ensures Inv(ExecAllocate(s, worker))
  {
    if worker in s.workers && s.workers[worker].Won? {
      var w := s.workers[worker];
      if Allocatable(s.db, w.found, w.window, w.bps) {
        var b := Frozen(Window(s.db.shares, w.found.cutoff, w.window), w.found, w.window, w.bps);
        AllocateKeepsSound(s.db, w.found, w.window, w.bps);
        BlockAddedKeepsInv(s, worker, w.found, b);
      } else {
        WorkerDroppedKeepsInv(s, worker);
      }
    }
  }

  lemma WorkerDroppedKeepsInv(s: Pool, worker: nat)
    requires Inv(s)
    ensures Inv(s.(workers := s.workers - {worker}))
  {
  }

  lemma BlockAddedKeepsInv(s: Pool, worker: nat, found: Found, b: Block)
    requires Inv(s) && found.id !in s.db.blocks && b.reward == found.reward
    requires Sound(s.db.(blocks := s.db.blocks[found.id := b]))
    ensures Inv(s.(db := s.db.(blocks := s.db.blocks[found.id := b]), workers := s.workers[worker := Committed(found)]))
  {
    BlockAddedKeepsRest(s, found.id, b);
  }

  lemma BlockAddedKeepsRest(s: Pool, id: string, b: Block)
    requires PhaseSound(s.db, s.phase) && SubmissionsSound(s) && id !in s.db.blocks
    ensures PhaseSound(s.db.(blocks := s.db.blocks[id := b]), s.phase)
    ensures SubmissionsSound(s.(db := s.db.(blocks := s.db.blocks[id := b])))
  {
  }

  lemma BlockReplacedKeepsRest(s: Pool, b: Block)
    requires SubmissionsSound(s) && s.phase.Syncing? && s.phase.blocks != [] && PhaseSound(s.db, s.phase)
    requires b.reward == s.db.blocks[s.phase.blocks[0]].reward
    ensures PhaseSound(s.db.(blocks := s.db.blocks[s.phase.blocks[0] := b]), SyncingOn(s.phase.blocks[1..]))
    ensures SubmissionsSound(
      s.(db := s.db.(blocks := s.db.blocks[s.phase.blocks[0] := b]), phase := SyncingOn(s.phase.blocks[1..])))
  {
  }

  lemma ObserveKeepsInv(s: Pool, answer: BlockAnswer)
    requires Inv(s)
    ensures Inv(ExecObserve(s, answer))
  {
    if s.phase.Syncing? && s.phase.blocks != [] {
      var id := s.phase.blocks[0];
      assert IsPending(s.db.blocks, id);
      var b := Observed(s.db.blocks[id], answer.known, answer.canonical, answer.confirmations, answer.tip, "");
      ReplacePendingKeepsSound(s.db, id, b);
      BlockReplacedKeepsRest(s, b);
    }
  }

  lemma ObserveErrorKeepsInv(s: Pool, failure: string)
    requires Inv(s)
    ensures Inv(ExecObserveError(s, failure))
  {
    if s.phase.Syncing? && s.phase.blocks != [] {
      var id := s.phase.blocks[0];
      assert IsPending(s.db.blocks, id);
      var b := s.db.blocks[id].(lastError := Clip(failure));
      ReplacePendingKeepsSound(s.db, id, b);
      BlockReplacedKeepsRest(s, b);
    }
  }

  lemma BeginPayoutsKeepsInv(s: Pool)
    requires Inv(s)
    ensures Inv(ExecBeginPayouts(s))
  {
    FirstActiveSound(s.db);
  }

  lemma FirstActiveSound(db: Db)
    requires Sound(db)
    ensures AllMatch(db.payouts, FirstActive(db, PASS_LIMIT))
    ensures FirstActive(db, PASS_LIMIT) == [] ==> forall p :: !IsActive(db.payouts, p)
  {
    ActiveUpToMembers(db.payouts, db.lastPayout);
    var ids := ActiveUpTo(db.payouts, db.lastPayout);
    var first := if |ids| <= PASS_LIMIT then ids else ids[..PASS_LIMIT];
    assert forall i :: 0 <= i < |first| ==> first[i] in ids;
    assert FirstActive(db, PASS_LIMIT) == Batches(db.payouts, first);
    assert ids != [] ==> first != [];
    forall p ensures IsActive(db.payouts, p) ==> p in ids {
    }
  }

  lemma PrepareKeepsInv(s: Pool, threshold: nat, fee: nat, maxOutputs: nat, requestID: string, lost: bool)
    requires Inv(s)
    ensures Inv(ExecPrepare(s, threshold, fee, maxOutputs, requestID, lost))
  {
    if s.phase.NoneActive? && Preparable(s.db, threshold, maxOutputs, requestID) {
      NewPayoutShape(s.db, threshold, fee, maxOutputs, requestID);
      PayoutAddedKeepsInv(s, NewPayout(s.db, threshold, fee, maxOutputs, requestID), lost);
    }
  }

  lemma RowsKept(payouts: map<nat, Payout>, executed: map<string, Call>, id: nat, p: Payout)
    requires ExecutedSound(payouts, executed) && id !in payouts
    ensures ExecutedSound(payouts[id := p], executed)
  {
    forall r | r in executed ensures HasRow(payouts[id := p], executed[r].request) {
      assert HasRow(payouts, executed[r].request);
      var q :| q in payouts && RequestOf(payouts[q]) == executed[r].request;
      assert q in payouts[id := p] && RequestOf(payouts[id := p][q]) == executed[r].request;
    }
  }

  lemma OnlyActive(payouts: map<nat, Payout>, id: nat, p: Payout)
    requires forall q :: !IsActive(payouts, q)
    ensures OneActive(payouts[id := p])
  {
    var after := payouts[id := p];
    forall q | IsActive(after, q) ensures q == id {
      assert !IsActive(payouts, q);
    }
  }

  lemma PayoutAddedKeepsInv(s: Pool, p: Payout, lost: bool)
    requires Inv(s) && s.phase.NoneActive?
    requires p.amount == Total(p.items) && !RequestUsed(s.db.payouts, p.requestID) && WithinBalances(s.db, p)
    ensures Inv(Reserve(s, p, lost))
  {
    var id, t := s.db.lastPayout + 1, Reserve(s, p, lost);
    AddPayoutKeepsSound(s.db, p);
    RowsKept(s.db.payouts, s.executed, id, p);
    OnlyActive(s.db.payouts, id, p);
    assert PhaseSound(t.db, t.phase) by {
      assert Matches(t.db.payouts, Batch(id, RequestOf(p)));
    }
    assert SubmissionsSound(t);
  }

  lemma SendShape(s: Pool, wallet: Wallet, outcome: Outcome, noted: bool)
    requires s.phase.Paying? && s.phase.batches != []
    ensures var t, batch, rest := ExecSend(s, wallet, outcome, noted), s.phase.batches[0], s.phase.batches[1..];
      && t == s.(db := s.db.(payouts := t.db.payouts), phase := t.phase, executed := t.executed)
      && SameContents(s.db.payouts, t.db.payouts)
      && (t.phase == PayingOn(rest) || (t.phase.Answered? && t.phase.batch == batch && t.phase.rest == rest))
      && (t.executed == s.executed || t.executed == s.executed[batch.request.requestID := Call(batch.request, wallet)])
  {
    FailedAndSettledKeepContents(
      s.db.payouts, s.phase.batches[0].id, if outcome.Replied? then CONFLICT else outcome.message, Submitted);
  }

  lemma ExecutedMore(payouts: map<nat, Payout>, executed: map<string, Call>, call: Call)
    requires ExecutedSound(payouts, executed) && HasRow(payouts, call.request)
    ensures ExecutedSound(payouts, executed[call.request.requestID := call])
  {
  }

  lemma SendKeepsInv(s: Pool, wallet: Wallet, outcome: Outcome, noted: bool)
    requires Inv(s)
    ensures Inv(ExecSend(s, wallet, outcome, noted))
  {
    if s.phase.Paying? && s.phase.batches != [] {
      var batch, rest := s.phase.batches[0], s.phase.batches[1..];
      SendShape(s, wallet, outcome, noted);
      assert Matches(s.db.payouts, batch) && HasRow(s.db.payouts, batch.request);
      ExecutedMore(s.db.payouts, s.executed, Call(batch.request, wallet));
      SendChangesKeepInv(s, ExecSend(s, wallet, outcome, noted), batch, rest);
    }
  }

  lemma SendChangesKeepInv(s: Pool, t: Pool, batch: Batch, rest: seq<Batch>)
    requires Inv(s) && Matches(s.db.payouts, batch) && AllMatch(s.db.payouts, rest)
    requires SameContents(s.db.payouts, t.db.payouts) && ExecutedSound(s.db.payouts, t.executed)
    requires t == s.(db := s.db.(payouts := t.db.payouts), phase := t.phase, executed := t.executed)
    requires t.phase == PayingOn(rest) || (t.phase.Answered? && t.phase.batch == batch && t.phase.rest == rest)
    ensures Inv(t)
  {
    SameContentsKeepsSound(s.db, t.db.payouts);
    SameContentsKeepsRest(s.db.payouts, t.db.payouts, rest, t.executed);
  }

  lemma SettleKeepsInv(s: Pool, stored: bool)
    requires Inv(s)
    ensures Inv(ExecSettle(s, stored))
  {
    if s.phase.Answered? && stored {
      var after := ExecSettle(s, stored).db.payouts;
      FailedAndSettledKeepContents(
        s.db.payouts, s.phase.batch.id, s.phase.transaction, if s.phase.confirmed then Confirmed else Submitted);
      SameContentsKeepsSound(s.db, after);
      SameContentsKeepsRest(s.db.payouts, after, s.phase.rest, s.executed);
    }
  }

  lemma {:induction false} RunKeepsInv(s: Pool, acts: seq<Action>)
    requires Inv(s)
    ensures Inv(Run(s, acts))
    decreases |acts|
  {
    if acts != [] {
      StepKeepsInv(s, acts[0]);
      RunKeepsInv(Exec(s, acts[0]), acts[1..]);
    }
  }

  lemma StartSound()
    ensures Inv(START)
  {
  }
}
